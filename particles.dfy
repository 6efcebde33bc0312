/** The lifecycle list shared by the four particle effects (stars, confetti,
    floating emojis, balloons): every interval tick appends new particles at
    the end, a one-shot timeout later filters them out by id, and turning the
    effect off clears the list at once. */
module Particles {
  import opened Common

  /** One particle: its identity and its visual attributes, which the
      lifecycle never inspects. */
  datatype Particle<A> = Particle(id: Id, look: A)

  /** The ids of a batch, in order. */
  function IdsOf<A>(ps: seq<Particle<A>>): (ids: seq<Id>)
    ensures |ids| == |ps|
    ensures forall i :: 0 <= i < |ps| ==> ids[i] == ps[i].id
  {
    seq(|ps|, i requires 0 <= i < |ps| => ps[i].id)
  }

  /** `prev.filter(p => p.id not among ids)`: the list after a removal timeout. */
  function Without<A(!new)>(ps: seq<Particle<A>>, ids: seq<Id>): (r: seq<Particle<A>>)
    ensures |r| <= |ps|
    ensures forall p :: p in r <==> p in ps && p.id !in ids
  {
    if ps == [] then []
    else if ps[0].id in ids then Without(ps[1..], ids)
    else [ps[0]] + Without(ps[1..], ids)
  }

  /** Filtering distributes over concatenation: the survivors keep their
      original relative order. */
  lemma {:induction false} WithoutAppend<A(!new)>(a: seq<Particle<A>>, b: seq<Particle<A>>, ids: seq<Id>)
    ensures Without(a + b, ids) == Without(a, ids) + Without(b, ids)
  {
    if a == [] {
      assert a + b == b;
    } else {
      assert (a + b)[0] == a[0];
      assert (a + b)[1..] == a[1..] + b;
      WithoutAppend(a[1..], b, ids);
    }
  }

  /** Nothing else changes: a particle whose id is not named keeps every one
      of its occurrences, and a particle whose id is named loses all of them. */
  lemma {:induction false} WithoutCounts<A(!new)>(ps: seq<Particle<A>>, ids: seq<Id>, p: Particle<A>)
    ensures multiset(Without(ps, ids))[p] == if p.id in ids then 0 else multiset(ps)[p]
  {
    if ps != [] {
      WithoutCounts(ps[1..], ids, p);
      assert ps == [ps[0]] + ps[1..];
      assert multiset(ps) == multiset{ps[0]} + multiset(ps[1..]);
    }
  }

  /** Removing ids that no particle carries (a stale timeout firing after a
      clear, say) leaves the list as it was. */
  lemma {:induction false} WithoutAbsent<A(!new)>(ps: seq<Particle<A>>, ids: seq<Id>)
    requires forall p :: p in ps ==> p.id !in ids
    ensures Without(ps, ids) == ps
  {
    if ps != [] {
      assert ps[0] in ps;
      WithoutAbsent(ps[1..], ids);
      assert [ps[0]] + ps[1..] == ps;
    }
  }

  /** Running the same removal twice is the same as running it once. */
  lemma WithoutIdempotent<A(!new)>(ps: seq<Particle<A>>, ids: seq<Id>)
    ensures Without(Without(ps, ids), ids) == Without(ps, ids)
  {
    WithoutAbsent(Without(ps, ids), ids);
  }

  /** A batch filtered by its own ids is gone entirely. */
  lemma {:induction false} WithoutOwnIds<A(!new)>(batch: seq<Particle<A>>, ids: seq<Id>)
    requires forall p :: p in batch ==> p.id in ids
    ensures Without(batch, ids) == []
  {
    if batch != [] {
      assert batch[0] in batch;
      WithoutOwnIds(batch[1..], ids);
    }
  }

  /** Ids that no particle of `ps` carries may be added to a removal without
      changing its result. */
  lemma {:induction false} WithoutExtraIds<A(!new)>(ps: seq<Particle<A>>, ids: seq<Id>, extra: seq<Id>)
    requires forall p :: p in ps ==> p.id !in extra
    ensures Without(ps, ids + extra) == Without(ps, ids)
  {
    if ps != [] {
      assert ps[0] in ps;
      WithoutExtraIds(ps[1..], ids, extra);
    }
  }

  /** The list of live particles of one effect, and whether its spawn
      interval is registered. */
  class ParticleList<A(!new)> {
    var particles: seq<Particle<A>>
    var running: bool

    /** The component mounts with an empty list and no interval. */
    constructor ()
      ensures particles == [] && !running
    {
      particles := [];
      running := false;
    }

    /** The effect runs with the flag on: it registers the spawn interval
        and leaves the list alone. */
    method Activate()
      modifies this
      ensures running
      ensures particles == old(particles)
    {
      running := true;
    }

    /** The flag goes off: the cleanup clears the interval and the effect
        empties the list at once, without waiting for removal timeouts. */
    method Deactivate()
      modifies this
      ensures !running
      ensures particles == []
    {
      running := false;
      particles := [];
    }

    /** One interval tick: the new particles go at the end. Only a registered
        interval fires, so a tick needs `running`. */
    method Spawn(batch: seq<Particle<A>>)
      requires running
      modifies this`particles
      ensures particles == old(particles) + batch
    {
      particles := particles + batch;
    }

    /** A removal timeout: every particle whose id is named goes, the others
        stay in order. A timeout is never cancelled, so it may fire whether or
        not the interval is still running. */
    method RemoveIds(ids: seq<Id>)
      modifies this`particles
      ensures particles == Without(old(particles), ids)
    {
      particles := Without(particles, ids);
    }
  }
}
