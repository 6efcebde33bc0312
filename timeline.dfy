/** A discrete clock for a particle effect. The spawn interval fires tick
    number s (counting from 0) at time (s + 1) * period; the batch spawned at
    tick j has a one-shot removal timeout at (j + 1) * period + lifetime.
    The list is observed right after each tick: a removal that has come due
    by then has fired. A removal due at exactly a tick's time is taken to
    fire before that tick; the browser does not order two timers with
    different delays that come due together, so this is a choice of the
    model, and the effects whose removals land on ticks also state their
    bound for the other order. Between
    ticks only removals happen, so the list never grows there and the bounds
    below are the peaks. */
module Timeline {
  import opened Common
  import opened Particles

  /** Integer division rounded up. */
  function CeilDiv(a: nat, b: nat): (c: nat)
    requires b > 0
    ensures c * b >= a
    ensures c == 0 || (c - 1) * b < a
  {
    var q := (a + b - 1) / b;
    assert q * b + (a + b - 1) % b == a + b - 1;
    assert (q - 1) * b == q * b - b;
    q
  }

  /** The tick at which the removal of the batch spawned at tick `j` has
      fired: the first tick not earlier than the removal time. */
  function DueStep(j: nat, period: nat, lifetime: nat): (d: nat)
    requires period > 0 && lifetime > 0
    ensures d > j
    ensures (d + 1) * period >= (j + 1) * period + lifetime
    ensures d * period < (j + 1) * period + lifetime
  {
    var c := CeilDiv(lifetime, period);
    assert (j + c + 1) * period == (j + 1) * period + c * period;
    assert (j + c) * period == (j + 1) * period + (c - 1) * period;
    j + c
  }

  /** `batches[j]` is spawned at tick j and removed just before tick `due[j]`. */
  ghost predicate Schedule<A>(batches: seq<seq<Particle<A>>>, due: seq<nat>)
  {
    |due| == |batches| && forall j :: 0 <= j < |due| ==> due[j] > j
  }

  /** No id is shared between two different batches. */
  ghost predicate DistinctAcross<A>(batches: seq<seq<Particle<A>>>)
  {
    forall i, j, x, y :: 0 <= i < j < |batches| && 0 <= x < |batches[i]| && 0 <= y < |batches[j]| ==>
      batches[i][x].id != batches[j][y].id
  }

  /** The batches laid end to end. */
  function Flatten<A>(bs: seq<seq<Particle<A>>>): seq<Particle<A>>
  {
    if bs == [] then [] else Flatten(bs[..|bs| - 1]) + bs[|bs| - 1]
  }

  /** Of the first `n` batches, those whose removal is due at tick `lo` or later. */
  function Kept<A>(batches: seq<seq<Particle<A>>>, due: seq<nat>, lo: nat, n: nat): seq<seq<Particle<A>>>
    requires n <= |batches| == |due|
  {
    if n == 0 then []
    else Kept(batches, due, lo, n - 1) + (if due[n - 1] >= lo then [batches[n - 1]] else [])
  }

  /** The ids whose removal timeouts, among the first `n` batches, fire just
      before tick `t`. */
  function DueIds<A>(batches: seq<seq<Particle<A>>>, due: seq<nat>, t: nat, n: nat): seq<Id>
    requires n <= |batches| == |due|
  {
    if n == 0 then []
    else DueIds(batches, due, t, n - 1) + (if due[n - 1] == t then IdsOf(batches[n - 1]) else [])
  }

  /** The list right after `s` ticks, built only from the list's own
      operations: before tick s - 1 appends its batch, the removals due then
      filter the list. */
  function AfterStep<A(!new)>(batches: seq<seq<Particle<A>>>, due: seq<nat>, s: nat): seq<Particle<A>>
    requires Schedule(batches, due) && s <= |batches|
  {
    if s == 0 then []
    else Without(AfterStep(batches, due, s - 1), DueIds(batches, due, s - 1, s - 1)) + batches[s - 1]
  }

  lemma FlattenSnoc<A>(bs: seq<seq<Particle<A>>>, b: seq<Particle<A>>)
    ensures Flatten(bs + [b]) == Flatten(bs) + b
  {
    assert (bs + [b])[..|bs|] == bs;
  }

  /** No particle among the first `n` batches carries id `x`. */
  ghost predicate Avoids<A>(batches: seq<seq<Particle<A>>>, n: nat, x: Id)
    requires n <= |batches|
  {
    forall j, a :: 0 <= j < n && a in batches[j] ==> a.id != x
  }

  /** Under distinct ids, the newest of the first `n` batches shares no id
      with the older ones. */
  lemma NewestAvoids<A>(batches: seq<seq<Particle<A>>>, n: nat)
    requires 0 < n <= |batches|
    requires DistinctAcross(batches)
    ensures forall q :: q in batches[n - 1] ==> Avoids(batches, n - 1, q.id)
  {
    forall q | q in batches[n - 1] ensures Avoids(batches, n - 1, q.id) {
      var y :| 0 <= y < |batches[n - 1]| && batches[n - 1][y] == q;
      forall j, a | 0 <= j < n - 1 && a in batches[j] ensures a.id != q.id {
        var x :| 0 <= x < |batches[j]| && batches[j][x] == a;
      }
    }
  }

  /** A kept particle carries none of the ids the first `n` batches avoid. */
  lemma {:induction false} KeptAvoids<A>(batches: seq<seq<Particle<A>>>, due: seq<nat>, lo: nat, n: nat, x: Id)
    requires n <= |batches| == |due|
    requires Avoids(batches, n, x)
    ensures forall p :: p in Flatten(Kept(batches, due, lo, n)) ==> p.id != x
  {
    if n > 0 {
      KeptAvoids(batches, due, lo, n - 1, x);
      var k := Kept(batches, due, lo, n - 1);
      var b := batches[n - 1];
      if due[n - 1] >= lo {
        FlattenSnoc(k, b);
        assert Kept(batches, due, lo, n) == k + [b];
        forall p | p in Flatten(k) + b ensures p.id != x {
          if p in b {
            assert p in batches[n - 1];
          }
        }
      } else {
        assert Kept(batches, due, lo, n) == k;
      }
    }
  }

  /** A due id that the first `n` batches avoid is not among the due ids. */
  lemma {:induction false} DueIdsAvoid<A>(batches: seq<seq<Particle<A>>>, due: seq<nat>, t: nat, n: nat, x: Id)
    requires n <= |batches| == |due|
    requires Avoids(batches, n, x)
    ensures x !in DueIds(batches, due, t, n)
  {
    if n > 0 {
      DueIdsAvoid(batches, due, t, n - 1, x);
      if due[n - 1] == t {
        var ids := IdsOf(batches[n - 1]);
        forall i | 0 <= i < |ids| ensures ids[i] != x {
          assert batches[n - 1][i] in batches[n - 1];
        }
      }
    }
  }

  /** The newest batch is due at `lo`: it goes, and its ids touch nothing older. */
  lemma DropNewest<A(!new)>(batches: seq<seq<Particle<A>>>, due: seq<nat>, lo: nat, n: nat)
    requires 0 < n <= |batches| == |due| && due[n - 1] == lo
    requires forall q :: q in batches[n - 1] ==> Avoids(batches, n - 1, q.id)
    requires Without(Flatten(Kept(batches, due, lo, n - 1)), DueIds(batches, due, lo, n - 1))
          == Flatten(Kept(batches, due, lo + 1, n - 1))
    ensures Without(Flatten(Kept(batches, due, lo, n)), DueIds(batches, due, lo, n))
         == Flatten(Kept(batches, due, lo + 1, n))
  {
    var b := batches[n - 1];
    var k := Kept(batches, due, lo, n - 1);
    var d := DueIds(batches, due, lo, n - 1);
    var own := IdsOf(b);
    assert Kept(batches, due, lo, n) == k + [b];
    assert DueIds(batches, due, lo, n) == d + own;
    assert Kept(batches, due, lo + 1, n) == Kept(batches, due, lo + 1, n - 1);
    FlattenSnoc(k, b);
    WithoutAppend(Flatten(k), b, d + own);
    forall p | p in Flatten(k) ensures p.id !in own {
      forall i | 0 <= i < |own| ensures own[i] != p.id {
        assert b[i] in b;
        KeptAvoids(batches, due, lo, n - 1, b[i].id);
      }
    }
    WithoutExtraIds(Flatten(k), d, own);
    forall q | q in b ensures q.id in d + own {
      var i :| 0 <= i < |b| && b[i] == q;
      assert own[i] == q.id;
    }
    WithoutOwnIds(b, d + own);
  }

  /** The newest batch is due after `lo`: it stays whole, and the older
      removals do not touch it. */
  lemma KeepNewest<A(!new)>(batches: seq<seq<Particle<A>>>, due: seq<nat>, lo: nat, n: nat)
    requires 0 < n <= |batches| == |due| && due[n - 1] > lo
    requires forall q :: q in batches[n - 1] ==> Avoids(batches, n - 1, q.id)
    requires Without(Flatten(Kept(batches, due, lo, n - 1)), DueIds(batches, due, lo, n - 1))
          == Flatten(Kept(batches, due, lo + 1, n - 1))
    ensures Without(Flatten(Kept(batches, due, lo, n)), DueIds(batches, due, lo, n))
         == Flatten(Kept(batches, due, lo + 1, n))
  {
    var b := batches[n - 1];
    var k := Kept(batches, due, lo, n - 1);
    var d := DueIds(batches, due, lo, n - 1);
    assert Kept(batches, due, lo, n) == k + [b];
    assert DueIds(batches, due, lo, n) == d;
    assert Kept(batches, due, lo + 1, n) == Kept(batches, due, lo + 1, n - 1) + [b];
    FlattenSnoc(k, b);
    FlattenSnoc(Kept(batches, due, lo + 1, n - 1), b);
    WithoutAppend(Flatten(k), b, d);
    forall q | q in b ensures q.id !in d {
      DueIdsAvoid(batches, due, lo, n - 1, q.id);
    }
    WithoutAbsent(b, d);
  }

  /** The removals due just before tick `lo` take away exactly the kept
      batches whose removal is due at `lo`. */
  lemma {:induction false} RemoveDue<A(!new)>(batches: seq<seq<Particle<A>>>, due: seq<nat>, lo: nat, n: nat)
    requires n <= |batches| == |due|
    requires DistinctAcross(batches)
    ensures Without(Flatten(Kept(batches, due, lo, n)), DueIds(batches, due, lo, n))
         == Flatten(Kept(batches, due, lo + 1, n))
  {
    if n > 0 {
      RemoveDue(batches, due, lo, n - 1);
      NewestAvoids(batches, n);
      if due[n - 1] < lo {
        assert Kept(batches, due, lo, n) == Kept(batches, due, lo, n - 1);
        assert DueIds(batches, due, lo, n) == DueIds(batches, due, lo, n - 1);
        assert Kept(batches, due, lo + 1, n) == Kept(batches, due, lo + 1, n - 1);
      } else if due[n - 1] == lo {
        DropNewest(batches, due, lo, n);
      } else {
        KeepNewest(batches, due, lo, n);
      }
    }
  }

  /** Right after tick s - 1 the list holds, in spawn order, exactly the
      batches whose removal has not yet come due. */
  lemma {:induction false} AfterStepIsKept<A(!new)>(batches: seq<seq<Particle<A>>>, due: seq<nat>, s: nat)
    requires Schedule(batches, due) && s <= |batches|
    requires DistinctAcross(batches)
    ensures AfterStep(batches, due, s) == Flatten(Kept(batches, due, s, s))
  {
    if s > 0 {
      var t: nat := s - 1;
      AfterStepIsKept(batches, due, t);
      RemoveDue(batches, due, t, t);
      assert t + 1 == s;
      var live := Kept(batches, due, s, t);
      assert Without(AfterStep(batches, due, t), DueIds(batches, due, t, t)) == Flatten(live);
      assert Kept(batches, due, s, s) == live + [batches[t]];
      FlattenSnoc(live, batches[t]);
    }
  }

  /** A particle whose id is not removed at tick `lo` occurs among the
      batches kept past `lo` as often as among those kept at `lo`: only the
      batches due at `lo` leave, and it is in none of them. */
  lemma {:induction false} KeptStep<A>(batches: seq<seq<Particle<A>>>, due: seq<nat>, lo: nat, n: nat, p: Particle<A>)
    requires n <= |batches| == |due|
    requires p.id !in DueIds(batches, due, lo, n)
    ensures multiset(Flatten(Kept(batches, due, lo, n)))[p] == multiset(Flatten(Kept(batches, due, lo + 1, n)))[p]
  {
    if n > 0 {
      var b := batches[n - 1];
      var d := DueIds(batches, due, lo, n - 1);
      var k := Kept(batches, due, lo, n - 1);
      var k' := Kept(batches, due, lo + 1, n - 1);
      assert DueIds(batches, due, lo, n) == d + (if due[n - 1] == lo then IdsOf(b) else []);
      assert p.id !in d;
      KeptStep(batches, due, lo, n - 1, p);
      if due[n - 1] < lo {
        assert Kept(batches, due, lo, n) == k;
        assert Kept(batches, due, lo + 1, n) == k';
      } else if due[n - 1] == lo {
        assert Kept(batches, due, lo, n) == k + [b];
        assert Kept(batches, due, lo + 1, n) == k';
        FlattenSnoc(k, b);
        assert p !in b;
      } else {
        assert Kept(batches, due, lo, n) == k + [b];
        assert Kept(batches, due, lo + 1, n) == k' + [b];
        FlattenSnoc(k, b);
        FlattenSnoc(k', b);
      }
    }
  }

  /** Without any assumption on ids, the list after `s` ticks holds no
      particle more often than the batches not yet due do: a removal that
      names ids of other batches only takes away more. */
  lemma {:induction false} AfterStepWithin<A(!new)>(batches: seq<seq<Particle<A>>>, due: seq<nat>, s: nat)
    requires Schedule(batches, due) && s <= |batches|
    ensures multiset(AfterStep(batches, due, s)) <= multiset(Flatten(Kept(batches, due, s, s)))
  {
    if s > 0 {
      var t: nat := s - 1;
      AfterStepWithin(batches, due, t);
      var prev := AfterStep(batches, due, t);
      var ids := DueIds(batches, due, t, t);
      var live := Kept(batches, due, s, t);
      assert t + 1 == s;
      forall p ensures multiset(Without(prev, ids))[p] <= multiset(Flatten(live))[p] {
        WithoutCounts(prev, ids, p);
        if p.id !in ids {
          KeptStep(batches, due, t, t, p);
        }
      }
      assert Kept(batches, due, s, s) == live + [batches[t]];
      FlattenSnoc(live, batches[t]);
    }
  }

  /** When every batch is removed within `w` ticks of its spawn, at most `w`
      of the first `n` batches are still due at tick `lo` or later, and none
      when `lo` is `w` or more ticks past them all. */
  lemma {:induction false} KeptCount<A>(batches: seq<seq<Particle<A>>>, due: seq<nat>, lo: nat, n: nat, w: nat)
    requires n <= |batches| == |due|
    requires forall j :: 0 <= j < |due| ==> due[j] <= j + w
    ensures |Kept(batches, due, lo, n)| <= if n + w <= lo then 0 else n + w - lo
  {
    if n > 0 {
      KeptCount(batches, due, lo, n - 1, w);
    }
  }

  /** Batches of at most `m` particles each lay out to at most |bs| * m particles. */
  lemma {:induction false} FlattenBound<A>(bs: seq<seq<Particle<A>>>, m: nat)
    requires forall b :: b in bs ==> |b| <= m
    ensures |Flatten(bs)| <= |bs| * m
  {
    if bs != [] {
      var init := bs[..|bs| - 1];
      forall b | b in init ensures |b| <= m {
        assert b in bs;
      }
      FlattenBound(init, m);
      assert bs[|bs| - 1] in bs;
      assert (|bs| - 1) * m + m == |bs| * m;
    }
  }

  lemma {:induction false} KeptFrom<A>(batches: seq<seq<Particle<A>>>, due: seq<nat>, lo: nat, n: nat)
    requires n <= |batches| == |due|
    ensures forall b :: b in Kept(batches, due, lo, n) ==> b in batches
  {
    if n > 0 {
      KeptFrom(batches, due, lo, n - 1);
    }
  }

  /** The live-count bound: if every batch is removed within `w` ticks and
      holds at most `m` particles, then right after any tick at most `w`
      batches and at most w * m particles are live. */
  lemma LiveBound<A(!new)>(batches: seq<seq<Particle<A>>>, due: seq<nat>, s: nat, w: nat, m: nat)
    requires Schedule(batches, due) && s <= |batches|
    requires forall j :: 0 <= j < |due| ==> due[j] <= j + w
    requires forall b :: b in batches ==> |b| <= m
    ensures |Kept(batches, due, s, s)| <= w
    ensures |AfterStep(batches, due, s)| <= w * m
  {
    var live := Kept(batches, due, s, s);
    KeptCount(batches, due, s, s, w);
    KeptFrom(batches, due, s, s);
    FlattenBound(live, m);
    AfterStepWithin(batches, due, s);
    var a := multiset(AfterStep(batches, due, s));
    var f := multiset(Flatten(live));
    assert f == a + (f - a);
    MulMono(|live|, w, m);
  }
}
