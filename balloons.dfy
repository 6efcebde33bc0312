/** The balloon effect: while active, one balloon every 2000 ms, each
    filtered out by its id 18000 ms after it was added. */
module Balloons {
  import opened Common
  import opened Particles
  import opened Timeline

  /** Six entries, all the same balloon glyph. */
  const BalloonColors: seq<string> :=
    ["\U{1F388}", "\U{1F388}", "\U{1F388}", "\U{1F388}", "\U{1F388}", "\U{1F388}"]

  const IntervalMs: nat := 2000
  const LifetimeMs: nat := 18000

  /** What a balloon looks like; the real-valued fields are opaque payload. */
  datatype Look = Look(x: real, color: string, delay: real, swayAmount: real, size: real, bobSpeed: real)
  type Balloon = Particle<Look>

  /** The random draws behind one balloon; `colorRoll` stands for
      `Math.floor(Math.random() * BalloonColors.length)`. */
  datatype Draw = Draw(id: Id, x: real, colorRoll: int, swayAmount: real, size: real, bobSpeed: real)

  function NewBalloon(d: Draw): (b: Balloon)
    requires 0 <= d.colorRoll < |BalloonColors|
    ensures b.id == d.id
    ensures b.look.color in BalloonColors
    ensures b.look.delay == 0.0
  {
    Particle(d.id, Look(d.x, BalloonColors[d.colorRoll], 0.0, d.swayAmount, d.size, d.bobSpeed))
  }

  /** One interval tick: exactly one balloon goes at the end of the list. */
  method Tick(list: ParticleList<Look>, d: Draw) returns (b: Balloon)
    requires list.running
    requires 0 <= d.colorRoll < |BalloonColors|
    modifies list`particles
    ensures b == NewBalloon(d)
    ensures list.particles == old(list.particles) + [b]
  {
    b := NewBalloon(d);
    list.Spawn([b]);
  }

  /** The balloon's removal timeout: every balloon with its id goes, the
      others stay in order. */
  method Expire(list: ParticleList<Look>, b: Balloon)
    modifies list`particles
    ensures list.particles == Without(old(list.particles), [b.id])
  {
    list.RemoveIds([b.id]);
  }

  /** A balloon is gone by the ninth tick after its own. */
  lemma BalloonDue(j: nat)
    ensures DueStep(j, IntervalMs, LifetimeMs) == j + 9
  {
    assert CeilDiv(18000, 2000) == 9;
  }

  /** At most nine balloons are live at once. */
  lemma LiveBalloons(batches: seq<seq<Balloon>>, due: seq<nat>, s: nat)
    requires Schedule(batches, due) && s <= |batches|
    requires forall j :: 0 <= j < |due| ==> due[j] == DueStep(j, IntervalMs, LifetimeMs)
    requires forall b :: b in batches ==> |b| == 1
    ensures |AfterStep(batches, due, s)| <= 9
  {
    forall j | 0 <= j < |due| ensures due[j] <= j + 9 {
      BalloonDue(j);
    }
    LiveBound(batches, due, s, 9, 1);
  }

  /** A balloon's removal comes due exactly on a tick, and the browser does
      not order the two timers; if the removal may fire just after that
      tick's append instead of just before, at most ten balloons are live. */
  lemma LiveBalloonsEitherOrder(batches: seq<seq<Balloon>>, due: seq<nat>, s: nat)
    requires Schedule(batches, due) && s <= |batches|
    requires forall j :: 0 <= j < |due| ==>
      DueStep(j, IntervalMs, LifetimeMs) <= due[j] <= DueStep(j, IntervalMs, LifetimeMs) + 1
    requires forall b :: b in batches ==> |b| == 1
    ensures |AfterStep(batches, due, s)| <= 10
  {
    forall j | 0 <= j < |due| ensures due[j] <= j + 10 {
      BalloonDue(j);
    }
    LiveBound(batches, due, s, 10, 1);
  }
}
