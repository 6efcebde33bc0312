/** The confetti effect: while active, every 2000 ms a burst of 35 to 59
    pieces is appended, and 7000 ms later that burst is filtered out by id. */
module Confetti {
  import opened Common
  import opened Particles
  import opened Timeline

  datatype Shape = Rect | Circle | Star | Heart

  /** The palette: lavender, rose-gold, champagne, sky-blue, peach, gold,
      silver, pink, white. */
  const Colors: seq<string> :=
    ["#E6E6FA", "#FFD1DC", "#F0E68C", "#87CEEB", "#FFDAB9", "#FFD700", "#C0C0C0", "#FF69B4", "#FFFFFF"]
  const Shapes: seq<Shape> := [Rect, Circle, Star, Heart]

  const IntervalMs: nat := 2000
  const LifetimeMs: nat := 7000

  /** What a piece looks like; the real-valued fields are opaque payload. */
  datatype Look = Look(x: real, y: real, color: string, shape: Shape, rotation: real, size: real, xDrift: real)
  type Piece = Particle<Look>

  /** The random draws behind one piece: `colorRoll` and `shapeRoll` stand for
      `Math.floor(Math.random() * length)`, the rest are taken as they come. */
  datatype Draw = Draw(id: Id, x: real, y: real, colorRoll: int, shapeRoll: int, rotation: real, size: real, xDrift: real)

  predicate ValidDraw(d: Draw)
  {
    0 <= d.colorRoll < |Colors| && 0 <= d.shapeRoll < |Shapes|
  }

  /** `Math.floor(Math.random() * 25) + 35`, with the floor already taken as `roll`. */
  function BurstCount(roll: int): (n: nat)
    requires 0 <= roll < 25
    ensures 35 <= n <= 59
  {
    roll + 35
  }

  function NewPiece(d: Draw): (p: Piece)
    requires ValidDraw(d)
    ensures p.id == d.id
    ensures p.look.color in Colors && p.look.shape in Shapes
  {
    Particle(d.id, Look(d.x, d.y, Colors[d.colorRoll], Shapes[d.shapeRoll], d.rotation, d.size, d.xDrift))
  }

  /** The pieces of one tick, one per draw, in draw order. */
  function Burst(roll: int, draws: seq<Draw>): (pieces: seq<Piece>)
    requires 0 <= roll < 25 && |draws| == BurstCount(roll)
    requires forall d :: d in draws ==> ValidDraw(d)
    ensures 35 <= |pieces| <= 59 && |pieces| == |draws|
    ensures forall i :: 0 <= i < |pieces| ==> pieces[i].id == draws[i].id
    ensures forall p :: p in pieces ==> p.look.color in Colors && p.look.shape in Shapes
  {
    seq(|draws|, i requires 0 <= i < |draws| => NewPiece(draws[i]))
  }

  /** One interval tick: the whole burst goes at the end of the list. The
      burst is returned so that its removal can be scheduled. */
  method Tick(list: ParticleList<Look>, roll: int, draws: seq<Draw>) returns (burst: seq<Piece>)
    requires list.running
    requires 0 <= roll < 25 && |draws| == BurstCount(roll)
    requires forall d :: d in draws ==> ValidDraw(d)
    modifies list`particles
    ensures burst == Burst(roll, draws)
    ensures list.particles == old(list.particles) + burst
  {
    burst := Burst(roll, draws);
    list.Spawn(burst);
  }

  /** The burst's removal timeout: every piece whose id is one of the
      burst's goes, whatever else is in the list stays in order. */
  method Expire(list: ParticleList<Look>, burst: seq<Piece>)
    modifies list`particles
    ensures list.particles == Without(old(list.particles), IdsOf(burst))
  {
    list.RemoveIds(IdsOf(burst));
  }

  /** With ticks every 2000 ms and removal 7000 ms after a tick, a burst is
      gone by the fourth tick after its own. */
  lemma BurstDue(j: nat)
    ensures DueStep(j, IntervalMs, LifetimeMs) == j + 4
  {
    assert CeilDiv(7000, 2000) == 4;
  }

  /** At most four bursts, so at most 236 pieces, are live at once. */
  lemma LiveBursts(bursts: seq<seq<Piece>>, due: seq<nat>, s: nat)
    requires Schedule(bursts, due) && s <= |bursts|
    requires forall j :: 0 <= j < |due| ==> due[j] == DueStep(j, IntervalMs, LifetimeMs)
    requires forall b :: b in bursts ==> |b| <= 59
    ensures |Kept(bursts, due, s, s)| <= 4
    ensures |AfterStep(bursts, due, s)| <= 236
  {
    forall j | 0 <= j < |due| ensures due[j] <= j + 4 {
      BurstDue(j);
    }
    LiveBound(bursts, due, s, 4, 59);
  }
}
