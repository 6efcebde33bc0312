/** The star effect: while active, one star every 600 ms, each filtered out
    by its id once its own animation time (duration plus delay) has passed. */
module Stars {
  import opened Common
  import opened Particles
  import opened Timeline

  /** Star, glowing star, sparkles, dizzy, high voltage. */
  const StarEmojis: seq<string> := ["\U{2B50}", "\U{1F31F}", "\U{2728}", "\U{1F4AB}", "\U{26A1}"]

  const IntervalMs: nat := 600

  /** What a star looks like. Duration and delay are whole milliseconds here;
      position and size are opaque payload. */
  datatype Look = Look(x: real, y: real, emoji: string, size: real, durationMs: int, delayMs: int)
  type Star = Particle<Look>

  /** The random draws behind one star: `emojiRoll` stands for
      `Math.floor(Math.random() * StarEmojis.length)`, `durationMs` for
      `(Math.random() * 1.5 + 1.5) * 1000` and `delayMs` for
      `Math.random() * 0.2 * 1000`. */
  datatype Draw = Draw(id: Id, x: real, y: real, emojiRoll: int, size: real, durationMs: int, delayMs: int)

  predicate ValidDraw(d: Draw)
  {
    0 <= d.emojiRoll < |StarEmojis| && 1500 <= d.durationMs < 3000 && 0 <= d.delayMs < 200
  }

  function NewStar(d: Draw): (s: Star)
    requires ValidDraw(d)
    ensures s.id == d.id
    ensures s.look.emoji in StarEmojis
    ensures 1500 <= s.look.durationMs < 3000 && 0 <= s.look.delayMs < 200
  {
    Particle(d.id, Look(d.x, d.y, StarEmojis[d.emojiRoll], d.size, d.durationMs, d.delayMs))
  }

  /** The delay of a star's removal timeout, `(duration + delay) * 1000`. */
  function Lifetime(s: Star): (ms: int)
    requires 1500 <= s.look.durationMs < 3000 && 0 <= s.look.delayMs < 200
    ensures 1500 <= ms < 3200
  {
    s.look.durationMs + s.look.delayMs
  }

  /** One interval tick: exactly one star goes at the end of the list. */
  method Tick(list: ParticleList<Look>, d: Draw) returns (s: Star)
    requires list.running
    requires ValidDraw(d)
    modifies list`particles
    ensures s == NewStar(d)
    ensures list.particles == old(list.particles) + [s]
  {
    s := NewStar(d);
    list.Spawn([s]);
  }

  /** The star's removal timeout: every star with its id goes, the others
      stay in order. */
  method Expire(list: ParticleList<Look>, s: Star)
    modifies list`particles
    ensures list.particles == Without(old(list.particles), [s.id])
  {
    list.RemoveIds([s.id]);
  }

  /** A star lives past at least two more ticks and is gone by the sixth
      tick after its own; when its removal lands exactly on a tick it is
      gone by the fifth, so it is gone by the sixth in either timer order. */
  lemma StarDue(j: nat, s: Star)
    requires 1500 <= s.look.durationMs < 3000 && 0 <= s.look.delayMs < 200
    ensures j + 3 <= DueStep(j, IntervalMs, Lifetime(s)) <= j + 6
    ensures Lifetime(s) % IntervalMs == 0 ==> DueStep(j, IntervalMs, Lifetime(s)) <= j + 5
  {
    var c := CeilDiv(Lifetime(s), IntervalMs);
    assert DueStep(j, IntervalMs, Lifetime(s)) == j + c;
  }

  /** Each batch is one star with in-range timing, and its removal comes
      due at the first tick not before its spawn time plus its lifetime, or,
      when that time is exactly a tick's, possibly at the tick after, since
      the browser does not order the two timers. */
  ghost predicate StarSchedule(batches: seq<seq<Star>>, due: seq<nat>)
  {
    && |due| == |batches|
    && forall j :: 0 <= j < |batches| ==>
         && |batches[j]| == 1
         && 1500 <= batches[j][0].look.durationMs < 3000 && 0 <= batches[j][0].look.delayMs < 200
         && DueStep(j, IntervalMs, Lifetime(batches[j][0])) <= due[j]
         && due[j] <= DueStep(j, IntervalMs, Lifetime(batches[j][0]))
                        + (if Lifetime(batches[j][0]) % IntervalMs == 0 then 1 else 0)
  }

  /** At most six stars are live at once. */
  lemma LiveStars(batches: seq<seq<Star>>, due: seq<nat>, s: nat)
    requires StarSchedule(batches, due) && s <= |batches|
    ensures |AfterStep(batches, due, s)| <= 6
  {
    forall j | 0 <= j < |due| ensures due[j] <= j + 6 {
      StarDue(j, batches[j][0]);
    }
    forall b | b in batches ensures |b| <= 1 {
      var j :| 0 <= j < |batches| && batches[j] == b;
    }
    LiveBound(batches, due, s, 6, 1);
  }
}
