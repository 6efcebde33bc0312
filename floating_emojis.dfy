/** The floating-emoji effect: while active, one emoji every 1200 ms, each
    filtered out by its id 12000 ms after it was added. */
module FloatingEmojis {
  import opened Common
  import opened Particles
  import opened Timeline

  /** Birthday cake, gift, sparkling heart, confetti ball, party popper,
      partying face, balloon, glowing star. */
  const Emojis: seq<string> :=
    ["\U{1F382}", "\U{1F381}", "\U{1F496}", "\U{1F38A}", "\U{1F389}", "\U{1F973}", "\U{1F388}", "\U{1F31F}"]

  const IntervalMs: nat := 1200
  const LifetimeMs: nat := 12000

  /** What a floating emoji looks like; the real-valued fields are opaque payload. */
  datatype Look = Look(x: real, emoji: string, drift: real, rotation: real, scale: real, wobble: real)
  type Emoji = Particle<Look>

  /** The random draws behind one emoji; `emojiRoll` stands for
      `Math.floor(Math.random() * Emojis.length)`. */
  datatype Draw = Draw(id: Id, x: real, emojiRoll: int, drift: real, rotation: real, scale: real, wobble: real)

  function NewEmoji(d: Draw): (e: Emoji)
    requires 0 <= d.emojiRoll < |Emojis|
    ensures e.id == d.id
    ensures e.look.emoji in Emojis
  {
    Particle(d.id, Look(d.x, Emojis[d.emojiRoll], d.drift, d.rotation, d.scale, d.wobble))
  }

  /** One interval tick: exactly one emoji goes at the end of the list. */
  method Tick(list: ParticleList<Look>, d: Draw) returns (e: Emoji)
    requires list.running
    requires 0 <= d.emojiRoll < |Emojis|
    modifies list`particles
    ensures e == NewEmoji(d)
    ensures list.particles == old(list.particles) + [e]
  {
    e := NewEmoji(d);
    list.Spawn([e]);
  }

  /** The emoji's removal timeout: every emoji with its id goes, the others
      stay in order. */
  method Expire(list: ParticleList<Look>, e: Emoji)
    modifies list`particles
    ensures list.particles == Without(old(list.particles), [e.id])
  {
    list.RemoveIds([e.id]);
  }

  /** An emoji is gone by the tenth tick after its own. */
  lemma EmojiDue(j: nat)
    ensures DueStep(j, IntervalMs, LifetimeMs) == j + 10
  {
    assert CeilDiv(12000, 1200) == 10;
  }

  /** At most ten emojis are live at once. */
  lemma LiveEmojis(batches: seq<seq<Emoji>>, due: seq<nat>, s: nat)
    requires Schedule(batches, due) && s <= |batches|
    requires forall j :: 0 <= j < |due| ==> due[j] == DueStep(j, IntervalMs, LifetimeMs)
    requires forall b :: b in batches ==> |b| == 1
    ensures |AfterStep(batches, due, s)| <= 10
  {
    forall j | 0 <= j < |due| ensures due[j] <= j + 10 {
      EmojiDue(j);
    }
    LiveBound(batches, due, s, 10, 1);
  }

  /** An emoji's removal comes due exactly on a tick, and the browser does
      not order the two timers; if the removal may fire just after that
      tick's append instead of just before, at most eleven emojis are live. */
  lemma LiveEmojisEitherOrder(batches: seq<seq<Emoji>>, due: seq<nat>, s: nat)
    requires Schedule(batches, due) && s <= |batches|
    requires forall j :: 0 <= j < |due| ==>
      DueStep(j, IntervalMs, LifetimeMs) <= due[j] <= DueStep(j, IntervalMs, LifetimeMs) + 1
    requires forall b :: b in batches ==> |b| == 1
    ensures |AfterStep(batches, due, s)| <= 11
  {
    forall j | 0 <= j < |due| ensures due[j] <= j + 11 {
      EmojiDue(j);
    }
    LiveBound(batches, due, s, 11, 1);
  }
}
