/** The memory grid: on activation the catalog of photos and videos is
    shuffled once, laid out on a responsive grid and added to the visible
    list one cell at a time; once the entrance has settled, a click opens a
    lightbox that steps through the list with wrap-around. */
module FlyingMedia {
  import opened Common

  datatype MediaKind = Photo | Video
  datatype MediaEntry = MediaEntry(src: string, kind: MediaKind)

  /** The catalog: the eight photos, then the four videos. */
  const AllMedia: seq<MediaEntry> := [
    MediaEntry("one.jpg", Photo), MediaEntry("two.jpg", Photo),
    MediaEntry("three.jpg", Photo), MediaEntry("four.jpg", Photo),
    MediaEntry("five.jpg", Photo), MediaEntry("six.jpg", Photo),
    MediaEntry("seven.jpg", Photo), MediaEntry("eight.jpg", Photo),
    MediaEntry("vid_1.mp4", Video), MediaEntry("vid_2.mp4", Video),
    MediaEntry("vid_3.mp4", Video), MediaEntry("vid_4.mp4", Video)
  ]

  // ---------------------------------------------------------------------
  // Fisher-Yates shuffle
  // ---------------------------------------------------------------------

  /** The sequence with positions `i` and `j` exchanged. */
  function Swap<T>(s: seq<T>, i: nat, j: nat): (r: seq<T>)
    requires i < |s| && j < |s|
    ensures |r| == |s| && r[i] == s[j] && r[j] == s[i]
    ensures forall k :: 0 <= k < |s| && k != i && k != j ==> r[k] == s[k]
  {
    s[i := s[j]][j := s[i]]
  }

  lemma SwapPermutes<T>(s: seq<T>, i: nat, j: nat)
    requires i < |s| && j < |s|
    ensures multiset(Swap(s, i, j)) == multiset(s)
  {
  }

  /** Exchanging two positions keeps the elements pairwise distinct. */
  lemma SwapDistinct<T>(s: seq<T>, i: nat, j: nat)
    requires i < |s| && j < |s|
    requires forall a, b :: 0 <= a < b < |s| ==> s[a] != s[b]
    ensures forall a, b :: 0 <= a < b < |s| ==> Swap(s, i, j)[a] != Swap(s, i, j)[b]
  {
  }

  /** At loop step `i` the random index `Math.floor(Math.random() * (i + 1))`
      is `js[i]`, somewhere in `[0, i]`; `js[0]` is never used. */
  predicate ValidDraws(js: seq<int>, n: nat)
  {
    |js| == n && forall i :: 0 < i < n ==> 0 <= js[i] <= i
  }

  /** What the swap loop leaves after running its steps `i`, `i - 1`, ..., 1. */
  function SwapDown<T>(s: seq<T>, js: seq<int>, i: int): (r: seq<T>)
    requires ValidDraws(js, |s|) && i < |s|
    ensures |r| == |s|
    decreases i
  {
    if i <= 0 then s else SwapDown(Swap(s, i, js[i]), js, i - 1)
  }

  /** The full shuffle of `s` under the draws `js`. */
  function Shuffled<T>(s: seq<T>, js: seq<int>): seq<T>
    requires ValidDraws(js, |s|)
  {
    SwapDown(s, js, |s| - 1)
  }

  /** The shuffle rearranges and never adds or drops an element. */
  lemma {:induction false} SwapDownPermutes<T>(s: seq<T>, js: seq<int>, i: int)
    requires ValidDraws(js, |s|) && i < |s|
    ensures multiset(SwapDown(s, js, i)) == multiset(s)
    decreases i
  {
    if i > 0 {
      SwapPermutes(s, i, js[i]);
      SwapDownPermutes(Swap(s, i, js[i]), js, i - 1);
    }
  }

  /** Positions above the current step are final: the loop never returns to them. */
  lemma {:induction false} SwapDownFixesAbove<T>(s: seq<T>, js: seq<int>, i: int, k: nat)
    requires ValidDraws(js, |s|) && i < k < |s|
    ensures SwapDown(s, js, i)[k] == s[k]
    decreases i
  {
    if i > 0 {
      SwapDownFixesAbove(Swap(s, i, js[i]), js, i - 1, k);
    }
  }

  /** The last slot receives the element picked by the first draw. */
  lemma ShuffleLastSlot<T>(s: seq<T>, js: seq<int>)
    requires ValidDraws(js, |s|) && |s| >= 2
    ensures Shuffled(s, js)[|s| - 1] == s[js[|s| - 1]]
  {
    var top := |s| - 1;
    SwapDownFixesAbove(Swap(s, top, js[top]), js, top - 1, top);
  }

  /** Over distinct elements, different draws give different orders: each
      order of the catalog comes from at most one sequence of draws. */
  lemma {:induction false} SwapDownInjective<T>(s: seq<T>, js1: seq<int>, js2: seq<int>, i: int)
    requires ValidDraws(js1, |s|) && ValidDraws(js2, |s|) && i < |s|
    requires forall a, b :: 0 <= a < b < |s| ==> s[a] != s[b]
    requires SwapDown(s, js1, i) == SwapDown(s, js2, i)
    ensures forall k :: 0 < k <= i ==> js1[k] == js2[k]
    decreases i
  {
    if i > 0 {
      var s1 := Swap(s, i, js1[i]);
      var s2 := Swap(s, i, js2[i]);
      SwapDownFixesAbove(s1, js1, i - 1, i);
      SwapDownFixesAbove(s2, js2, i - 1, i);
      assert s[js1[i]] == s[js2[i]];
      assert js1[i] == js2[i];
      SwapDistinct(s, i, js1[i]);
      SwapDownInjective(s1, js1, js2, i - 1);
    }
  }

  /** `shuffleArray`: copies its input and swaps in place on the copy from
      the top index down to 1; the input itself is a value and stays as it was. */
  method Shuffle<T>(items: seq<T>, js: seq<int>) returns (r: seq<T>)
    requires ValidDraws(js, |items|)
    ensures r == Shuffled(items, js)
    ensures |r| == |items| && multiset(r) == multiset(items)
  {
    var copy := new T[|items|](k requires 0 <= k < |items| => items[k]);
    assert copy[..] == items;
    var i := copy.Length - 1;
    while i > 0
      invariant -1 <= i < copy.Length
      invariant SwapDown(copy[..], js, i) == Shuffled(items, js)
      decreases i
    {
      var j := js[i];
      ghost var before := copy[..];
      copy[i], copy[j] := copy[j], copy[i];
      assert copy[..] == Swap(before, i, j);
      i := i - 1;
    }
    r := copy[..];
    SwapDownPermutes(items, js, |items| - 1);
  }

  // ---------------------------------------------------------------------
  // Grid layout
  // ---------------------------------------------------------------------

  /** The column count for a viewport width. */
  function Columns(width: int): (cols: nat)
    ensures 2 <= cols <= 4
    ensures cols == 2 <==> width < 480
    ensures cols == 4 <==> width >= 768
  {
    if width < 480 then 2 else if width < 768 then 3 else 4
  }

  datatype GridLayout = GridLayout(cols: nat, gap: nat, padding: nat, cellSize: nat)

  /** The grid's sizing table, read from the viewport width at render time. */
  function Layout(width: int): (l: GridLayout)
    ensures l.cols == Columns(width)
    ensures l.cellSize == 40 * (l.cols + 1)
    ensures width < 480 ==> l.gap == 10 && l.padding == 10
    ensures width >= 480 ==> l.gap == 16 && l.padding == 30
  {
    var cols := if width < 480 then 2 else if width < 768 then 3 else 4;
    var gap := if width < 480 then 10 else 16;
    var padding := if width < 480 then 10 else 30;
    var cellSize := if width < 480 then 120 else if width < 768 then 160 else 200;
    GridLayout(cols, gap, padding, cellSize)
  }

  /** A wider viewport never gets fewer columns, smaller cells or smaller spacing. */
  lemma LayoutMonotone(w1: int, w2: int)
    requires w1 <= w2
    ensures Layout(w1).cols <= Layout(w2).cols
    ensures Layout(w1).cellSize <= Layout(w2).cellSize
    ensures Layout(w1).gap <= Layout(w2).gap && Layout(w1).padding <= Layout(w2).padding
  {
  }

  datatype GridPos = GridPos(row: nat, col: nat)

  /** Row and column of the cell at `index`, filling rows left to right. */
  function GridPosition(index: nat, cols: nat): (p: GridPos)
    requires cols > 0
    ensures p.col < cols
    ensures p.row * cols + p.col == index
  {
    GridPos(index / cols, index % cols)
  }

  /** No other cell satisfies the two equations: the position is determined. */
  lemma GridPositionUnique(index: nat, cols: nat, p: GridPos)
    requires cols > 0 && p.col < cols && p.row * cols + p.col == index
    ensures p == GridPosition(index, cols)
  {
    var q := GridPosition(index, cols);
    if p.row < q.row {
      assert (p.row + 1) * cols == p.row * cols + cols;
      MulMono(p.row + 1, q.row, cols);
    } else if q.row < p.row {
      assert (q.row + 1) * cols == q.row * cols + cols;
      MulMono(q.row + 1, p.row, cols);
    }
  }

  /** The cell after index `i` is the next column, or the first column of
      the next row when the row is full. */
  lemma GridNext(index: nat, cols: nat)
    requires cols > 0
    ensures var p := GridPosition(index, cols);
      GridPosition(index + 1, cols)
        == if p.col + 1 < cols then GridPos(p.row, p.col + 1) else GridPos(p.row + 1, 0)
  {
    var p := GridPosition(index, cols);
    var n := if p.col + 1 < cols then GridPos(p.row, p.col + 1) else GridPos(p.row + 1, 0);
    assert n.row * cols + n.col == index + 1;
    GridPositionUnique(index + 1, cols, n);
  }

  /** The catalog entry for cell `index`, `media[index % media.length]`. */
  function MediaFor(index: nat, media: seq<MediaEntry>): (e: MediaEntry)
    requires |media| > 0
    ensures e in media
    ensures index < |media| ==> e == media[index]
  {
    media[index % |media|]
  }

  /** One cell of the grid; rotation and scale are opaque payload, delay is
      the entrance delay in seconds. */
  datatype MediaItem = MediaItem(id: Id, kind: MediaKind, src: string, layer: nat, pos: GridPos,
                                 rotation: real, scale: real, delay: real)

  /** The random draws behind one cell: `layerRoll` stands for
      `Math.floor(Math.random() * 3)`, the rest are taken as they come. */
  datatype ItemDraw = ItemDraw(id: Id, layerRoll: int, rotation: real, scale: real)

  predicate ValidItemDraw(d: ItemDraw)
  {
    0 <= d.layerRoll < 3
  }

  function EntryOf(item: MediaItem): MediaEntry
  {
    MediaEntry(item.src, item.kind)
  }

  function Entries(items: seq<MediaItem>): (es: seq<MediaEntry>)
    ensures |es| == |items|
    ensures forall i :: 0 <= i < |items| ==> es[i] == EntryOf(items[i])
  {
    seq(|items|, i requires 0 <= i < |items| => EntryOf(items[i]))
  }

  /** `generateMediaItem`: the cell for `index` on a grid as wide as the
      viewport allows, showing the catalog entry at that index. */
  function GenerateMediaItem(index: nat, media: seq<MediaEntry>, delay: real, width: int, d: ItemDraw): (item: MediaItem)
    requires |media| > 0 && ValidItemDraw(d)
    ensures item.id == d.id && item.layer < 3 && item.delay == delay
    ensures item.pos.col < Columns(width)
    ensures item.pos.row * Columns(width) + item.pos.col == index
    ensures EntryOf(item) in media
    ensures index < |media| ==> EntryOf(item) == media[index]
  {
    var e := MediaFor(index, media);
    MediaItem(d.id, e.kind, e.src, d.layerRoll, GridPosition(index, Columns(width)), d.rotation, d.scale, delay)
  }

  /** All cells, one per shuffled entry, entrance delay `i * 0.06` seconds. */
  function BuildItems(shuffled: seq<MediaEntry>, width: int, draws: seq<ItemDraw>): (items: seq<MediaItem>)
    requires |draws| == |shuffled|
    requires forall d :: d in draws ==> ValidItemDraw(d)
    ensures Entries(items) == shuffled
    ensures forall i :: 0 <= i < |items| ==>
      items[i].pos.col < Columns(width) && items[i].pos.row * Columns(width) + items[i].pos.col == i
    ensures forall i, j :: 0 <= i < j < |items| ==> items[i].delay < items[j].delay
  {
    seq(|shuffled|, i requires 0 <= i < |shuffled| =>
      assert draws[i] in draws;
      GenerateMediaItem(i, shuffled, (i as real) * 0.06, width, draws[i]))
  }

  // ---------------------------------------------------------------------
  // Component state and its events
  // ---------------------------------------------------------------------

  /** `mediaItems`, `isSettled` and `focusedIndex` together. */
  datatype GridState = GridState(items: seq<MediaItem>, settled: bool, focus: Option<nat>)

  /** Everything that changes the state: the two kinds of timer callback
      scheduled on activation, the deactivation, and the lightbox handlers. */
  datatype Event =
    | Insert(item: MediaItem)
    | Settle
    | Deactivate
    | Click(index: nat)
    | Close
    | Previous
    | Next
    | KeyDown(key: string)

  /** The focus after the previous button; JavaScript's `%` agrees with
      Dafny's here because `k - 1 + n` is never negative. */
  function PrevIndex(focus: Option<nat>, n: nat): (r: Option<nat>)
    requires focus.None? || n > 0
    ensures focus.None? ==> r.None?
    ensures focus.Some? ==> r.Some? && r.value < n
    ensures focus == Some(0) ==> r == Some(n - 1)
  {
    match focus
    case None => None
    case Some(k) => Some((k - 1 + n) % n)
  }

  /** The focus after the next button. */
  function NextIndex(focus: Option<nat>, n: nat): (r: Option<nat>)
    requires focus.None? || n > 0
    ensures focus.None? ==> r.None?
    ensures focus.Some? ==> r.Some? && r.value < n
    ensures n > 0 && focus == Some(n - 1) ==> r == Some(0)
  {
    match focus
    case None => None
    case Some(k) => Some((k + 1) % n)
  }

  /** The focus after a key press while the listener is registered. */
  function KeyFocus(focus: Option<nat>, n: nat, key: string): (r: Option<nat>)
    requires focus.None? || n > 0
    ensures focus.None? ==> r.None?
    ensures key == "Escape" ==> r.None?
    ensures key != "ArrowLeft" && key != "ArrowRight" && key != "Escape" ==> r == focus
  {
    if focus.None? then focus
    else if key == "ArrowLeft" then Some((focus.value - 1 + n) % n)
    else if key == "ArrowRight" then Some((focus.value + 1) % n)
    else if key == "Escape" then None
    else focus
  }

  /** Navigation needs a non-empty list whenever the lightbox is open. */
  predicate CanStep(s: GridState, e: Event)
  {
    (e.Previous? || e.Next? || e.KeyDown?) ==> s.focus.None? || |s.items| > 0
  }

  /** The state after one event. */
  function Step(s: GridState, e: Event): (t: GridState)
    requires CanStep(s, e)
    ensures (e.Insert? || e.Settle? || e.Deactivate?) ==> t.focus == s.focus
    ensures !(e.Insert? || e.Settle? || e.Deactivate?) ==> t.items == s.items && t.settled == s.settled
    ensures e.Insert? ==> t.items == s.items + [e.item] && t.settled == s.settled
    ensures e.Settle? ==> t.items == s.items && t.settled
    ensures e.Deactivate? ==> t.items == [] && !t.settled
    ensures e.Click? && s.settled ==> t.focus == Some(e.index)
    ensures e.Click? && !s.settled ==> t == s
    ensures e.Previous? ==> t.focus == PrevIndex(s.focus, |s.items|)
    ensures e.Next? ==> t.focus == NextIndex(s.focus, |s.items|)
    ensures e.KeyDown? ==> t.focus == KeyFocus(s.focus, |s.items|, e.key)
    ensures (e.Close? || (e.KeyDown? && e.key == "Escape")) ==> t.focus.None?
  {
    match e
    case Insert(item) => s.(items := s.items + [item])
    case Settle => s.(settled := true)
    case Deactivate => s.(items := [], settled := false)
    case Click(index) => if s.settled then s.(focus := Some(index)) else s
    case Close => s.(focus := None)
    case Previous => s.(focus := PrevIndex(s.focus, |s.items|))
    case Next => s.(focus := NextIndex(s.focus, |s.items|))
    case KeyDown(key) => s.(focus := KeyFocus(s.focus, |s.items|, key))
  }

  /** The lightbox, when open, points at a rendered cell. */
  predicate FocusValid(s: GridState)
  {
    s.focus.Some? ==> s.focus.value < |s.items|
  }

  /** Every event that the page can deliver keeps the focus on a rendered
      cell: clicks come only from rendered cells, and deactivation (which
      leaves the focus as it is) only happens with the lightbox closed. */
  lemma StepKeepsFocusValid(s: GridState, e: Event)
    requires FocusValid(s)
    requires e.Click? ==> e.index < |s.items|
    requires e.Deactivate? ==> s.focus.None?
    ensures CanStep(s, e)
    ensures FocusValid(Step(s, e))
  {
  }

  /** Stepping without the modulo: next moves up by one and wraps from the
      last cell to the first; previous moves down and wraps the other way. */
  lemma NavigationSteps(k: nat, n: nat)
    requires k < n
    ensures NextIndex(Some(k), n) == Some(if k == n - 1 then 0 else k + 1)
    ensures PrevIndex(Some(k), n) == Some(if k == 0 then n - 1 else k - 1)
  {
    if k + 1 < n {
      ModUnique(k + 1, n, 0, k + 1);
    } else {
      ModUnique(k + 1, n, 1, 0);
    }
    if k == 0 {
      ModUnique(k - 1 + n, n, 0, n - 1);
    } else {
      ModUnique(k - 1 + n, n, 1, k - 1);
    }
  }

  /** Next undoes previous and previous undoes next. */
  lemma NextUndoesPrevious(s: GridState)
    requires FocusValid(s)
    ensures CanStep(Step(s, Previous), Next) && Step(Step(s, Previous), Next) == s
    ensures CanStep(Step(s, Next), Previous) && Step(Step(s, Next), Previous) == s
  {
    if s.focus.Some? {
      var n := |s.items|;
      var k := s.focus.value;
      NavigationSteps(k, n);
      var p := if k == 0 then n - 1 else k - 1;
      var q := if k == n - 1 then 0 else k + 1;
      NavigationSteps(p, n);
      NavigationSteps(q, n);
    }
  }

  /** The arrow keys and Escape do what the two buttons and close do, and
      any other key changes nothing. */
  lemma KeysMatchButtons(s: GridState, key: string)
    requires CanStep(s, KeyDown(key))
    ensures key == "ArrowLeft" ==> Step(s, KeyDown(key)) == Step(s, Previous)
    ensures key == "ArrowRight" ==> Step(s, KeyDown(key)) == Step(s, Next)
    ensures key == "Escape" ==> Step(s, KeyDown(key)) == Step(s, Close)
    ensures key != "ArrowLeft" && key != "ArrowRight" && key != "Escape" ==> Step(s, KeyDown(key)) == s
  {
  }

  /** The focus after `m` presses of next. */
  function Advance(focus: Option<nat>, n: nat, m: nat): Option<nat>
    requires focus.None? || n > 0
  {
    if m == 0 then focus else NextIndex(Advance(focus, n, m - 1), n)
  }

  /** Pressing next `m` times rotates the focus by `m` cells, so `n` presses
      come back to where they started. */
  lemma {:induction false} AdvanceRotates(k: nat, n: nat, m: nat)
    requires k < n
    ensures Advance(Some(k), n, m) == Some((k + m) % n)
  {
    if m > 0 {
      AdvanceRotates(k, n, m - 1);
      var p := GridPosition(k + m - 1, n);
      assert Advance(Some(k), n, m) == NextIndex(Some(p.col), n);
      NavigationSteps(p.col, n);
      if p.col + 1 < n {
        ModUnique(k + m, n, p.row, p.col + 1);
      } else {
        assert (p.row + 1) * n == p.row * n + n;
        ModUnique(k + m, n, p.row + 1, 0);
      }
    }
  }

  lemma ModUnique(a: nat, n: nat, q: nat, r: nat)
    requires n > 0 && r < n && a == q * n + r
    ensures a % n == r
  {
    var p := GridPos(q, r);
    GridPositionUnique(a, n, p);
  }

  lemma FullCycle(k: nat, n: nat)
    requires k < n
    ensures Advance(Some(k), n, n) == Some(k)
  {
    AdvanceRotates(k, n, n);
    ModUnique(k + n, n, 1, k);
  }

  // ---------------------------------------------------------------------
  // Activation and the staggered entrance
  // ---------------------------------------------------------------------

  const StaggerDelayMs: nat := 70
  const SettleBufferMs: nat := 4500

  /** A timeout registered on activation: when it fires and what it does. */
  datatype Timer = Timer(at: nat, event: Event)

  /** The timeouts of one activation: cell `i` is added at `i * 70` ms, and
      the grid settles `n * 70 + 4500` ms after activation, for `n` cells. */
  function StaggerPlan(items: seq<MediaItem>): (plan: seq<Timer>)
    ensures |plan| == |items| + 1
    ensures forall i :: 0 <= i < |items| ==> plan[i] == Timer(i * StaggerDelayMs, Insert(items[i]))
    ensures plan[|items|] == Timer(|items| * StaggerDelayMs + SettleBufferMs, Settle)
    ensures forall i, j :: 0 <= i < j < |plan| ==> plan[i].at < plan[j].at
  {
    seq(|items|, i requires 0 <= i < |items| => Timer(i * StaggerDelayMs, Insert(items[i])))
      + [Timer(|items| * StaggerDelayMs + SettleBufferMs, Settle)]
  }

  /** The activation branch of the effect: shuffle the catalog (the memo
      recomputes it on every change of the flag), build one cell per
      shuffled entry, and return the timeouts it registers. It changes no
      state itself. */
  method Activate(width: int, js: seq<int>, draws: seq<ItemDraw>) returns (items: seq<MediaItem>, plan: seq<Timer>)
    requires ValidDraws(js, |AllMedia|)
    requires |draws| == |AllMedia| && forall d :: d in draws ==> ValidItemDraw(d)
    ensures items == BuildItems(Shuffled(AllMedia, js), width, draws)
    ensures multiset(Entries(items)) == multiset(AllMedia)
    ensures plan == StaggerPlan(items)
    ensures |items| == 12 && plan[12] == Timer(5340, Settle)
  {
    var shuffled := Shuffle(AllMedia, js);
    items := BuildItems(shuffled, width, draws);
    assert |items| == |Entries(items)| == |shuffled| == 12;
    plan := StaggerPlan(items);
  }

  predicate TimerEvent(e: Event)
  {
    e.Insert? || e.Settle?
  }

  /** Every timer fires an insertion or the settle callback. */
  predicate TimerEvents(timers: seq<Timer>)
  {
    forall i :: 0 <= i < |timers| ==> TimerEvent(timers[i].event)
  }

  /** The state after the timers fire in the given order. */
  function Replay(s: GridState, timers: seq<Timer>): GridState
    requires TimerEvents(timers)
    decreases |timers|
  {
    if timers == [] then s
    else
      assert TimerEvent(timers[0].event);
      Replay(Step(s, timers[0].event), timers[1..])
  }

  /** Replaying `k` more inserts from `items[..i]` reaches `items[..i + k]`. */
  lemma {:induction false} ReplayInserts(s: GridState, items: seq<MediaItem>, i: nat, k: nat)
    requires i + k <= |items| && s.items == items[..i]
    ensures TimerEvents(StaggerPlan(items)[i..i + k])
    ensures Replay(s, StaggerPlan(items)[i..i + k]) == s.(items := items[..i + k])
    decreases k
  {
    var plan := StaggerPlan(items);
    if k > 0 {
      assert plan[i..i + k][0] == plan[i];
      assert plan[i..i + k][1..] == plan[i + 1..i + k];
      assert items[..i] + [items[i]] == items[..i + 1];
      ReplayInserts(s.(items := items[..i + 1]), items, i + 1, k - 1);
    } else {
      assert plan[i..i] == [];
    }
  }

  /** While the entrance runs, the first `k` timers have added the first `k`
      cells and the grid is not settled, so clicks are ignored. */
  lemma StaggerPrefix(items: seq<MediaItem>, focus: Option<nat>, k: nat)
    requires k <= |items|
    ensures TimerEvents(StaggerPlan(items)[..k])
    ensures Replay(GridState([], false, focus), StaggerPlan(items)[..k]) == GridState(items[..k], false, focus)
  {
    var plan := StaggerPlan(items);
    ReplayInserts(GridState([], false, focus), items, 0, k);
    assert plan[0..k] == plan[..k];
  }

  /** After all timers, in order, the grid lists every cell in shuffle order
      and is settled; the focus has not moved. */
  lemma StaggerComplete(items: seq<MediaItem>, focus: Option<nat>)
    ensures TimerEvents(StaggerPlan(items))
    ensures Replay(GridState([], false, focus), StaggerPlan(items)) == GridState(items, true, focus)
  {
    var plan := StaggerPlan(items);
    var n := |items|;
    StaggerPrefix(items, focus, n);
    ReplayConcat(GridState([], false, focus), plan[..n], plan[n..]);
    assert plan[..n] + plan[n..] == plan;
    assert plan[n..][1..] == [];
    assert items[..n] == items;
  }

  lemma {:induction false} ReplayConcat(s: GridState, a: seq<Timer>, b: seq<Timer>)
    requires TimerEvents(a)
    requires TimerEvents(b)
    ensures TimerEvents(a + b)
    ensures Replay(s, a + b) == Replay(Replay(s, a), b)
    decreases |a|
  {
    assert forall i :: 0 <= i < |a + b| ==> (a + b)[i] == if i < |a| then a[i] else b[i - |a|];
    if a == [] {
      assert a + b == b;
    } else {
      assert (a + b)[0] == a[0];
      assert (a + b)[1..] == a[1..] + b;
      ReplayConcat(Step(s, a[0].event), a[1..], b);
    }
  }

  // ---------------------------------------------------------------------
  // The component
  // ---------------------------------------------------------------------

  /** The component's state; each method is one callback or handler. */
  class MediaGrid {
    var mediaItems: seq<MediaItem>
    var isSettled: bool
    var focusedIndex: Option<nat>

    function State(): GridState
      reads this
    {
      GridState(mediaItems, isSettled, focusedIndex)
    }

    constructor ()
      ensures State() == GridState([], false, None)
    {
      mediaItems := [];
      isSettled := false;
      focusedIndex := None;
    }

    /** A stagger timeout: `setMediaItems(prev => [...prev, item])`. */
    method StaggerInsert(item: MediaItem)
      modifies this
      ensures State() == Step(old(State()), Event.Insert(item))
    {
      mediaItems := mediaItems + [item];
    }

    /** The settle timeout. */
    method MarkSettled()
      modifies this
      ensures State() == Step(old(State()), Event.Settle)
    {
      isSettled := true;
    }

    /** The effect with the flag off, and the cleanup when it goes off. */
    method Deactivate()
      modifies this
      ensures State() == Step(old(State()), Event.Deactivate)
    {
      mediaItems := [];
      isSettled := false;
    }

    method HandleMediaClick(index: nat)
      modifies this
      ensures State() == Step(old(State()), Event.Click(index))
    {
      if isSettled {
        focusedIndex := Some(index);
      }
    }

    method HandleClose()
      modifies this
      ensures State() == Step(old(State()), Event.Close)
    {
      focusedIndex := None;
    }

    method HandlePrevious()
      requires CanStep(State(), Event.Previous)
      modifies this
      ensures State() == Step(old(State()), Event.Previous)
    {
      if focusedIndex.Some? {
        focusedIndex := Some((focusedIndex.value - 1 + |mediaItems|) % |mediaItems|);
      }
    }

    method HandleNext()
      requires CanStep(State(), Event.Next)
      modifies this
      ensures State() == Step(old(State()), Event.Next)
    {
      if focusedIndex.Some? {
        focusedIndex := Some((focusedIndex.value + 1) % |mediaItems|);
      }
    }

    method HandleKeyDown(key: string)
      requires CanStep(State(), Event.KeyDown(key))
      modifies this
      ensures State() == Step(old(State()), Event.KeyDown(key))
    {
      if focusedIndex.None? {
        return;
      }
      if key == "ArrowLeft" {
        focusedIndex := Some((focusedIndex.value - 1 + |mediaItems|) % |mediaItems|);
      } else if key == "ArrowRight" {
        focusedIndex := Some((focusedIndex.value + 1) % |mediaItems|);
      } else if key == "Escape" {
        focusedIndex := None;
      }
    }
  }
}
