/** The persistence thread and restarts (crates/server/src/persist_thread.rs,
    crates/persistence/src/lib.rs): records drain into the current segment; a roll
    opens the next; a snapshot of the changing store is installed under the
    current generation; older files go one by one; a crash cuts the current
    segment at any byte not yet synced. */
module Persistence {
  import opened Bytes
  import opened Wal
  import opened Recovery

  /** A record format: how mutations become segment bytes, what reads back, and how
      many mutations lie whole within a number of bytes. */
  datatype Codec = Codec(
    frame: Mutation -> seq<Byte>, segment: seq<Mutation> -> seq<Byte>,
    read: seq<Byte> -> seq<Mutation>, whole: (seq<Mutation>, nat) -> nat, fits: Mutation -> bool)

  predicate AllFit(c: Codec, ms: seq<Mutation>) {
    forall i :: 0 <= i < |ms| ==> c.fits(ms[i])
  }

  /** A segment grows by one frame at a time and, cut anywhere, reads back as what
      lies whole before the cut. */
  ghost predicate Sound(c: Codec) {
    && c.segment([]) == []
    && (forall ms, m :: c.segment(ms + [m]) == c.segment(ms) + c.frame(m))
    && (forall ms :: c.whole(ms, |c.segment(ms)|) == |ms|)
    && (forall ms, a: nat, b: nat :: a <= b ==> c.whole(ms, a) <= c.whole(ms, b))
    && (forall ms, n: nat :: AllFit(c, ms) && n <= |c.segment(ms)| ==>
          c.whole(ms, n) <= |ms| && c.read(c.segment(ms)[..n]) == ms[..c.whole(ms, n)])
  }

  /** The log's own format. */
  function WalCodec(crc: Crc): Codec {
    Codec(m => Frame(crc, m), ms => Segment(crc, ms), bytes => Replayed(crc, bytes),
          (ms, n) => Whole(Frames(crc, ms), n), m => Fits(m))
  }

  lemma WalIsSound(crc: Crc)
    ensures Sound(WalCodec(crc))
  {
    var c := WalCodec(crc);
    forall ms, m ensures c.segment(ms + [m]) == c.segment(ms) + c.frame(m) {
      SegmentAppend(crc, ms, m);
    }
    forall ms ensures c.whole(ms, |c.segment(ms)|) == |ms| {
      WholeConcat(Frames(crc, ms));
    }
    forall ms, a: nat, b: nat | a <= b ensures c.whole(ms, a) <= c.whole(ms, b) {
      WholeMonotone(Frames(crc, ms), a, b);
    }
    forall ms, n: nat | AllFit(c, ms) && n <= |c.segment(ms)|
      ensures c.whole(ms, n) <= |ms| && c.read(c.segment(ms)[..n]) == ms[..c.whole(ms, n)]
    {
      assert forall i :: 0 <= i < |ms| ==> c.fits(ms[i]);
      CutSegment(crc, ms, n);
    }
  }

  /** Files by generation.  A snapshot file is installed whole, by renaming. */
  datatype Disk = Disk(wal: map<nat, seq<Byte>>, snaps: map<nat, Store>)

  ghost predicate IsTop(s: set<nat>, g: nat) {
    g in s && forall x :: x in s ==> x <= g
  }

  lemma {:induction false} HasTop(s: set<nat>)
    requires s != {}
    ensures exists g: nat :: IsTop(s, g)
  {
    var a: nat :| a in s;
    var rest := s - {a};
    assert forall x :: x in s ==> x == a || x in rest;
    if rest == {} {
      assert IsTop(s, a);
    } else {
      HasTop(rest);
      var g: nat :| IsTop(rest, g);
      assert IsTop(s, if a > g then a else g);
    }
  }

  /** The highest generation, 0 if there is none. */
  ghost function Top(s: set<nat>): (g: nat)
    ensures s == {} ==> g == 0
    ensures s != {} ==> IsTop(s, g)
  {
    if s == {} then 0
    else
      HasTop(s);
      var g: nat :| IsTop(s, g);
      g
  }

  function ReplayFile(c: Codec, s: Store, wal: map<nat, seq<Byte>>, g: nat): Store {
    if g in wal then ReplayAll(s, c.read(wal[g])) else s
  }

  /** Segments `from` up to `until`, in order. */
  function ReplaySegments(c: Codec, s: Store, wal: map<nat, seq<Byte>>, from: nat, until: nat): Store
    decreases until
  {
    if until <= from then s
    else ReplayFile(c, ReplaySegments(c, s, wal, from, until - 1), wal, until - 1)
  }

  ghost function Loaded(d: Disk): Store {
    if Top(d.snaps.Keys) in d.snaps then d.snaps[Top(d.snaps.Keys)] else map[]
  }

  /** The store a restart rebuilds: the newest snapshot, then every segment not
      older than it. */
  ghost function Recovered(c: Codec, d: Disk): Store {
    ReplaySegments(c, Loaded(d), d.wal, Top(d.snaps.Keys), Top(d.wal.Keys) + 1)
  }

  ghost function LatestGeneration(d: Disk): nat {
    var w, p := Top(d.wal.Keys), Top(d.snaps.Keys);
    if w > p then w else p
  }

  // ---------- the running system ----------

  /** `base` is the store the last restart recovered, `start` the generation it
      opened, and `hist` every mutation of the live store since, of which `drained`
      have reached the log; `low[g]` is where segment `g` starts; `reach` bounds the
      capture of the newest snapshot taken since. */
  datatype State = State(
    base: Store, start: nat,
    hist: seq<Mutation>, live: Store, drained: nat,
    gen: nat, synced: nat, disk: Disk,
    low: seq<nat>, reach: nat)
  {
    /** The bytes of the current segment. */
    function Current(): seq<Byte> {
      if gen in disk.wal then disk.wal[gen] else []
    }

    /** The records of the current segment. */
    function Tail(): seq<Mutation> {
      if gen < |low| && low[gen] <= drained <= |hist| then hist[low[gen]..drained] else []
    }

    /** Where each segment starts, and where the last one ends. */
    function Marks(): seq<nat> {
      low + [drained]
    }
  }

  datatype Action =
    | Mutate(m: Mutation)
    | Drain
    | Fsync
    | Roll
    | Install(snap: Store)
    | DropSegment(g: nat)
    | DropSnapshot(g: nat)
    | Crash(cut: nat)

  /** How many mutations are left when the current segment is cut. */
  function Survivors(c: Codec, s: State, cut: nat): nat
    requires s.gen < |s.low|
  {
    s.low[s.gen] + c.whole(s.Tail(), cut)
  }

  function CutDisk(s: State, cut: nat): Disk
    requires cut <= |s.Current()|
  {
    s.disk.(wal := s.disk.wal[s.gen := s.Current()[..cut]])
  }

  /** A start on disk `d`: recover, then open a fresh generation above every file. */
  ghost function Restart(c: Codec, d: Disk): State {
    var g, store := LatestGeneration(d) + 1, Recovered(c, d);
    State(store, g, [], store, 0, g, 0, d.(wal := d.wal[g := []]), seq(g + 1, _ => 0), 0)
  }

  const BLANK := Disk(map[], map[])

  ghost predicate Enabled(c: Codec, s: State, a: Action) {
    match a
    case Mutate(m) => c.fits(m) && Ordered(s.base, s.hist + [m])
    case Drain => s.drained < |s.hist|
    case Fsync => true
    case Roll => true
    case Install(snap) =>
      s.gen < |s.low| && s.low[s.gen] <= |s.hist| && Fuzzy(s.base, snap, s.hist, s.low[s.gen], |s.hist|)
    case DropSegment(g) => g < s.gen && s.gen in s.disk.snaps
    case DropSnapshot(g) => g < s.gen && s.gen in s.disk.snaps
    case Crash(cut) => s.synced <= cut <= |s.Current()|
  }

  ghost function Next(c: Codec, s: State, a: Action): State
    requires Enabled(c, s, a)
  {
    match a
    case Mutate(m) => s.(hist := s.hist + [m], live := Live(s.live, m))
    case Drain => Append(s, c.frame(s.hist[s.drained]))
    case Fsync => s.(synced := |s.Current()|)
    case Roll => Open(s)
    case Install(snap) => s.(disk := s.disk.(snaps := s.disk.snaps[s.gen := snap]), reach := |s.hist|)
    case DropSegment(g) => s.(disk := s.disk.(wal := s.disk.wal - {g}))
    case DropSnapshot(g) => s.(disk := s.disk.(snaps := s.disk.snaps - {g}))
    case Crash(cut) => Restart(c, CutDisk(s, cut))
  }

  function Append(s: State, frame: seq<Byte>): State {
    s.(drained := s.drained + 1, disk := s.disk.(wal := s.disk.wal[s.gen := s.Current() + frame]))
  }

  /** A fresh segment for the next generation. */
  function Open(s: State): State {
    s.(gen := s.gen + 1, synced := 0, low := s.low + [s.drained], disk := s.disk.(wal := s.disk.wal[s.gen + 1 := []]))
  }

  // ---------- what every step keeps ----------

  ghost predicate Shape(s: State) {
    && |s.low| == s.gen + 1
    && s.start <= s.gen
    && s.low[s.gen] <= s.drained <= |s.hist|
    && (forall g, h :: 0 <= g <= h <= s.gen ==> s.low[g] <= s.low[h])
    && IsTop(s.disk.wal.Keys, s.gen)
    && (forall g :: g in s.disk.snaps ==> g <= s.gen)
  }

  /** Segment `g` reads back as its range of the history; a missing segment has
      an empty range. */
  ghost predicate Holds(c: Codec, hist: seq<Mutation>, marks: seq<nat>, wal: map<nat, seq<Byte>>, g: nat) {
    && g + 1 < |marks|
    && marks[g] <= marks[g + 1] <= |hist|
    && (if g in wal then c.read(wal[g]) == hist[marks[g]..marks[g + 1]] else marks[g] == marks[g + 1])
  }

  /** From segment `from` up to `until`, the log holds the history without a gap. */
  ghost predicate Covers(
    c: Codec, hist: seq<Mutation>, marks: seq<nat>, wal: map<nat, seq<Byte>>, from: nat, until: nat)
  {
    forall g :: from <= g < until ==> Holds(c, hist, marks, wal, g)
  }

  /** The first segment a recovery would replay of those opened since the restart. */
  ghost function From(s: State): nat {
    var p := Top(s.disk.snaps.Keys);
    if p > s.start then p else s.start
  }

  /** What a recovery would have built when it gets there. */
  ghost function Root(c: Codec, s: State): Store {
    ReplaySegments(c, Loaded(s.disk), s.disk.wal, Top(s.disk.snaps.Keys), From(s))
  }

  ghost predicate Snapped(s: State, root: Store, from: nat) {
    && from < |s.low|
    && s.low[from] <= s.reach <= |s.hist|
    && Fuzzy(s.base, root, s.hist, s.low[from], s.reach)
  }

  ghost predicate Good(c: Codec, s: State) {
    Ordered(s.base, s.hist) && AllFit(c, s.hist) && s.live == LiveAll(s.base, s.hist)
  }

  ghost predicate Inv(c: Codec, s: State) {
    && Shape(s)
    && Good(c, s)
    && s.Current() == c.segment(s.Tail())
    && s.synced <= |s.Current()|
    && Covers(c, s.hist, s.Marks(), s.disk.wal, From(s), s.gen)
    && Snapped(s, Root(c, s), From(s))
  }

  // ---------- recovery ----------

  lemma {:induction false} SegmentsAre(
    c: Codec, l: Store, hist: seq<Mutation>, marks: seq<nat>, wal: map<nat, seq<Byte>>, from: nat, until: nat)
    requires from <= until < |marks| && marks[from] <= |hist| && Covers(c, hist, marks, wal, from, until)
    ensures marks[from] <= marks[until] <= |hist|
    ensures ReplaySegments(c, l, wal, from, until) == ReplayAll(l, hist[marks[from]..marks[until]])
    decreases until
  {
    if until == from {
      assert hist[marks[from]..marks[from]] == [];
    } else {
      SegmentsAre(c, l, hist, marks, wal, from, until - 1);
      assert Holds(c, hist, marks, wal, until - 1);
      OneMore(l, hist, marks[from], marks[until - 1], marks[until]);
    }
  }

  lemma OneMore(l: Store, hist: seq<Mutation>, a: nat, b: nat, c: nat)
    requires a <= b <= c <= |hist|
    ensures ReplayAll(ReplayAll(l, hist[a..b]), hist[b..c]) == ReplayAll(l, hist[a..c])
  {
    Ranges(hist, a, b, c);
    ReplayAllConcat(l, hist[a..b], hist[b..c]);
  }

  lemma Ranges<T>(s: seq<T>, a: nat, b: nat, c: nat)
    requires a <= b <= c <= |s|
    ensures s[a..b] + s[b..c] == s[a..c]
  {
  }

  ghost predicate SameBelow(wal: map<nat, seq<Byte>>, wal': map<nat, seq<Byte>>, until: nat) {
    forall g :: 0 <= g < until ==> (g in wal <==> g in wal') && (g in wal ==> wal[g] == wal'[g])
  }

  lemma {:induction false} SegmentsSame(
    c: Codec, l: Store, wal: map<nat, seq<Byte>>, wal': map<nat, seq<Byte>>, from: nat, until: nat)
    requires SameBelow(wal, wal', until)
    ensures ReplaySegments(c, l, wal, from, until) == ReplaySegments(c, l, wal', from, until)
    decreases until
  {
    if from < until { SegmentsSame(c, l, wal, wal', from, until - 1); }
  }

  lemma {:induction false} SegmentsSplit(c: Codec, l: Store, wal: map<nat, seq<Byte>>, from: nat, mid: nat, until: nat)
    requires from <= mid <= until
    ensures ReplaySegments(c, l, wal, from, until) ==
            ReplaySegments(c, ReplaySegments(c, l, wal, from, mid), wal, mid, until)
    decreases until
  {
    if mid < until { SegmentsSplit(c, l, wal, from, mid, until - 1); }
  }

  /** After a cut, the log from `from` on reads back as the history up to the
      last record that survived. */
  lemma CutReads(c: Codec, s: State, cut: nat, from: nat)
    requires Sound(c)
    requires Shape(s) && AllFit(c, s.hist) && s.Current() == c.segment(s.Tail()) && cut <= |s.Current()|
    requires from <= s.gen && Covers(c, s.hist, s.Marks(), s.disk.wal, from, s.gen)
    ensures s.low[from] <= Survivors(c, s, cut) <= s.drained
    ensures Covers(c, s.hist, s.low + [Survivors(c, s, cut)], CutDisk(s, cut).wal, from, s.gen + 1)
  {
    var n, marks, wal := Survivors(c, s, cut), s.low + [Survivors(c, s, cut)], CutDisk(s, cut).wal;
    TailFits(c, s);
    assert c.whole(s.Tail(), cut) <= |s.Tail()|;
    assert s.Tail()[..n - s.low[s.gen]] == s.hist[s.low[s.gen]..n];
    forall g | from <= g < s.gen + 1 ensures Holds(c, s.hist, marks, wal, g) {
      if g < s.gen { HoldsStill(c, s.hist, s.Marks(), s.disk.wal, marks, wal, g); }
    }
  }

  lemma HoldsStill(c: Codec, hist: seq<Mutation>, marks: seq<nat>, wal: map<nat, seq<Byte>>,
                   marks': seq<nat>, wal': map<nat, seq<Byte>>, g: nat)
    requires Holds(c, hist, marks, wal, g)
    requires g + 1 < |marks'| && marks'[g] == marks[g] && marks'[g + 1] == marks[g + 1]
    requires (g in wal <==> g in wal') && (g in wal ==> wal[g] == wal'[g])
    ensures Holds(c, hist, marks', wal', g)
  {
  }

  lemma TailFits(c: Codec, s: State)
    requires AllFit(c, s.hist)
    ensures AllFit(c, s.Tail())
  {
  }

  lemma TopsAfterCut(s: State, cut: nat)
    requires Shape(s) && cut <= |s.Current()|
    ensures Top(CutDisk(s, cut).wal.Keys) == s.gen
    ensures Top(CutDisk(s, cut).snaps.Keys) == Top(s.disk.snaps.Keys)
    ensures Top(s.disk.snaps.Keys) <= From(s) <= s.gen
  {
    assert CutDisk(s, cut).wal.Keys == s.disk.wal.Keys;
    assert IsTop(s.disk.wal.Keys, s.gen);
  }

  lemma RecoveredIs(c: Codec, s: State, cut: nat, from: nat, root: Store, n: nat)
    requires Sound(c) && Inv(c, s) && cut <= |s.Current()|
    requires from == From(s) && root == Root(c, s) && n == Survivors(c, s, cut)
    ensures s.low[from] <= n <= s.drained
    ensures Recovered(c, CutDisk(s, cut)) == ReplayAll(root, s.hist[s.low[from]..n])
  {
    var d, marks, p := CutDisk(s, cut), s.low + [n], Top(s.disk.snaps.Keys);
    TopsAfterCut(s, cut);
    CutReads(c, s, cut, from);
    SegmentsSplit(c, Loaded(d), d.wal, p, from, s.gen + 1);
    SegmentsSame(c, Loaded(d), s.disk.wal, d.wal, p, from);
    SegmentsAre(c, root, s.hist, marks, d.wal, from, s.gen + 1);
    assert marks[from] == s.low[from] && marks[s.gen + 1] == n;
  }

  /** Cut at any byte: if the surviving records reach the newest snapshot's
      capture, recovery gives exactly the store after the last of them. */
  lemma CrashRecovers(c: Codec, s: State, cut: nat)
    requires Sound(c)
    requires Inv(c, s) && cut <= |s.Current()| && s.reach <= Survivors(c, s, cut)
    ensures Survivors(c, s, cut) <= s.drained
    ensures Recovered(c, CutDisk(s, cut)) == LiveAll(s.base, s.hist[..Survivors(c, s, cut)])
  {
    var from, root, n := From(s), Root(c, s), Survivors(c, s, cut);
    RecoveredIs(c, s, cut, from, root, n);
    FuzzyReplay(s.base, root, s.hist, s.low[from], s.reach, n);
  }

  /** Cut anywhere at all, each slot comes back as it was after the last surviving
      record or as the newest snapshot captured it. */
  lemma CrashKeepsSlots(c: Codec, s: State, cut: nat, k: Slot)
    requires Sound(c)
    requires Inv(c, s) && cut <= |s.Current()|
    ensures Survivors(c, s, cut) <= s.drained
    ensures var got := Lookup(Recovered(c, CutDisk(s, cut)), k);
            || got == At(s.base, s.hist, Survivors(c, s, cut), k)
            || got == Lookup(Root(c, s), k)
  {
    var from, root, n := From(s), Root(c, s), Survivors(c, s, cut);
    RecoveredIs(c, s, cut, from, root, n);
    assert CapturedIn(s.base, root, s.hist, s.low[from], s.reach, k);
    var t :| s.low[from] <= t <= s.reach && Lookup(root, k) == At(s.base, s.hist, t, k);
    NothingElse(s.base, root, s.hist, s.low[from], t, n, k);
  }

  // ---------- steps ----------

  lemma HoldsPrefix(c: Codec, h: seq<Mutation>, h': seq<Mutation>, marks: seq<nat>, wal: map<nat, seq<Byte>>, g: nat)
    requires h <= h' && Holds(c, h, marks, wal, g)
    ensures Holds(c, h', marks, wal, g)
  {
    assert h[marks[g]..marks[g + 1]] == h'[marks[g]..marks[g + 1]];
  }

  lemma FuzzyPrefix(b: Store, s: Store, h: seq<Mutation>, h': seq<Mutation>, r: nat, e: nat)
    requires h <= h' && r <= e <= |h| && Fuzzy(b, s, h, r, e)
    ensures Fuzzy(b, s, h', r, e)
  {
    forall k ensures CapturedIn(b, s, h', r, e, k) {
      assert CapturedIn(b, s, h, r, e, k);
      var t :| r <= t <= e && Lookup(s, k) == At(b, h, t, k);
      assert h[..t] == h'[..t];
      assert Lookup(s, k) == At(b, h', t, k);
    }
  }

  lemma LivePush(b: Store, h: seq<Mutation>, m: Mutation)
    ensures LiveAll(b, h + [m]) == Live(LiveAll(b, h), m)
  {
    assert (h + [m])[..|h|] == h;
  }

  lemma MutateKeeps(c: Codec, s: State, m: Mutation)
    requires Inv(c, s) && Enabled(c, s, Mutate(m))
    ensures Inv(c, Next(c, s, Mutate(m)))
  {
    LivePush(s.base, s.hist, m);
    LongerKeeps(c, s, s.hist + [m], Live(s.live, m));
  }

  lemma LongerKeeps(c: Codec, s: State, h: seq<Mutation>, live: Store)
    requires Inv(c, s) && s.hist <= h && Ordered(s.base, h) && AllFit(c, h) && live == LiveAll(s.base, h)
    ensures Inv(c, s.(hist := h, live := live))
  {
    var from, s' := From(s), s.(hist := h, live := live);
    FuzzyPrefix(s.base, Root(c, s), s.hist, h, s.low[from], s.reach);
    forall g | from <= g < s.gen ensures Holds(c, h, s'.Marks(), s.disk.wal, g) {
      HoldsPrefix(c, s.hist, h, s.Marks(), s.disk.wal, g);
    }
    assert h[s.low[s.gen]..s.drained] == s.hist[s.low[s.gen]..s.drained];
  }

  /** A change of the log at or above the current segment leaves the rest as it was. */
  lemma LogMoves(c: Codec, s: State, wal: map<nat, seq<Byte>>, marks: seq<nat>, until: nat)
    requires Shape(s) && From(s) <= until <= s.gen + 1 && until < |marks|
    requires Covers(c, s.hist, s.Marks(), s.disk.wal, From(s), until)
    requires forall g :: 0 <= g <= until ==> marks[g] == s.Marks()[g]
    requires SameBelow(s.disk.wal, wal, until)
    ensures Covers(c, s.hist, marks, wal, From(s), until)
    ensures Root(c, s.(disk := s.disk.(wal := wal))) == Root(c, s)
  {
    forall g | From(s) <= g < until ensures Holds(c, s.hist, marks, wal, g) {
      HoldsStill(c, s.hist, s.Marks(), s.disk.wal, marks, wal, g);
    }
    assert SameBelow(s.disk.wal, wal, From(s));
    SegmentsSame(c, Loaded(s.disk), s.disk.wal, wal, Top(s.disk.snaps.Keys), From(s));
  }

  lemma DrainKeeps(c: Codec, s: State)
    requires Sound(c)
    requires Inv(c, s) && Enabled(c, s, Drain)
    ensures Inv(c, Next(c, s, Drain))
  {
    assert c.segment(s.Tail() + [s.hist[s.drained]]) == c.segment(s.Tail()) + c.frame(s.hist[s.drained]);
    AppendKeeps(c, s, c.frame(s.hist[s.drained]));
  }

  lemma AppendKeeps(c: Codec, s: State, frame: seq<Byte>)
    requires Inv(c, s) && s.drained < |s.hist|
    requires c.segment(s.Tail() + [s.hist[s.drained]]) == c.segment(s.Tail()) + frame
    ensures Inv(c, Append(s, frame))
  {
    var s' := Append(s, frame);
    assert s'.Tail() == s.Tail() + [s.hist[s.drained]];
    TopsAfterCut(s, 0);
    LogMoves(c, s, s'.disk.wal, s'.Marks(), s.gen);
    assert s'.disk.wal.Keys == s.disk.wal.Keys;
  }

  lemma FsyncKeeps(c: Codec, s: State)
    requires Inv(c, s)
    ensures Inv(c, Next(c, s, Fsync))
  {
  }

  /** Nothing is lost when nothing is cut. */
  lemma WholeTail(c: Codec, s: State)
    requires Sound(c) && Inv(c, s)
    ensures Survivors(c, s, |s.Current()|) == s.drained
    ensures Holds(c, s.hist, s.Marks(), s.disk.wal, s.gen)
  {
    var bytes := s.Current();
    TailFits(c, s);
    assert c.whole(s.Tail(), |bytes|) == |s.Tail()|;
    assert bytes[..|bytes|] == bytes && s.Tail()[..|s.Tail()|] == s.Tail();
  }

  lemma OpenShape(s: State)
    requires Shape(s)
    ensures Shape(Open(s)) && From(Open(s)) == From(s)
  {
  }

  /** A new segment starts where the closed one ends. */
  lemma RollKeeps(c: Codec, s: State)
    requires Sound(c) && Inv(c, s)
    ensures Inv(c, Next(c, s, Roll))
  {
    var s' := Open(s);
    TopsAfterCut(s, 0);
    WholeTail(c, s);
    OpenShape(s);
    LogMoves(c, s, s'.disk.wal, s'.Marks(), s.gen + 1);
    assert s'.Tail() == [];
    assert Root(c, s') == Root(c, s) && s'.low[From(s)] == s.low[From(s)];
  }

  lemma InstallKeeps(c: Codec, s: State, snap: Store)
    requires Inv(c, s) && Enabled(c, s, Install(snap))
    ensures Inv(c, Next(c, s, Install(snap)))
  {
    var d := Next(c, s, Install(snap)).disk;
    assert IsTop(d.snaps.Keys, s.gen);
  }

  lemma DropKeeps(c: Codec, s: State, d: Disk)
    requires Inv(c, s) && s.gen in s.disk.snaps
    requires d.wal.Keys <= s.disk.wal.Keys && d.snaps.Keys <= s.disk.snaps.Keys
    requires s.gen in d.wal && s.gen in d.snaps
    requires d.wal[s.gen] == s.disk.wal[s.gen] && d.snaps[s.gen] == s.disk.snaps[s.gen]
    ensures Inv(c, s.(disk := d))
  {
    assert IsTop(s.disk.snaps.Keys, s.gen) && IsTop(d.snaps.Keys, s.gen);
  }

  /** A start on any disk whatever is sound: what it recovered is its base. */
  lemma RestartIsGood(c: Codec, d: Disk)
    requires Sound(c)
    ensures Inv(c, Restart(c, d))
  {
    var s, store := Restart(c, d), Recovered(c, d);
    var p, w := Top(d.snaps.Keys), Top(d.wal.Keys);
    assert IsTop(s.disk.wal.Keys, s.gen);
    assert s.Tail() == [] && From(s) == s.gen;
    SegmentsSame(c, Loaded(d), d.wal, s.disk.wal, p, s.gen);
    NoneAbove(c, Loaded(d), d.wal, p, w + 1, s.gen);
    forall k ensures CapturedIn(store, store, [], 0, 0, k) {
      AtFirst(store, [], k);
    }
  }

  /** Generations without a segment replay as nothing. */
  lemma {:induction false} NoneAbove(c: Codec, l: Store, wal: map<nat, seq<Byte>>, from: nat, mid: nat, until: nat)
    requires mid <= until && forall g :: mid <= g < until ==> g !in wal
    ensures ReplaySegments(c, l, wal, from, until) == ReplaySegments(c, l, wal, from, mid)
    decreases until
  {
    if mid < until { NoneAbove(c, l, wal, from, mid, until - 1); }
  }

  /** Every step keeps the invariant. */
  lemma StepKeeps(c: Codec, s: State, a: Action)
    requires Sound(c) && Inv(c, s) && Enabled(c, s, a)
    ensures Inv(c, Next(c, s, a))
  {
    match a
    case Mutate(m) => MutateKeeps(c, s, m);
    case Drain => DrainKeeps(c, s);
    case Fsync => FsyncKeeps(c, s);
    case Roll => RollKeeps(c, s);
    case Install(snap) => InstallKeeps(c, s, snap);
    case DropSegment(g) => DropKeeps(c, s, s.disk.(wal := s.disk.wal - {g}));
    case DropSnapshot(g) => DropKeeps(c, s, s.disk.(snaps := s.disk.snaps - {g}));
    case Crash(cut) => RestartIsGood(c, CutDisk(s, cut));
  }

  ghost predicate Steps(c: Codec, s: State, a: Action, t: State) {
    Enabled(c, s, a) && t == Next(c, s, a)
  }

  /** A run of the system through any number of restarts. */
  ghost predicate Run(c: Codec, states: seq<State>, actions: seq<Action>) {
    && |states| == |actions| + 1
    && states[0] == Restart(c, BLANK)
    && (forall i :: 0 <= i < |actions| ==> Steps(c, states[i], actions[i], states[i + 1]))
  }

  lemma {:induction false} RunKeeps(c: Codec, states: seq<State>, actions: seq<Action>, i: nat)
    requires Sound(c) && Run(c, states, actions) && i < |states|
    ensures Inv(c, states[i])
  {
    if i == 0 {
      RestartIsGood(c, BLANK);
    } else {
      var n := i - 1;
      RunKeeps(c, states, actions, n);
      assert Steps(c, states[n], actions[n], states[n + 1]);
      StepKeeps(c, states[n], actions[n]);
    }
  }

  /** At every point of every run, through any number of rolls, snapshots, prunes
      and restarts: the live store is the effect of the history since the restart on
      what that restart recovered; whatever byte a crash leaves of the unsynced
      tail, every synced record survives; if the survivors reach the newest
      snapshot's capture, the next restart rebuilds exactly the store after the last
      of them; and if not, each slot is as it was then or as it was captured. */
  lemma EveryCrashRecovers(crc: Crc, states: seq<State>, actions: seq<Action>, i: nat, cut: nat)
    requires Run(WalCodec(crc), states, actions) && i < |states|
    requires states[i].synced <= cut <= |states[i].Current()|
    ensures var s, c := states[i], WalCodec(crc);
            && s.live == LiveAll(s.base, s.hist)
            && s.gen < |s.low|
            && Survivors(c, s, s.synced) <= Survivors(c, s, cut) <= |s.hist|
            && (s.reach <= Survivors(c, s, cut) ==>
                  Recovered(c, CutDisk(s, cut)) == LiveAll(s.base, s.hist[..Survivors(c, s, cut)]))
            && (forall k ::
                  var got := Lookup(Recovered(c, CutDisk(s, cut)), k);
                  got == At(s.base, s.hist, Survivors(c, s, cut), k) || got == Lookup(Root(c, s), k))
  {
    var s, c := states[i], WalCodec(crc);
    WalIsSound(crc);
    RunKeeps(c, states, actions, i);
    TopsAfterCut(s, cut);
    CutReads(c, s, cut, From(s));
    assert c.whole(s.Tail(), s.synced) <= c.whole(s.Tail(), cut);
    if s.reach <= Survivors(c, s, cut) { CrashRecovers(c, s, cut); }
    forall k ensures var got := Lookup(Recovered(c, CutDisk(s, cut)), k);
                     got == At(s.base, s.hist, Survivors(c, s, cut), k) || got == Lookup(Root(c, s), k)
    {
      CrashKeepsSlots(c, s, cut, k);
    }
  }

  // ---------- across restarts ----------

  /** When the life that goes on at `i` began. */
  function Began(actions: seq<Action>, i: nat): (j: nat)
    requires i <= |actions|
    ensures j <= i
  {
    if i == 0 || actions[i - 1].Crash? then i else Began(actions, i - 1)
  }

  function MutatedIn(actions: seq<Action>, j: nat, i: nat): seq<Mutation>
    requires j <= i <= |actions|
  {
    if i == j then []
    else MutatedIn(actions, j, i - 1) + if actions[i - 1].Mutate? then [actions[i - 1].m] else []
  }

  lemma LivesOn(c: Codec, s: State, a: Action)
    requires Enabled(c, s, a) && !a.Crash?
    ensures Next(c, s, a).base == s.base
    ensures Next(c, s, a).hist == s.hist + if a.Mutate? then [a.m] else []
  {
  }

  /** `s.base` is what was recovered after step `j`. */
  ghost predicate Recovers(c: Codec, states: seq<State>, actions: seq<Action>, j: nat, s: State)
    requires j <= |actions| < |states|
  {
    if j == 0 then s.base == EMPTY
    else
      && actions[j - 1].Crash?
      && actions[j - 1].cut <= |states[j - 1].Current()|
      && s.base == Recovered(c, CutDisk(states[j - 1], actions[j - 1].cut))
  }

  lemma BlankIsEmpty(c: Codec)
    ensures Recovered(c, BLANK) == EMPTY
  {
    assert ReplaySegments(c, EMPTY, BLANK.wal, 0, 0) == EMPTY;
  }

  /** The base is what the last restart recovered, from whatever its crash left,
      and the history is every mutation since. */
  lemma {:induction false} SinceRestart(c: Codec, states: seq<State>, actions: seq<Action>, i: nat)
    requires Run(c, states, actions) && i < |states|
    ensures Recovers(c, states, actions, Began(actions, i), states[i])
    ensures states[i].hist == MutatedIn(actions, Began(actions, i), i)
  {
    if i == 0 {
      BlankIsEmpty(c);
    } else {
      var n := i - 1;
      assert Steps(c, states[n], actions[n], states[n + 1]);
      if !actions[n].Crash? {
        SinceRestart(c, states, actions, n);
        LivesOn(c, states[n], actions[n]);
      }
    }
  }

  /** What survived of all lives before the one that goes on at `i`. */
  ghost function Past(c: Codec, states: seq<State>, actions: seq<Action>, i: nat): seq<Mutation>
    requires i <= |actions| < |states|
  {
    if i == 0 then []
    else
      Past(c, states, actions, i - 1) +
      if actions[i - 1].Crash? then Kept(c, states[i - 1], actions[i - 1].cut) else []
  }

  ghost function Kept(c: Codec, s: State, cut: nat): seq<Mutation> {
    if s.gen < |s.low| && Survivors(c, s, cut) <= |s.hist| then s.hist[..Survivors(c, s, cut)] else []
  }

  /** The crash at `j`, if one, left the newest snapshot's capture whole. */
  ghost predicate Spares(c: Codec, s: State, a: Action) {
    a.Crash? && s.gen < |s.low| ==> s.reach <= Survivors(c, s, a.cut)
  }

  /** One step of the base, when the past so far is `past`. */
  lemma BaseStep(c: Codec, s: State, a: Action, past: seq<Mutation>)
    requires Sound(c) && Inv(c, s) && Enabled(c, s, a) && Spares(c, s, a) && s.base == LiveAll(EMPTY, past)
    ensures Next(c, s, a).base == LiveAll(EMPTY, past + if a.Crash? then Kept(c, s, a.cut) else [])
  {
    if a.Crash? {
      CrashRecovers(c, s, a.cut);
      LiveAllConcat(EMPTY, past, Kept(c, s, a.cut));
    } else {
      LivesOn(c, s, a);
      assert past + [] == past;
    }
  }

  lemma {:induction false} BaseOverTime(c: Codec, states: seq<State>, actions: seq<Action>, i: nat)
    requires Sound(c) && Run(c, states, actions) && i < |states|
    requires forall j :: 0 <= j < i ==> Spares(c, states[j], actions[j])
    ensures states[i].base == LiveAll(EMPTY, Past(c, states, actions, i))
  {
    if i == 0 {
      BlankIsEmpty(c);
    } else {
      var n := i - 1;
      BaseOverTime(c, states, actions, n);
      RunKeeps(c, states, actions, n);
      assert Steps(c, states[n], actions[n], states[n + 1]);
      BaseStep(c, states[n], actions[n], Past(c, states, actions, n));
    }
  }

  /** Through restarts that all leave the newest snapshot's capture whole, the live
      store is the effect of every mutation that was not lost, in order, from an
      empty store. */
  lemma WholeLife(crc: Crc, states: seq<State>, actions: seq<Action>, i: nat)
    requires Run(WalCodec(crc), states, actions) && i < |states|
    requires forall j :: 0 <= j < i ==> Spares(WalCodec(crc), states[j], actions[j])
    ensures states[i].live == LiveAll(EMPTY, Past(WalCodec(crc), states, actions, i) + states[i].hist)
  {
    var c := WalCodec(crc);
    WalIsSound(crc);
    BaseOverTime(c, states, actions, i);
    RunKeeps(c, states, actions, i);
    LiveAllConcat(EMPTY, Past(c, states, actions, i), states[i].hist);
  }

  // ---------- a store the system never had ----------

  const PUT_A := MapPut(0, 0, A.map_, A.key, [])
  const PUT_B := MapPut(0, 0, B.map_, B.key, [])
  const ONLY_B: Store := map[B := Cell([], 0)]

  lemma TwoPuts(h: seq<Mutation>)
    requires h == [PUT_A, PUT_B]
    ensures Ordered(EMPTY, [PUT_A]) && Ordered(EMPTY, h) && Fuzzy(EMPTY, ONLY_B, h, 0, 2)
  {
    AtFirst(EMPTY, h, A);
    AtFirst(EMPTY, h, B);
    AtNext(EMPTY, h, 0, B);
    AtNext(EMPTY, h, 1, B);
    forall k ensures CapturedIn(EMPTY, ONLY_B, h, 0, 2, k) {
      AtFirst(EMPTY, h, k);
      assert k == B ==> Lookup(ONLY_B, k) == At(EMPTY, h, 2, k);
      assert k != B ==> Lookup(ONLY_B, k) == At(EMPTY, h, 0, k);
    }
  }

  // Life before the crash: a roll, two puts, and a snapshot that passed the first
  // entry before its put and the second after.
  const L0 := State(EMPTY, 1, [], EMPTY, 0, 1, 0, Disk(map[1 := []], map[]), [0, 0], 0)
  const L1 := State(EMPTY, 1, [], EMPTY, 0, 2, 0, Disk(map[1 := [], 2 := []], map[]), [0, 0, 0], 0)
  const L2 := L1.(hist := [PUT_A], live := map[A := Cell([], 0)])
  const L3 := L1.(hist := [PUT_A, PUT_B], live := map[A := Cell([], 0), B := Cell([], 0)])
  const L4 := L3.(disk := Disk(map[1 := [], 2 := []], map[2 := ONLY_B]), reach := 2)

  lemma BootsAlive(c: Codec)
    ensures Restart(c, BLANK) == L0
  {
    BlankIsEmpty(c);
    assert seq(2, _ => 0) == [0, 0];
  }

  lemma Rolls(c: Codec)
    ensures Next(c, L0, Roll) == L1
  {
    assert [0, 0] + [0] == [0, 0, 0];
  }

  lemma PutsA(c: Codec)
    requires c.fits(PUT_A)
    ensures Enabled(c, L1, Mutate(PUT_A)) && Next(c, L1, Mutate(PUT_A)) == L2
  {
    TwoPuts([PUT_A, PUT_B]);
    assert [] + [PUT_A] == [PUT_A] && EMPTY[A := Cell([], 0)] == map[A := Cell([], 0)];
  }

  lemma PutsB(c: Codec)
    requires c.fits(PUT_B)
    ensures Enabled(c, L2, Mutate(PUT_B)) && Next(c, L2, Mutate(PUT_B)) == L3
  {
    TwoPuts([PUT_A, PUT_B]);
    assert [PUT_A] + [PUT_B] == [PUT_A, PUT_B];
  }

  lemma Snaps(c: Codec)
    ensures Enabled(c, L3, Install(ONLY_B)) && Next(c, L3, Install(ONLY_B)) == L4
  {
    TwoPuts([PUT_A, PUT_B]);
  }

  lemma DiesAndRises(c: Codec)
    requires Sound(c)
    ensures Enabled(c, L4, Crash(0)) && Next(c, L4, Crash(0)).live == ONLY_B
  {
    var d := CutDisk(L4, 0);
    assert IsTop(d.wal.Keys, 2) && IsTop(d.snaps.Keys, 2);
    assert c.segment([])[..0] == [];
    assert c.read([]) == [];
    assert ReplaySegments(c, ONLY_B, d.wal, 2, 2) == ONLY_B;
    assert ReplaySegments(c, ONLY_B, d.wal, 2, 3) == ReplayFile(c, ONLY_B, d.wal, 2);
  }

  lemma PutsFit(crc: Crc)
    ensures WalCodec(crc).fits(PUT_A) && WalCodec(crc).fits(PUT_B)
  {
    assert Fits(PUT_A) && Fits(PUT_B);
  }

  lemma RunOn(c: Codec, states: seq<State>, actions: seq<Action>, s: State, a: Action, t: State)
    requires Run(c, states, actions) && states[|actions|] == s && Steps(c, s, a, t)
    ensures Run(c, states + [t], actions + [a])
  {
    var states', actions' := states + [t], actions + [a];
    forall i | 0 <= i < |actions'| ensures Steps(c, states'[i], actions'[i], states'[i + 1]) {
      if i < |actions| {
        assert Steps(c, states[i], actions[i], states[i + 1]);
      }
    }
  }

  ghost predicate Unlike(states: seq<State>, store: Store) {
    forall i :: 0 <= i < |states| ==> states[i].live != store
  }

  lemma UnlikeOn(states: seq<State>, store: Store, t: State)
    requires Unlike(states, store) && t.live != store
    ensures Unlike(states + [t], store)
  {
  }

  lemma LifeSteps(c: Codec)
    requires c.fits(PUT_A) && c.fits(PUT_B)
    ensures Steps(c, L0, Roll, L1) && Steps(c, L1, Mutate(PUT_A), L2)
    ensures Steps(c, L2, Mutate(PUT_B), L3) && Steps(c, L3, Install(ONLY_B), L4)
  {
    Rolls(c);
    PutsA(c);
    PutsB(c);
    Snaps(c);
  }

  lemma LivesDiffer()
    ensures L0.live != ONLY_B && L1.live != ONLY_B && L2.live != ONLY_B && L3.live != ONLY_B && L4.live != ONLY_B
  {
    assert A in L3.live && A in L2.live && A !in ONLY_B && B in ONLY_B;
  }

  lemma Grow(c: Codec, store: Store, states: seq<State>, actions: seq<Action>, s: State, a: Action, t: State)
    returns (states': seq<State>, actions': seq<Action>)
    requires Run(c, states, actions) && states[|actions|] == s && Steps(c, s, a, t)
    requires Unlike(states, store) && t.live != store
    ensures Run(c, states', actions') && states'[|actions'|] == t && Unlike(states', store)
  {
    states', actions' := states + [t], actions + [a];
    RunOn(c, states, actions, s, a, t);
    UnlikeOn(states, store, t);
  }

  lemma LifeAndDeath(c: Codec) returns (states: seq<State>, actions: seq<Action>)
    requires Sound(c) && c.fits(PUT_A) && c.fits(PUT_B)
    ensures Run(c, states, actions) && states[|actions|] == L4 && Unlike(states, ONLY_B)
  {
    BootsAlive(c);
    LifeSteps(c);
    LivesDiffer();
    states, actions := [L0], [];
    states, actions := Grow(c, ONLY_B, states, actions, L0, Roll, L1);
    states, actions := Grow(c, ONLY_B, states, actions, L1, Mutate(PUT_A), L2);
    states, actions := Grow(c, ONLY_B, states, actions, L2, Mutate(PUT_B), L3);
    states, actions := Grow(c, ONLY_B, states, actions, L3, Install(ONLY_B), L4);
  }

  /** Cut before the end of the capture, a restart can give a store the system never
      had: here the second of two puts without the first. */
  lemma NeverHad(crc: Crc) returns (states: seq<State>, actions: seq<Action>)
    ensures Run(WalCodec(crc), states, actions) && actions != [] && actions[|actions| - 1].Crash?
    ensures Unlike(states[..|actions|], states[|actions|].live)
  {
    var c := WalCodec(crc);
    WalIsSound(crc);
    PutsFit(crc);
    DiesAndRises(c);
    states, actions := LifeAndDeath(c);
    var t := Next(c, L4, Crash(0));
    RunOn(c, states, actions, L4, Crash(0), t);
    assert (states + [t])[..|actions| + 1] == states;
    states, actions := states + [t], actions + [Crash(0)];
  }
}
