/** Reassembly of fragmented messages (crates/protocol/src/fragment.rs): frames
    gathered by fragmentation id until the end fragment. */
module Reassembly {
  import opened Bytes
  import opened Frames

  type Partial = map<nat, seq<Frame>>

  /** A push yields nothing, a whole message, or, on a fragmentation frame too
      short to hold an id, a panic. */
  datatype Outcome = Nothing | Whole(bytes: seq<Byte>) | Panicked

  function Unmarked(fs: seq<Frame>): (out: seq<Frame>)
    ensures |out| == |fs|
    ensures forall i :: 0 <= i < |fs| ==> out[i] == Frame(Clear(fs[i].flags), fs[i].content)
  {
    seq(|fs|, i requires 0 <= i < |fs| => Frame(Clear(fs[i].flags), fs[i].content))
  }

  function Gathered(p: Partial, id: nat): seq<Frame> {
    if id in p then p[id] else []
  }

  /** Add the frames of one fragment; deliver and forget at the end. */
  function Gather(p: Partial, id: nat, end: bool, fs: seq<Frame>): (Partial, Outcome) {
    var full := Gathered(p, id) + fs;
    if end then (p - {id}, Whole(WriteMessage(full))) else (p[id := full], Nothing)
  }

  function PushFrames(p: Partial, fs: seq<Frame>): (Partial, Outcome)
    requires fs != []
  {
    if |fs[0].content| < 8 then (p, Panicked)
    else Gather(p, FromLe(fs[0].content[0..8]), Has(fs[0].flags, END), Unmarked(fs[1..]))
  }

  function PushBytes(p: Partial, b: seq<Byte>): (Partial, Outcome) {
    match ReadMessage(b)
    case More => (p, Nothing)
    case Message(fs, _) => PushFrames(p, fs)
  }

  class Reassembler {
    var partial: Partial

    constructor ()
      ensures partial == map[]
    {
      partial := map[];
    }

    /** Feed one fragment's bytes. */
    method Push(fragment: seq<Byte>) returns (out: Outcome)
      modifies this
      ensures (partial, out) == PushBytes(old(partial), fragment)
    {
      var m := ParseMessage(fragment);
      if m.More? { return Nothing; }
      var fs := m.frames;
      if |fs[0].content| < 8 { return Panicked; }
      var id := FromLe(fs[0].content[0..8]);
      var more := Strip(fs[1..]);
      var full := (if id in partial then partial[id] else []) + more;
      if Has(fs[0].flags, END) {
        partial := partial - {id};
        var bytes := SerializeMessage(full);
        out := Whole(bytes);
      } else {
        partial := partial[id := full];
        out := Nothing;
      }
    }
  }

  /** Frames without their final marks. */
  method Strip(fs: seq<Frame>) returns (out: seq<Frame>)
    ensures out == Unmarked(fs)
  {
    out := [];
    var i := 0;
    while i < |fs|
      invariant 0 <= i <= |fs|
      invariant out == Unmarked(fs)[..i]
    {
      out := out + [Frame(Clear(fs[i].flags), fs[i].content)];
      i := i + 1;
    }
  }

  // ---------- senders ----------

  /** One fragment: the flags of its fragmentation frame, and its frames. */
  datatype Part = Part(flags: Flags, frames: seq<Frame>)

  datatype Sending = Sending(id: nat, parts: seq<Part>)

  /** Frames a message can carry: only the last may have the final mark. */
  ghost predicate Plain(fs: seq<Frame>) {
    AllSized(fs) && NoneEarlier(fs)
  }

  /** Some fragments, of which exactly the last is marked as the end. */
  ghost predicate Proper(s: Sending) {
    && s.id < U64 && s.parts != []
    && (forall i :: 0 <= i < |s.parts| ==>
          && Plain([Frame(s.parts[i].flags, Le(s.id, 8))] + s.parts[i].frames)
          && (Has(s.parts[i].flags, END) <==> i == |s.parts| - 1))
  }

  function Wire(id: nat, part: Part): seq<Byte> {
    WriteMessage([Frame(part.flags, Le(id, 8))] + part.frames)
  }

  lemma UnmarkedMarked(fs: seq<Frame>)
    ensures Unmarked(Marked(fs)) == Unmarked(fs)
  {
    forall i | 0 <= i < |fs| ensures Unmarked(Marked(fs))[i] == Unmarked(fs)[i] {
      FinalBit(fs[i].flags);
    }
  }

  lemma MarkedTail(f: Frame, fs: seq<Frame>)
    ensures Marked([f] + fs)[1..] == Marked(fs)
    ensures Marked([f] + fs)[0] == if fs == [] then Frame(Set(f.flags), f.content) else f
  {
  }

  /** Pushing a fragment as it travels adds its own frames, unmarked, under its own id. */
  lemma PushPart(p: Partial, id: nat, part: Part)
    requires id < U64 && Plain([Frame(part.flags, Le(id, 8))] + part.frames)
    ensures PushBytes(p, Wire(id, part)) == Gather(p, id, Has(part.flags, END), Unmarked(part.frames))
  {
    var head := Frame(part.flags, Le(id, 8));
    var all := [head] + part.frames;
    MessageRoundTrip(all, []);
    assert WriteMessage(all) + [] == WriteMessage(all);
    MarkedTail(head, part.frames);
    UnmarkedMarked(part.frames);
    FinalBit(part.flags);
    Le64(id);
    assert Le(id, 8)[0..8] == Le(id, 8);
  }

  /** Bytes that are not yet a message change nothing; a message whose first frame is
      too short for an id, and no other, panics and changes nothing. */
  lemma PushOdd(p: Partial, fs: seq<Frame>, n: nat)
    requires fs != [] && Plain(fs)
    ensures n < |WriteMessage(fs)| ==> PushBytes(p, WriteMessage(fs)[..n]) == (p, Nothing)
    ensures PushBytes(p, WriteMessage(fs)).1.Panicked? <==> |fs[0].content| < 8
    ensures |fs[0].content| < 8 ==> PushBytes(p, WriteMessage(fs)).0 == p
  {
    MarkedKeeps(fs);
    if n < |WriteMessage(fs)| { CutMessage(Marked(fs), n); }
    MessageRoundTrip(fs, []);
    assert WriteMessage(fs) + [] == WriteMessage(fs);
  }

  // ---------- interleavings ----------

  /** Push number `t` carries the next fragment of sending `order[t]`. */
  datatype Stream = Stream(sendings: seq<Sending>, order: seq<nat>)

  /** How many fragments of sending `m` the first `n` pushes carried. */
  function Progress(order: seq<nat>, n: nat, m: nat): (k: nat)
    requires n <= |order|
    ensures k <= n
  {
    if n == 0 then 0 else Progress(order, n - 1, m) + if order[n - 1] == m then 1 else 0
  }

  predicate InFlight(s: Stream, n: nat, m: nat)
    requires n <= |s.order|
  {
    m < |s.sendings| && 0 < Progress(s.order, n, m) < |s.sendings[m].parts|
  }

  /** Every push carries a fragment that is left, of a sending whose id no other
      sending in flight has. */
  ghost predicate Orderly(s: Stream) {
    && (forall m :: 0 <= m < |s.sendings| ==> Proper(s.sendings[m]))
    && (forall n {:trigger s.order[n]} :: 0 <= n < |s.order| ==> Welcome(s, n))
  }

  ghost predicate Welcome(s: Stream, n: nat)
    requires n < |s.order|
  {
    var m := s.order[n];
    && m < |s.sendings|
    && Progress(s.order, n, m) < |s.sendings[m].parts|
    && (forall x: nat {:trigger InFlight(s, n, x)} ::
          InFlight(s, n, x) && x != m ==> s.sendings[x].id != s.sendings[m].id)
  }

  function PartAt(s: Stream, n: nat): Part
    requires n < |s.order| && s.order[n] < |s.sendings|
    requires Progress(s.order, n, s.order[n]) < |s.sendings[s.order[n]].parts|
  {
    s.sendings[s.order[n]].parts[Progress(s.order, n, s.order[n])]
  }

  ghost function PushAt(s: Stream, p: Partial, n: nat): (Partial, Outcome)
    requires n < |s.order| && Orderly(s)
  {
    assert s.order[n] == s.order[n];
    PushBytes(p, Wire(s.sendings[s.order[n]].id, PartAt(s, n)))
  }

  /** What is gathered after the first `n` pushes. */
  ghost function After(s: Stream, n: nat): Partial
    requires n <= |s.order| && Orderly(s)
  {
    if n == 0 then map[] else PushAt(s, After(s, n - 1), n - 1).0
  }

  /** The frames of some fragments, as gathered. */
  function Flat(parts: seq<Part>): seq<Frame> {
    if parts == [] then [] else Flat(parts[..|parts| - 1]) + Unmarked(parts[|parts| - 1].frames)
  }

  /** The frames of the fragments of `m` pushed so far. */
  function SoFar(s: Stream, n: nat, m: nat): seq<Frame>
    requires n <= |s.order| && m < |s.sendings|
  {
    var k := Progress(s.order, n, m);
    if k <= |s.sendings[m].parts| then Flat(s.sendings[m].parts[..k]) else []
  }

  /** Exactly the fragments in flight are gathered, each under its id. */
  ghost predicate Gathers(s: Stream, n: nat, p: Partial)
    requires n <= |s.order|
  {
    && (forall m: nat {:trigger InFlight(s, n, m)} ::
          InFlight(s, n, m) ==> Gathered(p, s.sendings[m].id) == SoFar(s, n, m))
    && (forall id :: Gathered(p, id) != [] ==> exists m: nat :: InFlight(s, n, m) && s.sendings[m].id == id)
  }

  lemma ProgressStep(order: seq<nat>, n: nat, m: nat)
    requires n < |order|
    ensures Progress(order, n + 1, m) == Progress(order, n, m) + if order[n] == m then 1 else 0
  {
  }

  lemma OthersStay(s: Stream, n: nat, x: nat)
    requires n < |s.order| && s.order[n] != x && x < |s.sendings|
    ensures InFlight(s, n + 1, x) <==> InFlight(s, n, x)
    ensures SoFar(s, n + 1, x) == SoFar(s, n, x)
  {
    ProgressStep(s.order, n, x);
  }

  /** Before a push, what its id has gathered is the sending's own frames. */
  lemma Own(s: Stream, n: nat, p: Partial)
    requires Orderly(s) && n < |s.order| && Gathers(s, n, p) && Welcome(s, n)
    ensures Gathered(p, s.sendings[s.order[n]].id) == SoFar(s, n, s.order[n])
  {
    var m := s.order[n];
    var id := s.sendings[m].id;
    if Progress(s.order, n, m) > 0 {
      assert InFlight(s, n, m);
    } else {
      assert s.sendings[m].parts[..0] == [];
    }
  }

  lemma SoFarGrows(s: Stream, n: nat)
    requires Orderly(s) && n < |s.order| && Welcome(s, n)
    ensures SoFar(s, n + 1, s.order[n]) == SoFar(s, n, s.order[n]) + Unmarked(PartAt(s, n).frames)
  {
    var m := s.order[n];
    var parts, k := s.sendings[m].parts, Progress(s.order, n, m);
    ProgressStep(s.order, n, m);
    assert parts[..k + 1][..k] == parts[..k];
  }

  lemma StepGathers(s: Stream, n: nat, p: Partial, p': Partial, end: bool)
    requires Orderly(s) && n < |s.order| && Gathers(s, n, p) && Welcome(s, n)
    requires end <==> Progress(s.order, n, s.order[n]) == |s.sendings[s.order[n]].parts| - 1
    requires p' == Gather(p, s.sendings[s.order[n]].id, end, Unmarked(PartAt(s, n).frames)).0
    ensures Gathers(s, n + 1, p')
  {
    var m := s.order[n];
    var id := s.sendings[m].id;
    ProgressStep(s.order, n, m);
    Own(s, n, p);
    SoFarGrows(s, n);
    forall x: nat | InFlight(s, n + 1, x) ensures Gathered(p', s.sendings[x].id) == SoFar(s, n + 1, x) {
      if x != m {
        OthersStay(s, n, x);
        assert InFlight(s, n, x);
      }
    }
    forall i | Gathered(p', i) != [] ensures exists x: nat :: InFlight(s, n + 1, x) && s.sendings[x].id == i {
      if i == id {
        assert InFlight(s, n + 1, m);
      } else {
        assert Gathered(p, i) != [];
        var x: nat :| InFlight(s, n, x) && s.sendings[x].id == i;
        OthersStay(s, n, x);
      }
    }
  }

  lemma PushIs(s: Stream, n: nat, p: Partial)
    requires Orderly(s) && n < |s.order| && Welcome(s, n)
    ensures PushAt(s, p, n) == Gather(p, s.sendings[s.order[n]].id,
                                      Progress(s.order, n, s.order[n]) == |s.sendings[s.order[n]].parts| - 1,
                                      Unmarked(PartAt(s, n).frames))
  {
    var m := s.order[n];
    assert Proper(s.sendings[m]);
    PushPart(p, s.sendings[m].id, PartAt(s, n));
  }

  ghost predicate InStep(s: Stream, n: nat)
    requires Orderly(s) && n <= |s.order|
  {
    Gathers(s, n, After(s, n))
  }

  lemma {:induction false} AlwaysInStep(s: Stream, n: nat)
    requires Orderly(s) && n <= |s.order|
    ensures InStep(s, n)
    decreases n
  {
    if n == 0 {
      NothingYet(s, n);
    } else {
      AlwaysInStep(s, n - 1);
      NextInStep(s, n - 1, n);
    }
  }

  lemma NothingYet(s: Stream, n: nat)
    requires Orderly(s) && n == 0
    ensures InStep(s, n)
  {
  }

  lemma NextInStep(s: Stream, t: nat, n: nat)
    requires Orderly(s) && n == t + 1 <= |s.order| && InStep(s, t)
    ensures InStep(s, n)
  {
    var m, p := s.order[t], After(s, t);
    PushIs(s, t, p);
    StepGathers(s, t, p, After(s, n), Progress(s.order, t, m) == |s.sendings[m].parts| - 1);
  }

  /** For every interleaving of sendings with distinct ids in flight: the push of
      a last fragment returns exactly the bytes of its own whole message, and
      every other push returns nothing. */
  lemma EveryMessageWhole(s: Stream, n: nat)
    requires Orderly(s) && n < |s.order|
    ensures var m := s.order[n];
            && m < |s.sendings|
            && PushAt(s, After(s, n), n).1 ==
               if Progress(s.order, n, m) == |s.sendings[m].parts| - 1
               then Whole(WriteMessage(Flat(s.sendings[m].parts))) else Nothing
  {
    var m := s.order[n];
    assert Welcome(s, n);
    var parts := s.sendings[m].parts;
    AlwaysInStep(s, n);
    PushIs(s, n, After(s, n));
    Own(s, n, After(s, n));
    SoFarGrows(s, n);
    ProgressStep(s.order, n, m);
    assert parts[..|parts|] == parts;
  }

  lemma UnmarkedIsPlain(fs: seq<Frame>)
    requires AllSized(fs)
    ensures AllSized(Unmarked(fs)) && forall i :: 0 <= i < |fs| ==> !Has(Unmarked(fs)[i].flags, FINAL)
  {
    forall i | 0 <= i < |fs| ensures Sized(Unmarked(fs)[i]) && !Has(Unmarked(fs)[i].flags, FINAL) {
      assert Sized(fs[i]);
      FinalBit(fs[i].flags);
    }
  }

  lemma {:induction false} FlatPlain(parts: seq<Part>)
    requires forall i :: 0 <= i < |parts| ==> AllSized(parts[i].frames)
    ensures AllSized(Flat(parts)) && forall i :: 0 <= i < |Flat(parts)| ==> !Has(Flat(parts)[i].flags, FINAL)
    decreases |parts|
  {
    if parts != [] {
      FlatPlain(parts[..|parts| - 1]);
      UnmarkedIsPlain(parts[|parts| - 1].frames);
    }
  }

  lemma TailSized(f: Frame, fs: seq<Frame>)
    requires AllSized([f] + fs)
    ensures AllSized(fs)
  {
    var all := [f] + fs;
    assert forall j :: 0 <= j < |fs| ==> all[j + 1] == fs[j];
  }

  /** A delivered message reads back as its frames, taking all its bytes. */
  lemma DeliveredReads(s: Sending)
    requires Proper(s) && Flat(s.parts) != []
    ensures var b := WriteMessage(Flat(s.parts)); ReadMessage(b) == Message(Marked(Flat(s.parts)), |b|)
  {
    var fs := Flat(s.parts);
    forall i | 0 <= i < |s.parts| ensures AllSized(s.parts[i].frames) {
      TailSized(Frame(s.parts[i].flags, Le(s.id, 8)), s.parts[i].frames);
    }
    FlatPlain(s.parts);
    MessageRoundTrip(fs, []);
    assert WriteMessage(fs) + [] == WriteMessage(fs);
  }

  /** When only the last fragment's last frame may be marked, what is delivered is
      the message as it was before it was split. */
  lemma DeliveredIsOriginal(parts: seq<Part>, fs: seq<Frame>)
    requires fs == Raw(parts) && NoneEarlier(fs)
    ensures WriteMessage(Flat(parts)) == WriteMessage(fs)
  {
    FlatIsUnmarked(parts);
    forall i | 0 <= i < |fs| ensures Marked(Unmarked(fs))[i] == Marked(fs)[i] {
      UnmarkThenMark(fs[i].flags);
    }
    assert Marked(Unmarked(fs)) == Marked(fs);
  }

  lemma UnmarkThenMark(f: Flags)
    ensures Set(Clear(f)) == Set(f) && (!Has(f, FINAL) ==> Clear(f) == f)
  {
    FinalBit(f);
  }

  function Raw(parts: seq<Part>): seq<Frame> {
    if parts == [] then [] else Raw(parts[..|parts| - 1]) + parts[|parts| - 1].frames
  }

  lemma {:induction false} FlatIsUnmarked(parts: seq<Part>)
    ensures Flat(parts) == Unmarked(Raw(parts))
    decreases |parts|
  {
    if parts == [] {
      assert Raw(parts) == [];
    } else {
      FlatIsUnmarked(parts[..|parts| - 1]);
    }
  }
}
