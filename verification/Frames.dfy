/** The frame envelope (crates/protocol/src/frame.rs):
    `[length][flags][content]`, a message ending with its final frame. */
module Frames {
  import opened Bytes

  type Flags = f: nat | f < 0x10000

  datatype Frame = Frame(flags: Flags, content: seq<Byte>)

  const PREFIX := 6
  const I32: nat := 0x8000_0000
  const FINAL: nat := 0x2000
  const END: nat := 0x4000

  predicate Has(f: Flags, bit: nat)
    requires bit > 0
  {
    f / bit % 2 == 1
  }

  function Set(f: Flags): Flags {
    if Has(f, FINAL) then f else f + FINAL
  }

  function Clear(f: Flags): Flags {
    if Has(f, FINAL) then f - FINAL else f
  }

  /** Marking a frame final touches nothing else and can be undone. */
  lemma FinalBit(f: Flags)
    ensures Has(Set(f), FINAL) && !Has(Clear(f), FINAL)
    ensures Clear(Set(f)) == Clear(f)
    ensures Has(Set(f), END) == Has(f, END)
  {
  }

  // ---------- writing ----------

  function WriteFrame(f: Frame): seq<Byte> {
    Le(PREFIX + |f.content|, 4) + Le(f.flags, 2) + f.content
  }

  /** A message's frames as they travel: the last one marked final. */
  function Marked(fs: seq<Frame>): (out: seq<Frame>)
    ensures |out| == |fs|
    ensures forall i :: 0 <= i < |fs| ==>
              out[i] == if i == |fs| - 1 then Frame(Set(fs[i].flags), fs[i].content) else fs[i]
  {
    seq(|fs|, i requires 0 <= i < |fs| => if i == |fs| - 1 then Frame(Set(fs[i].flags), fs[i].content) else fs[i])
  }

  function WriteAll(fs: seq<Frame>): seq<Byte> {
    if fs == [] then [] else WriteFrame(fs[0]) + WriteAll(fs[1..])
  }

  function WriteMessage(fs: seq<Frame>): seq<Byte> {
    WriteAll(Marked(fs))
  }

  // ---------- reading ----------

  datatype Message = More | Message(frames: seq<Frame>, used: nat)

  datatype One = NotYet | One(frame: Frame, len: nat)

  /** The first frame, if it is all there. */
  function ReadFrame(b: seq<Byte>): (o: One)
    ensures o.One? ==> PREFIX <= o.len <= |b|
  {
    if |b| < PREFIX then NotYet
    else
      var len := FromLe(b[0..4]);
      var flags := FromLe(b[4..6]);
      if len < PREFIX || len >= I32 || len > |b| || flags >= 0x10000 then NotYet
      else One(Frame(flags, b[PREFIX..len]), len)
  }

  /** Frames up to the first final one. */
  function ReadMessage(b: seq<Byte>): (m: Message)
    ensures m.Message? ==> m.frames != [] && m.used <= |b|
    decreases |b|
  {
    match ReadFrame(b)
    case NotYet => More
    case One(f, len) =>
      if Has(f.flags, FINAL) then Message([f], len)
      else match ReadMessage(b[len..])
        case More => More
        case Message(fs, used) => Message([f] + fs, len + used)
  }

  /** The bytes of the first message, walking frame headers only. */
  method MessageLen(b: seq<Byte>) returns (found: bool, n: nat)
    ensures found == ReadMessage(b).Message?
    ensures found ==> n == ReadMessage(b).used
  {
    var off := 0;
    while true
      invariant off <= |b|
      invariant ReadMessage(b).Message? <==> ReadMessage(b[off..]).Message?
      invariant ReadMessage(b).Message? ==> ReadMessage(b).used == off + ReadMessage(b[off..]).used
      decreases |b| - off
    {
      var rest := b[off..];
      if |rest| < PREFIX { return false, 0; }
      var len, flags := FromLe(rest[0..4]), FromLe(rest[4..6]);
      TwoBytes(rest[4..6]);
      if len < PREFIX || len >= I32 || len > |rest| { return false, 0; }
      assert rest[len..] == b[off + len..];
      off := off + len;
      if Has(flags, FINAL) { return true, off; }
    }
  }

  /** Parse one message, frame by frame. */
  method ParseMessage(b: seq<Byte>) returns (m: Message)
    ensures m == ReadMessage(b)
  {
    var fs: seq<Frame> := [];
    var rest := b;
    while true
      invariant ReadMessage(b).More? <==> ReadMessage(rest).More?
      invariant ReadMessage(b).Message? ==> ReadMessage(b).frames == fs + ReadMessage(rest).frames
      invariant |rest| <= |b|
      invariant ReadMessage(b).Message? ==> ReadMessage(b).used == |b| - |rest| + ReadMessage(rest).used
      decreases |rest|
    {
      var o := ReadFrame(rest);
      if o.NotYet? { return More; }
      fs := fs + [o.frame];
      if Has(o.frame.flags, FINAL) { return Message(fs, |b| - |rest| + o.len); }
      rest := rest[o.len..];
    }
  }

  lemma {:induction false} WriteAllGrows(fs: seq<Frame>, f: Frame)
    ensures WriteAll(fs + [f]) == WriteAll(fs) + WriteFrame(f)
    decreases |fs|
  {
    if fs == [] {
      assert [] + [f] == [f] && [f][1..] == [];
    } else {
      WriteAllGrows(fs[1..], f);
      assert (fs + [f])[1..] == fs[1..] + [f];
      Regroup(WriteFrame(fs[0]), WriteAll(fs[1..]), WriteFrame(f));
    }
  }

  lemma Regroup(a: seq<Byte>, b: seq<Byte>, c: seq<Byte>)
    ensures a + (b + c) == a + b + c
  {
  }

  /** Serialize a message, marking its last frame. */
  method SerializeMessage(fs: seq<Frame>) returns (out: seq<Byte>)
    ensures out == WriteMessage(fs)
  {
    out := [];
    var i := 0;
    while i < |fs|
      invariant 0 <= i <= |fs|
      invariant out == WriteAll(Marked(fs)[..i])
    {
      var flags := if i + 1 == |fs| then Set(fs[i].flags) else fs[i].flags;
      WriteAllGrows(Marked(fs)[..i], Marked(fs)[i]);
      assert Marked(fs)[..i] + [Marked(fs)[i]] == Marked(fs)[..i + 1];
      out := out + WriteFrame(Frame(flags, fs[i].content));
      i := i + 1;
    }
    assert Marked(fs)[..i] == Marked(fs);
  }

  lemma TwoBytes(s: seq<Byte>)
    requires |s| == 2
    ensures FromLe(s) < 0x10000
  {
    assert s[1..] == [s[1]] && [s[1]][1..] == [];
    assert FromLe([s[1]]) == s[1];
  }

  predicate Sized(f: Frame) {
    PREFIX + |f.content| < I32
  }

  lemma FrameRoundTrip(f: Frame, rest: seq<Byte>)
    requires Sized(f)
    ensures ReadFrame(WriteFrame(f) + rest) == One(f, |WriteFrame(f)|)
  {
    Le32(PREFIX + |f.content|);
    Le16(f.flags);
    Three(Le(PREFIX + |f.content|, 4), Le(f.flags, 2), f.content, rest);
  }

  lemma Three(a: seq<Byte>, b: seq<Byte>, c: seq<Byte>, rest: seq<Byte>)
    requires |a| == 4 && |b| == 2
    ensures var s := a + b + c + rest; s[0..4] == a && s[4..6] == b && s[6..6 + |c|] == c
  {
  }

  /** A frame not yet all there is not read. */
  lemma CutFrame(f: Frame, n: nat)
    requires Sized(f) && n < |WriteFrame(f)|
    ensures ReadFrame(WriteFrame(f)[..n]).NotYet?
  {
    var b := WriteFrame(f);
    FrameRoundTrip(f, []);
    assert b + [] == b;
    if n >= PREFIX { assert b[..n][0..4] == b[0..4]; }
  }

  /** A message not yet all there is not read. */
  lemma {:induction false} CutMessage(fs: seq<Frame>, n: nat)
    requires AllSized(fs) && NoneEarlier(fs) && n < |WriteAll(fs)|
    ensures ReadMessage(WriteAll(fs)[..n]).More?
    decreases |fs|
  {
    var f, tail := fs[0], fs[1..];
    var b := WriteFrame(f);
    if n < |b| {
      CutFrame(f, n);
      assert WriteAll(fs)[..n] == b[..n];
    } else {
      assert WriteAll(fs)[..n] == b + WriteAll(tail)[..n - |b|];
      ReadStep(f, WriteAll(tail)[..n - |b|]);
      if |fs| > 1 {
        assert !Has(fs[0].flags, FINAL);
        forall i | 0 <= i < |tail| - 1 ensures !Has(tail[i].flags, FINAL) { assert tail[i] == fs[i + 1]; }
        CutMessage(tail, n - |b|);
      }
    }
  }

  /** How many frames a reader takes: up to the first final one. */
  function Span(fs: seq<Frame>): (k: nat)
    ensures k <= |fs|
  {
    if fs == [] then 0 else if Has(fs[0].flags, FINAL) then 1 else 1 + Span(fs[1..])
  }

  ghost predicate AllSized(fs: seq<Frame>) {
    forall i :: 0 <= i < |fs| ==> Sized(fs[i])
  }

  ghost predicate AnyFinal(fs: seq<Frame>) {
    exists i :: 0 <= i < |fs| && Has(fs[i].flags, FINAL)
  }

  lemma ReadStep(f: Frame, tail: seq<Byte>)
    requires Sized(f)
    ensures ReadMessage(WriteFrame(f) + tail) ==
            if Has(f.flags, FINAL) then Message([f], |WriteFrame(f)|)
            else if ReadMessage(tail).More? then More
            else Message([f] + ReadMessage(tail).frames, |WriteFrame(f)| + ReadMessage(tail).used)
  {
    FrameRoundTrip(f, tail);
    assert (WriteFrame(f) + tail)[|WriteFrame(f)|..] == tail;
  }

  lemma TakeNext(fs: seq<Frame>, k: nat)
    requires fs != [] && k < |fs|
    ensures fs[..1 + k] == [fs[0]] + fs[1..][..k]
    ensures |WriteAll(fs[..1 + k])| == |WriteFrame(fs[0])| + |WriteAll(fs[1..][..k])|
  {
    assert fs[..1 + k][1..] == fs[1..][..k];
  }

  /** Reading a run of frames stops after the first final one. */
  lemma {:induction false} ReadAll(fs: seq<Frame>, rest: seq<Byte>)
    requires AllSized(fs) && AnyFinal(fs)
    ensures ReadMessage(WriteAll(fs) + rest) == Message(fs[..Span(fs)], |WriteAll(fs[..Span(fs)])|)
    decreases |fs|
  {
    var f, tail := fs[0], fs[1..];
    assert WriteAll(fs) + rest == WriteFrame(f) + (WriteAll(tail) + rest);
    ReadStep(f, WriteAll(tail) + rest);
    TakeNext(fs, Span(fs) - 1);
    if Has(f.flags, FINAL) {
      assert tail[..0] == [];
    } else {
      var i :| 0 <= i < |fs| && Has(fs[i].flags, FINAL);
      assert tail[i - 1] == fs[i];
      ReadAll(tail, rest);
    }
  }

  lemma {:induction false} SpanIsAll(fs: seq<Frame>)
    requires fs != [] && Has(fs[|fs| - 1].flags, FINAL)
    ensures Span(fs) == |fs| <==> forall i :: 0 <= i < |fs| - 1 ==> !Has(fs[i].flags, FINAL)
    decreases |fs|
  {
    if |fs| > 1 {
      var tail := fs[1..];
      SpanIsAll(tail);
      assert forall i :: 0 < i < |fs| ==> fs[i] == tail[i - 1];
      if forall i :: 0 <= i < |tail| - 1 ==> !Has(tail[i].flags, FINAL) {
        forall i | 0 < i < |fs| - 1 ensures !Has(fs[i].flags, FINAL) { assert fs[i] == tail[i - 1]; }
      }
      if forall i :: 0 <= i < |fs| - 1 ==> !Has(fs[i].flags, FINAL) {
        forall i | 0 <= i < |tail| - 1 ensures !Has(tail[i].flags, FINAL) { assert tail[i] == fs[i + 1]; }
      }
    }
  }

  predicate NoneEarlier(fs: seq<Frame>) {
    forall i :: 0 <= i < |fs| - 1 ==> !Has(fs[i].flags, FINAL)
  }

  lemma RunRoundTrip(fs: seq<Frame>, rest: seq<Byte>)
    requires fs != [] && AllSized(fs) && Has(fs[|fs| - 1].flags, FINAL)
    ensures ReadMessage(WriteAll(fs) + rest) == Message(fs, |WriteAll(fs)|) <==> NoneEarlier(fs)
  {
    ReadAll(fs, rest);
    SpanIsAll(fs);
    assert fs[..|fs|] == fs;
    assert |fs[..Span(fs)]| == Span(fs);
  }

  lemma MarkedKeeps(fs: seq<Frame>)
    requires fs != [] && AllSized(fs)
    ensures AllSized(Marked(fs)) && Has(Marked(fs)[|fs| - 1].flags, FINAL)
    ensures NoneEarlier(Marked(fs)) <==> NoneEarlier(fs)
  {
    var ms := Marked(fs);
    FinalBit(fs[|fs| - 1].flags);
    forall i | 0 <= i < |fs| ensures Sized(ms[i]) { assert Sized(fs[i]); }
    assert forall i :: 0 <= i < |fs| - 1 ==> ms[i] == fs[i];
    if NoneEarlier(ms) {
      forall i | 0 <= i < |fs| - 1 ensures !Has(fs[i].flags, FINAL) { assert !Has(ms[i].flags, FINAL); }
    }
  }

  /** A message reads back whole, taking exactly its own bytes, if and only if no
      frame before its last carries the final mark. */
  lemma MessageRoundTrip(fs: seq<Frame>, rest: seq<Byte>)
    requires fs != [] && AllSized(fs)
    ensures ReadMessage(WriteMessage(fs) + rest) == Message(Marked(fs), |WriteMessage(fs)|) <==> NoneEarlier(fs)
  {
    MarkedKeeps(fs);
    RunRoundTrip(Marked(fs), rest);
  }

  lemma WireNumbers()
    ensures Le(7, 4) == [7, 0, 0, 0] && Le(8, 4) == [8, 0, 0, 0]
    ensures Le(0x8000, 2) == [0x00, 0x80] && Le(0x2001, 2) == [0x01, 0x20]
  {
    assert Le(0, 1) == [0] && Le(0, 2) == [0, 0] && Le(0, 3) == [0, 0, 0];
    assert Le(0x80, 1) == [0x80] && Le(0x20, 1) == [0x20];
  }

  /** A message on the wire, byte for byte: lengths that count their own six bytes,
      the flags with the final mark on the last frame, and the contents. */
  lemma MessageOnTheWire(a: Byte, b: Byte, c: Byte)
    ensures WriteMessage([Frame(0x8000, [a]), Frame(1, [b, c])]) ==
            [7, 0, 0, 0, 0x00, 0x80, a] + [8, 0, 0, 0, 0x01, 0x20, b, c]
    ensures Has(0x4000, END) && !Has(0x8000 + 0x2000, END)
  {
    var fs := [Frame(0x8000, [a]), Frame(1, [b, c])];
    assert Marked(fs) == [Frame(0x8000, [a]), Frame(0x2001, [b, c])];
    WireNumbers();
    assert WriteFrame(Frame(0x8000, [a])) == [7, 0, 0, 0, 0x00, 0x80, a];
    assert WriteFrame(Frame(0x2001, [b, c])) == [8, 0, 0, 0, 0x01, 0x20, b, c];
    assert Marked(fs)[1..] == [Frame(0x2001, [b, c])] && Marked(fs)[1..][1..] == [];
    assert WriteAll([Frame(0x2001, [b, c])]) == WriteFrame(Frame(0x2001, [b, c])) + [];
  }

  /** A frame marked final before the last cuts the message short. */
  lemma EarlyFinalCuts(f: Frame, g: Frame, rest: seq<Byte>)
    requires Sized(f) && Sized(g) && Has(f.flags, FINAL)
    ensures ReadMessage(WriteMessage([f, g]) + rest) != Message(Marked([f, g]), |WriteMessage([f, g])|)
  {
    var fs := [f, g];
    assert !NoneEarlier(fs) by { assert Has(fs[0].flags, FINAL); }
    MessageRoundTrip(fs, rest);
  }
}
