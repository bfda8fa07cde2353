/** The walk over frame headers with the offsets a 64-bit machine computes, where a
    length with the sign bit set is a huge number and the sum wraps around
    (crates/protocol/src/frame.rs, message_len). */
module FrameWalk {
  import opened Basics
  import opened Bytes
  import opened Frames

  const WORD32 := 0x1_0000_0000
  const WORD64 := 0x1_0000_0000_0000_0000

  datatype Walk = At(off: nat) | Stopped(len: Option<nat>)

  /** The length field at `off`, widened with its sign. */
  function Length(b: seq<Byte>, off: nat): nat
    requires off + PREFIX <= |b|
  {
    var raw := FromLe(b[off..off + 4]);
    if raw < I32 then raw else raw + (WORD64 - WORD32)
  }

  predicate IsFinal(b: seq<Byte>, off: nat)
    requires off + PREFIX <= |b|
  {
    TwoBytes(b[off + 4..off + 6]);
    Has(FromLe(b[off + 4..off + 6]), FINAL)
  }

  /** One turn of the loop. */
  function Turn(b: seq<Byte>, off: nat): Walk {
    if |b| < off + PREFIX then Stopped(None)
    else
      var len := Length(b, off);
      var end := (off + len) % WORD64;
      if len < PREFIX || |b| < end then Stopped(None)
      else if IsFinal(b, off) then Stopped(Some(end))
      else At(end)
  }

  function After(b: seq<Byte>, off: nat, n: nat): Walk {
    if n == 0 then At(off)
    else match After(b, off, n - 1)
      case At(o) => Turn(b, o)
      case Stopped(r) => Stopped(r)
  }

  lemma {:induction false} TurnFirst(b: seq<Byte>, off: nat, n: nat)
    requires Turn(b, off).At?
    ensures After(b, off, n + 1) == After(b, Turn(b, off).off, n)
  {
    if n > 0 { TurnFirst(b, off, n - 1); }
  }

  /** A header past the start whose length takes the offset back. */
  predicate Back(b: seq<Byte>, off: nat) {
    off + PREFIX <= |b| && off + Length(b, off) >= WORD64
  }

  /** No header met on the way from `off` takes the offset back. */
  predicate Forward(b: seq<Byte>, off: nat)
    decreases |b| - off
  {
    !Back(b, off) &&
    (|b| < off + PREFIX || Length(b, off) < PREFIX || |b| < off + Length(b, off) || IsFinal(b, off) ||
     Forward(b, off + Length(b, off)))
  }

  function Answer(b: seq<Byte>, off: nat): Option<nat>
    requires off <= |b|
  {
    match ReadMessage(b[off..])
    case More => None
    case Message(_, used) => Some(off + used)
  }

  const I64: nat := 0x8000_0000_0000_0000

  /** What the reader makes of one header. */
  lemma ReadAt(b: seq<Byte>, off: nat)
    requires off + PREFIX <= |b| < I64
    ensures var o, len := ReadFrame(b[off..]), Length(b, off);
            && (o.One? <==> PREFIX <= len && off + len <= |b|)
            && (o.One? ==> o.len == len && (Has(o.frame.flags, FINAL) <==> IsFinal(b, off)))
  {
    var rest := b[off..];
    assert rest[0..4] == b[off..off + 4] && rest[4..6] == b[off + 4..off + 6];
    TwoBytes(rest[4..6]);
  }

  lemma EndOf(b: seq<Byte>, off: nat)
    requires off + PREFIX <= |b| && !Back(b, off)
    ensures (off + Length(b, off)) % WORD64 == off + Length(b, off)
  {
  }

  lemma TurnIs(b: seq<Byte>, off: nat)
    requires off + PREFIX <= |b| && !Back(b, off)
    ensures var len := Length(b, off);
            Turn(b, off) == if len < PREFIX || |b| < off + len then Stopped(None)
                            else if IsFinal(b, off) then Stopped(Some(off + len)) else At(off + len)
  {
    EndOf(b, off);
  }

  /** One turn leaves the reader's answer as it was. */
  lemma AnswerStep(b: seq<Byte>, off: nat)
    requires off <= |b| < I64 && !Back(b, off)
    ensures match Turn(b, off)
            case At(end) => off < end <= |b| && end == off + Length(b, off) && Answer(b, off) == Answer(b, end)
            case Stopped(r) => Answer(b, off) == r
  {
    if off + PREFIX <= |b| {
      var len := Length(b, off);
      ReadAt(b, off);
      TurnIs(b, off);
      if PREFIX <= len && off + len <= |b| { assert b[off..][len..] == b[off + len..]; }
    }
  }

  /** As long as no length takes the offset back, the walk ends with what the reader
      answers. */
  lemma {:induction false} ForwardAgrees(b: seq<Byte>, off: nat) returns (n: nat)
    requires off <= |b| < I64 && Forward(b, off)
    ensures After(b, off, n) == Stopped(Answer(b, off))
    decreases |b| - off
  {
    AnswerStep(b, off);
    if Turn(b, off).At? {
      n := ForwardAgrees(b, Turn(b, off).off);
      TurnFirst(b, off, n);
      n := n + 1;
    } else {
      n := 1;
      assert After(b, off, 0) == At(off);
    }
  }

  /** Otherwise the walk comes to a header that takes it back. */
  lemma {:induction false} BackwardTurns(b: seq<Byte>, off: nat) returns (n: nat, o: nat)
    requires off <= |b| < I64 && !Forward(b, off)
    ensures After(b, off, n) == At(o) && Back(b, o)
    decreases |b| - off
  {
    if Back(b, off) {
      n, o := 0, off;
    } else {
      AnswerStep(b, off);
      n, o := BackwardTurns(b, Turn(b, off).off);
      TurnFirst(b, off, n);
      n := n + 1;
    }
  }

  /** A frame of six bytes, then one whose length is minus six. */
  const THERE_AND_BACK: seq<Byte> := [6, 0, 0, 0, 0, 0, 250, 255, 255, 255, 0, 0]

  lemma ThereAndBack()
    ensures Turn(THERE_AND_BACK, 0) == At(6) && Turn(THERE_AND_BACK, 6) == At(0)
  {
    var b := THERE_AND_BACK;
    assert b[0..4] == [6, 0, 0, 0] && b[6..10] == [250, 255, 255, 255] && b[4..6] == [0, 0] && b[10..12] == [0, 0];
    Four(6, 0, 0, 0);
    Four(250, 255, 255, 255);
    assert [0, 0][1..] == [0] && [0][1..] == [] && FromLe([0]) == 0 && FromLe([0, 0]) == 0;
  }

  lemma Four(x: Byte, y: Byte, z: Byte, w: Byte)
    ensures FromLe([x, y, z, w]) == x + 256 * (y + 256 * (z + 256 * w))
  {
    assert [x, y, z, w][1..] == [y, z, w] && [y, z, w][1..] == [z, w] && [z, w][1..] == [w] && [w][1..] == [];
    assert FromLe([w]) == w && FromLe([z, w]) == z + 256 * w;
    assert FromLe([y, z, w]) == y + 256 * (z + 256 * w);
  }

  lemma {:induction false} Bounces(b: seq<Byte>, n: nat)
    requires Turn(b, 0) == At(6) && Turn(b, 6) == At(0)
    ensures After(b, 0, n) == At(if n % 2 == 0 then 0 else 6)
  {
    if n > 0 { Bounces(b, n - 1); }
  }

  /** The walk over those bytes never stops. */
  lemma NeverStops(n: nat)
    ensures After(THERE_AND_BACK, 0, n).At?
  {
    ThereAndBack();
    Bounces(THERE_AND_BACK, n);
  }
}
