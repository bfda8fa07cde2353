/** Little-endian integers and length-prefixed byte strings. */
module Bytes {

  type Byte = b: int | 0 <= b < 256

  /** The low `w` bytes of `x`; anything above is lost, as in a narrowing cast. */
  function Le(x: nat, w: nat): (s: seq<Byte>)
    ensures |s| == w
  {
    if w == 0 then [] else [x % 256] + Le(x / 256, w - 1)
  }

  function FromLe(s: seq<Byte>): nat {
    if s == [] then 0 else s[0] + 256 * FromLe(s[1..])
  }

  function Pow256(w: nat): nat {
    if w == 0 then 1 else 256 * Pow256(w - 1)
  }

  lemma {:induction false} LeRoundTrip(x: nat, w: nat)
    requires x < Pow256(w)
    ensures FromLe(Le(x, w)) == x
  {
    if w > 0 {
      LeRoundTrip(x / 256, w - 1);
      assert Le(x, w)[1..] == Le(x / 256, w - 1);
    }
  }

  const U32: nat := 0x1_0000_0000

  type Word = n: nat | n < U32
  const U64: nat := 0x1_0000_0000_0000_0000

  lemma Pow256Is()
    ensures Pow256(2) == 65536 && Pow256(4) == U32 && Pow256(8) == U64
  {
    assert Pow256(1) == 256 && Pow256(2) == 65536 && Pow256(3) == 16777216;
    assert Pow256(4) == U32;
    assert Pow256(5) == 256 * U32 && Pow256(6) == 65536 * U32 && Pow256(7) == 16777216 * U32;
  }

  lemma Le32(x: nat)
    requires x < U32
    ensures FromLe(Le(x, 4)) == x
  {
    Pow256Is();
    LeRoundTrip(x, 4);
  }

  lemma Le64(x: nat)
    requires x < U64
    ensures FromLe(Le(x, 8)) == x
  {
    Pow256Is();
    LeRoundTrip(x, 8);
  }

  lemma Le16(x: nat)
    requires x < 65536
    ensures FromLe(Le(x, 2)) == x
  {
    Pow256Is();
    LeRoundTrip(x, 2);
  }

  function Concat(parts: seq<seq<Byte>>): seq<Byte> {
    if parts == [] then [] else parts[0] + Concat(parts[1..])
  }

  lemma {:induction false} ConcatAppend(parts: seq<seq<Byte>>, last: seq<Byte>)
    ensures Concat(parts + [last]) == Concat(parts) + last
    decreases |parts|
  {
    if parts == [] {
      assert [] + [last] == [last] && [last][1..] == [];
    } else {
      ConcatAppend(parts[1..], last);
      assert (parts + [last])[1..] == parts[1..] + [last];
      assert parts[0] + (Concat(parts[1..]) + last) == parts[0] + Concat(parts[1..]) + last;
    }
  }

  /** A length-prefixed byte string. */
  function Prefixed(b: seq<Byte>): seq<Byte> {
    Le(|b|, 4) + b
  }

  datatype Read = Short | Got(bytes: seq<Byte>, next: nat)

  /** The length-prefixed byte string at `off`, if it is all there. */
  function ReadPrefixed(s: seq<Byte>, off: nat): Read {
    if off + 4 > |s| then Short
    else
      var n := FromLe(s[off..off + 4]);
      if off + 4 + n > |s| then Short else Got(s[off + 4..off + 4 + n], off + 4 + n)
  }

  lemma Piece(before: seq<Byte>, mid: seq<Byte>, after: seq<Byte>)
    ensures (before + mid + after)[|before|..|before| + |mid|] == mid
  {
  }

  lemma ReadsPrefixed(s: seq<Byte>, before: seq<Byte>, b: seq<Byte>, after: seq<Byte>)
    requires |b| < U32
    requires s == before + Prefixed(b) + after
    ensures ReadPrefixed(s, |before|) == Got(b, |before| + 4 + |b|)
  {
    var len := Le(|b|, 4);
    Le32(|b|);
    Piece(before, len, b + after);
    Piece(before + len, b, after);
    assert s == before + len + (b + after) == before + len + b + after;
  }

  /** Byte-wise lexicographic order. */
  predicate Lex(a: seq<Byte>, b: seq<Byte>) {
    b != [] && (a == [] || a[0] < b[0] || (a[0] == b[0] && Lex(a[1..], b[1..])))
  }

  lemma {:induction false} LexTotal(a: seq<Byte>, b: seq<Byte>)
    ensures Lex(a, b) || a == b || Lex(b, a)
    ensures !(Lex(a, b) && Lex(b, a)) && !(a == b && Lex(a, b))
    decreases |a|
  {
    if a != [] && b != [] && a[0] == b[0] {
      LexTotal(a[1..], b[1..]);
      assert a == [a[0]] + a[1..] && b == [b[0]] + b[1..];
    }
  }

  /** Alike below `k`, where `a` ends or has the smaller byte. */
  predicate LessAt(a: seq<Byte>, b: seq<Byte>, k: nat) {
    k <= |a| && k < |b| && a[..k] == b[..k] && (k == |a| || a[k] < b[k])
  }

  /** What the order means: at the first difference `a` ends or has the smaller byte. */
  lemma {:induction false} LexMeans(a: seq<Byte>, b: seq<Byte>)
    ensures Lex(a, b) <==> exists k: nat :: LessAt(a, b, k)
    decreases |a|
  {
    if a != [] && b != [] && a[0] == b[0] {
      var x, y := a[1..], b[1..];
      LexMeans(x, y);
      if Lex(a, b) {
        var k: nat :| LessAt(x, y, k);
        assert a[..k + 1] == [a[0]] + x[..k] && b[..k + 1] == [b[0]] + y[..k];
        assert LessAt(a, b, k + 1);
      }
      if k: nat :| LessAt(a, b, k) {
        assert x[..k - 1] == a[..k][1..] && y[..k - 1] == b[..k][1..];
        assert LessAt(x, y, k - 1);
      }
    } else if b != [] && (a == [] || a[0] < b[0]) {
      assert LessAt(a, b, 0);
    } else {
      forall k: nat | 0 < k <= |a| && k < |b| ensures !LessAt(a, b, k) {
        assert a[..k][0] == a[0] && b[..k][0] == b[0];
      }
    }
  }

  lemma {:induction false} LexTransitive(a: seq<Byte>, b: seq<Byte>, c: seq<Byte>)
    requires Lex(a, b) && Lex(b, c)
    ensures Lex(a, c)
    decreases |a|
  {
    if a != [] && a[0] == b[0] == c[0] { LexTransitive(a[1..], b[1..], c[1..]); }
  }
}
