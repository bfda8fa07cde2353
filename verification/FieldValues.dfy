/** Field values (crates/serialization/src/compact.rs): the total order sorted
    indexes use, the partial comparison predicates use, and the equality hash
    indexes use. */
module FieldValues {
  import opened Bytes

  datatype Order = Less | Equal | Greater

  /** A float: a signed not-a-number, negative zero, or a point of the line. */
  datatype Float = Nan(negative: bool, payload: nat) | NegZero | Point(v: real)

  datatype FieldValue =
    | Null
    | Bool(b: bool)
    | I32(i: int)
    | I64(l: int)
    | F64(f: Float)
    | Str(s: seq<Byte>)

  datatype Maybe = None | Some(o: Order)

  function OfInts(a: int, b: int): Order {
    if a < b then Less else if a == b then Equal else Greater
  }

  function OfReals(a: real, b: real): Order {
    if a < b then Less else if a == b then Equal else Greater
  }

  function OfBools(a: bool, b: bool): Order {
    if a == b then Equal else if b then Less else Greater
  }

  function OfStrings(a: seq<Byte>, b: seq<Byte>): Order {
    if a == b then Equal else if Lex(a, b) then Less else Greater
  }

  function Value(f: Float): real {
    if f.Point? then f.v else 0.0
  }

  /** Where not-a-numbers and numbers lie in the total order of floats. */
  function Class(f: Float): int {
    if f.Nan? then (if f.negative then -1 else 1) else 0
  }

  /** The total order of floats: negative zero just below zero. */
  function OfFloats(a: Float, b: Float): Order {
    if Class(a) != Class(b) then OfInts(Class(a), Class(b))
    else if a.Nan? then (if a.negative then OfInts(b.payload, a.payload) else OfInts(a.payload, b.payload))
    else if Value(a) != Value(b) then OfReals(Value(a), Value(b))
    else OfBools(a.Point?, b.Point?)
  }

  function Number(v: FieldValue): int
    requires v.I32? || v.I64?
  {
    if v.I32? then v.i else v.l
  }

  predicate IsInt(v: FieldValue) {
    v.I32? || v.I64?
  }

  function Kind(v: FieldValue): int {
    match v
    case Null => 0
    case Bool(_) => 1
    case I32(_) => 2
    case I64(_) => 2
    case F64(_) => 3
    case Str(_) => 4
  }

  /** The total order: integers of either width compare as numbers. */
  function Cmp(a: FieldValue, b: FieldValue): Order {
    if Kind(a) != Kind(b) then OfInts(Kind(a), Kind(b))
    else if IsInt(a) then OfInts(Number(a), Number(b))
    else match a
      case Null => Equal
      case Bool(x) => OfBools(x, b.b)
      case F64(x) => OfFloats(x, b.f)
      case Str(x) => OfStrings(x, b.s)
  }

  /** The comparison predicates use: nothing for null, for different kinds or for
      a not-a-number. */
  function Compare(a: FieldValue, b: FieldValue): Maybe {
    if Kind(a) != Kind(b) || a.Null? then None
    else if IsInt(a) then Some(OfInts(Number(a), Number(b)))
    else match a
      case Bool(x) => Some(OfBools(x, b.b))
      case F64(x) => if x.Nan? || b.f.Nan? then None else Some(OfReals(Value(x), Value(b.f)))
      case Str(x) => Some(OfStrings(x, b.s))
  }

  predicate Equals(a: FieldValue, b: FieldValue) {
    Compare(a, b) == Some(Equal)
  }

  /** Derived equality: the widths of integers count, a not-a-number equals
      nothing, and the zeros are equal. */
  predicate Same(a: FieldValue, b: FieldValue) {
    if a.F64? && b.F64? then !a.f.Nan? && !b.f.Nan? && Value(a.f) == Value(b.f) else a == b
  }

  /** Equal and hashed alike: the hash of a float is that of its bits. */
  predicate SameHash(a: FieldValue, b: FieldValue) {
    Same(a, b) && a == b
  }

  predicate Zero(v: FieldValue) {
    v.F64? && (v.f.NegZero? || v.f == Point(0.0))
  }

  /** The two zeros, one of each sign. */
  predicate Zeros(a: FieldValue, b: FieldValue) {
    Zero(a) && Zero(b) && a != b
  }

  /** One number in two widths. */
  predicate Widths(a: FieldValue, b: FieldValue) {
    IsInt(a) && IsInt(b) && Number(a) == Number(b) && a != b
  }

  predicate IsNan(v: FieldValue) {
    v.F64? && v.f.Nan?
  }

  // ---------- what the comparisons mean ----------

  /** Both numbers of one kind, both booleans or both strings; not null and not a
      not-a-number. */
  predicate Comparable(a: FieldValue, b: FieldValue) {
    || (IsInt(a) && IsInt(b))
    || (a.Bool? && b.Bool?)
    || (a.F64? && b.F64? && !IsNan(a) && !IsNan(b))
    || (a.Str? && b.Str?)
  }

  /** A smaller number, false before true, or earlier among byte strings. */
  ghost predicate Precedes(a: FieldValue, b: FieldValue)
    requires Comparable(a, b)
  {
    if IsInt(a) then Number(a) < Number(b)
    else if a.Bool? then !a.b && b.b
    else if a.F64? then Value(a.f) < Value(b.f)
    else exists k: nat :: LessAt(a.s, b.s, k)
  }

  predicate Alike(a: FieldValue, b: FieldValue)
    requires Comparable(a, b)
  {
    if IsInt(a) then Number(a) == Number(b)
    else if a.Bool? then a.b == b.b
    else if a.F64? then Value(a.f) == Value(b.f)
    else a.s == b.s
  }

  /** The predicates' comparison is of the values, and of nothing incomparable. */
  lemma CompareMeans(a: FieldValue, b: FieldValue)
    ensures Compare(a, b).Some? <==> Comparable(a, b)
    ensures Comparable(a, b) ==>
              && (Compare(a, b).o == Less <==> Precedes(a, b))
              && (Compare(a, b).o == Equal <==> Alike(a, b))
              && (Compare(a, b).o == Greater <==> Precedes(b, a))
  {
    if a.Str? && b.Str? {
      LexMeans(a.s, b.s);
      LexMeans(b.s, a.s);
      LexTotal(a.s, b.s);
    }
  }

  /** The total order is the predicates' wherever they compare, but for negative zero
      just below zero; kinds come null, booleans, integers, floats, strings; and
      not-a-numbers lie outside the numbers, on the side of their sign. */
  lemma CmpMeans(a: FieldValue, b: FieldValue)
    ensures Comparable(a, b) && !Zeros(a, b) ==> Cmp(a, b) == Compare(a, b).o
    ensures Cmp(F64(NegZero), F64(Point(0.0))) == Less
    ensures (a.Null? && !b.Null?) || (a.Bool? && (IsInt(b) || b.F64? || b.Str?)) ==> Cmp(a, b) == Less
    ensures (IsInt(a) && (b.F64? || b.Str?)) || (a.F64? && b.Str?) ==> Cmp(a, b) == Less
    ensures a.F64? && b.F64? && IsNan(a) && !IsNan(b) ==> Cmp(a, b) == if a.f.negative then Less else Greater
    ensures a.F64? && b.F64? && IsNan(a) && IsNan(b) && a.f.negative && !b.f.negative ==> Cmp(a, b) == Less
  {
  }

  function Flip(o: Order): Order {
    match o
    case Less => Greater
    case Equal => Equal
    case Greater => Less
  }

  /** It is an order: turned round it flips, and steps that do not go up compose. */
  lemma CmpIsOrder(a: FieldValue, b: FieldValue, c: FieldValue)
    ensures Cmp(b, a) == Flip(Cmp(a, b)) && Cmp(a, a) == Equal
    ensures Cmp(a, b) == Less && Cmp(b, c) == Less ==> Cmp(a, c) == Less
  {
    if a.Str? && b.Str? {
      LexTotal(a.s, b.s);
      if c.Str? && Lex(a.s, b.s) && Lex(b.s, c.s) {
        LexTransitive(a.s, b.s, c.s);
        LexTotal(a.s, c.s);
      }
    }
  }

  /** The total order agrees with predicate equality except on the two zeros, and
      on null and a not-a-number against themselves. */
  lemma SortedSplits(a: FieldValue, b: FieldValue)
    ensures (Equals(a, b) <==> Cmp(a, b) == Equal) <==> !Zeros(a, b) && !(a == b && (a.Null? || IsNan(a)))
    ensures Zeros(a, b) ==> Equals(a, b)
  {
  }

  /** Hashing agrees with predicate equality except on the two zeros, on one number
      in two widths, and on null against itself. */
  lemma HashSplits(a: FieldValue, b: FieldValue)
    ensures (Equals(a, b) <==> SameHash(a, b)) <==> !Zeros(a, b) && !Widths(a, b) && !(a.Null? && b.Null?)
    ensures Zeros(a, b) || Widths(a, b) ==> Equals(a, b)
  {
  }

  /** Values equal in the total order are interchangeable in it. */
  lemma CmpCongruent(a: FieldValue, b: FieldValue, c: FieldValue)
    requires Cmp(a, b) == Equal
    ensures Cmp(a, c) == Cmp(b, c)
  {
    if a.Str? && b.Str? { LexTotal(a.s, b.s); }
  }

  /** ... and alike for predicates. */
  lemma CompareCongruent(a: FieldValue, b: FieldValue, c: FieldValue)
    requires Cmp(a, b) == Equal
    ensures Compare(a, c) == Compare(b, c)
  {
    if a.Str? && b.Str? { LexTotal(a.s, b.s); }
  }
}
