/** Predicates, the planner that answers them from indexes, and when an answer
    loses a match (crates/query/src/index.rs, eval.rs). */
module IndexPlanning {
  import opened Bytes
  import opened FieldValues
  import opened Indexing

  /** `Other` stands for every predicate the planner never answers: patterns,
      wrappers and constants, as any boolean function of the stored value. */
  datatype Predicate =
    | Compared(field: Field, op: Op, value: FieldValue)
    | Between(field: Field, from: FieldValue, upto: FieldValue)
    | In(field: Field, values: seq<FieldValue>)
    | And(children: seq<Predicate>)
    | Or(children: seq<Predicate>)
    | Not(inner: Predicate)
    | Other(test: Data -> bool)

  predicate Accepts(op: Op, o: Order) {
    match op
    case Eq => o == Equal
    case NotEq => o != Equal
    case Lt => o == Less
    case Le => o != Greater
    case Gt => o == Greater
    case Ge => o != Less
  }

  predicate Satisfies(op: Op, fv: FieldValue, pv: FieldValue) {
    Compare(fv, pv).Some? && Accepts(op, Compare(fv, pv).o)
  }

  /** What each comparison asks of comparable values; incomparable ones satisfy none. */
  lemma SatisfiesMeans(op: Op, a: FieldValue, b: FieldValue)
    ensures Satisfies(op, a, b) <==> Comparable(a, b) && Asks(op, a, b)
  {
    CompareMeans(a, b);
  }

  ghost predicate Asks(op: Op, a: FieldValue, b: FieldValue)
    requires Comparable(a, b)
  {
    match op
    case Eq => Alike(a, b)
    case NotEq => !Alike(a, b)
    case Lt => Precedes(a, b)
    case Le => Precedes(a, b) || Alike(a, b)
    case Gt => Precedes(b, a)
    case Ge => Precedes(b, a) || Alike(a, b)
  }

  predicate Within(fv: FieldValue, from: FieldValue, upto: FieldValue) {
    Satisfies(Ge, fv, from) && Satisfies(Le, fv, upto)
  }

  predicate Eval(p: Predicate, data: Data, ex: Extract) {
    match p
    case Compared(field, op, pv) => Satisfies(op, ex(data, field), pv)
    case Between(field, from, upto) => Within(ex(data, field), from, upto)
    case In(field, values) => exists i :: 0 <= i < |values| && Equals(ex(data, field), values[i])
    case And(children) => forall i :: 0 <= i < |children| ==> Eval(children[i], data, ex)
    case Or(children) => exists i :: 0 <= i < |children| && Eval(children[i], data, ex)
    case Not(inner) => !Eval(inner, data, ex)
    case Other(test) => test(data)
  }

  /** A query reads the buckets whose value passes this test. */
  predicate Reads(kind: IndexKind, op: Op, rep: FieldValue, pv: FieldValue) {
    if op.Eq? then Matches(kind, rep, pv)
    else if op.NotEq? then !Same(rep, pv)
    else kind.Sorted? && Accepts(op, Cmp(rep, pv))
  }

  predicate ReadsBetween(rep: FieldValue, from: FieldValue, upto: FieldValue) {
    Cmp(rep, from) != Less && Cmp(rep, upto) != Greater
  }

  function Query(ix: Index, op: Op, pv: FieldValue): set<Key> {
    set i, k | 0 <= i < |ix.buckets| && Reads(ix.kind, op, ix.buckets[i].rep, pv) && k in ix.buckets[i].keys :: k
  }

  function QueryBetween(ix: Index, from: FieldValue, upto: FieldValue): set<Key> {
    set i, k | 0 <= i < |ix.buckets| && ReadsBetween(ix.buckets[i].rep, from, upto) && k in ix.buckets[i].keys :: k
  }

  function QueryIn(ix: Index, values: seq<FieldValue>): set<Key> {
    if values == [] then {} else QueryIn(ix, values[..|values| - 1]) + Query(ix, Eq, values[|values| - 1])
  }

  type Indexes = map<Field, Index>

  /** The planner answers with keys, finds no usable index, or panics. */
  datatype Answer = NoIndex | Keys(keys: set<Key>) | Panic

  /** A range over the tree of a sorted index panics on inverted bounds, unless the
      tree never had a root. */
  function RangeOf(ix: Index, from: FieldValue, upto: FieldValue): Answer {
    if ix.kind.Hash? then Keys({})
    else if ix.filled && Cmp(from, upto) == Greater then Panic
    else Keys(QueryBetween(ix, from, upto))
  }

  function Plan(p: Predicate, ixs: Indexes): Answer {
    match p
    case Compared(field, op, pv) =>
      if field in ixs && (op.Eq? || op.NotEq? || ixs[field].kind.Sorted?) then Keys(Query(ixs[field], op, pv))
      else NoIndex
    case Between(field, from, upto) =>
      if field in ixs && ixs[field].kind.Sorted? then RangeOf(ixs[field], from, upto) else NoIndex
    case In(field, values) => if field in ixs then Keys(QueryIn(ixs[field], values)) else NoIndex
    case And(children) => PlanFirst(children, ixs)
    case _ => NoIndex
  }

  /** The answer of the first child that has one. */
  function PlanFirst(ps: seq<Predicate>, ixs: Indexes): Answer {
    if ps == [] then NoIndex
    else
      var a := Plan(ps[0], ixs);
      if a.NoIndex? then PlanFirst(ps[1..], ixs) else a
  }

  // ---------- which indexes are used ----------

  /** The predicates `p` asks for together, through nested conjunctions, in order. */
  function Conjuncts(p: Predicate): seq<Predicate> {
    if p.And? then AllConjuncts(p.children) else [p]
  }

  function AllConjuncts(ps: seq<Predicate>): seq<Predicate> {
    if ps == [] then [] else Conjuncts(ps[0]) + AllConjuncts(ps[1..])
  }

  /** Its field has an index that can answer: any for equality, inequality and
      membership, a sorted one for the other comparisons and for ranges. */
  predicate Indexable(p: Predicate, ixs: Indexes) {
    && (p.Compared? || p.Between? || p.In?)
    && p.field in ixs
    && (ixs[p.field].kind.Sorted? || p.In? || (p.Compared? && (p.op.Eq? || p.op.NotEq?)))
  }

  predicate FirstIndexable(ps: seq<Predicate>, ixs: Indexes, i: nat)
    requires i < |ps|
  {
    Indexable(ps[i], ixs) && forall j :: 0 <= j < i ==> !Indexable(ps[j], ixs)
  }

  lemma {:induction false} FirstOfBoth(a: seq<Predicate>, b: seq<Predicate>, ixs: Indexes)
    ensures PlanFirst(a + b, ixs) == if PlanFirst(a, ixs).NoIndex? then PlanFirst(b, ixs) else PlanFirst(a, ixs)
    decreases |a|
  {
    if a == [] {
      assert a + b == b;
    } else {
      FirstOfBoth(a[1..], b, ixs);
      assert (a + b)[1..] == a[1..] + b;
    }
  }

  /** Nesting makes no difference: a conjunction is planned as its conjuncts in order. */
  lemma {:induction false} PlanFlattens(p: Predicate, ixs: Indexes)
    ensures Plan(p, ixs) == PlanFirst(Conjuncts(p), ixs)
    decreases p, 1
  {
    if p.And? {
      FirstFlattens(p.children, ixs);
      assert Conjuncts(p) == AllConjuncts(p.children);
    } else {
      var one := [p];
      assert one[1..] == [] && PlanFirst(one[1..], ixs) == NoIndex;
      assert PlanFirst(one, ixs) == Plan(one[0], ixs);
    }
  }

  lemma {:induction false} FirstFlattens(ps: seq<Predicate>, ixs: Indexes)
    ensures PlanFirst(ps, ixs) == PlanFirst(AllConjuncts(ps), ixs)
    decreases ps, 0
  {
    if ps != [] {
      PlanFlattens(ps[0], ixs);
      FirstFlattens(ps[1..], ixs);
      FirstOfBoth(Conjuncts(ps[0]), AllConjuncts(ps[1..]), ixs);
    }
  }

  lemma {:induction false} NoConjunction(ps: seq<Predicate>)
    ensures forall i :: 0 <= i < |AllConjuncts(ps)| ==> !AllConjuncts(ps)[i].And?
    decreases ps
  {
    if ps != [] {
      var a, b := Conjuncts(ps[0]), AllConjuncts(ps[1..]);
      if ps[0].And? {
        NoConjunction(ps[0].children);
        assert a == AllConjuncts(ps[0].children);
      } else {
        assert a == [ps[0]];
      }
      NoConjunction(ps[1..]);
      assert AllConjuncts(ps) == a + b;
    }
  }

  lemma {:induction false} FirstIs(ps: seq<Predicate>, ixs: Indexes)
    requires forall i :: 0 <= i < |ps| ==> !ps[i].And?
    ensures PlanFirst(ps, ixs).NoIndex? <==> forall i :: 0 <= i < |ps| ==> !Indexable(ps[i], ixs)
    ensures forall i :: 0 <= i < |ps| && FirstIndexable(ps, ixs, i) ==> PlanFirst(ps, ixs) == Plan(ps[i], ixs)
    decreases |ps|
  {
    if ps != [] {
      var rest := ps[1..];
      FirstIs(rest, ixs);
      assert forall i :: 0 < i < |ps| ==> ps[i] == rest[i - 1];
      assert Plan(ps[0], ixs).NoIndex? <==> !Indexable(ps[0], ixs);
      forall i | 0 <= i < |ps| && FirstIndexable(ps, ixs, i) ensures PlanFirst(ps, ixs) == Plan(ps[i], ixs) {
        if i > 0 {
          forall j | 0 <= j < i - 1 ensures !Indexable(rest[j], ixs) { assert rest[j] == ps[j + 1]; }
          assert FirstIndexable(rest, ixs, i - 1);
        }
      }
    }
  }

  /** The planner has no answer exactly when no conjunct is indexable, and otherwise
      answers from the first that is. */
  lemma PlansFirstIndexable(p: Predicate, ixs: Indexes)
    ensures var ps := Conjuncts(p);
            && (Plan(p, ixs).NoIndex? <==> forall i :: 0 <= i < |ps| ==> !Indexable(ps[i], ixs))
            && (forall i :: 0 <= i < |ps| && FirstIndexable(ps, ixs, i) ==> Plan(p, ixs) == Plan(ps[i], ixs))
  {
    PlanFlattens(p, ixs);
    if p.And? { NoConjunction(p.children); }
    FirstIs(Conjuncts(p), ixs);
  }

  // ---------- when a match is lost ----------

  /** The index does not see that `fv` satisfies the comparison. */
  predicate Blind(kind: IndexKind, op: Op, fv: FieldValue, pv: FieldValue) {
    match op
    case Eq => Zeros(fv, pv) || (kind.Hash? && Widths(fv, pv))
    case Le => fv == F64(Point(0.0)) && pv == F64(NegZero)
    case Ge => fv == F64(NegZero) && pv == F64(Point(0.0))
    case _ => false
  }

  predicate BlindBetween(fv: FieldValue, from: FieldValue, upto: FieldValue) {
    Blind(Sorted, Ge, fv, from) || Blind(Sorted, Le, fv, upto)
  }

  lemma ReadsIff(kind: IndexKind, op: Op, fv: FieldValue, pv: FieldValue)
    requires Satisfies(op, fv, pv) && (op.Eq? || op.NotEq? || kind.Sorted?)
    ensures Indexed(kind, fv)
    ensures Reads(kind, op, fv, pv) <==> !Blind(kind, op, fv, pv)
  {
    if fv.Str? { LexTotal(fv.s, fv.s); }
    if op.Eq? { SortedSplits(fv, pv); HashSplits(fv, pv); }
  }

  /** A comparable value is read without satisfying the comparison only for the
      two zeros under a strict comparison, and for one number in two widths under
      inequality; filtering then drops it. */
  lemma OverreadsIff(kind: IndexKind, op: Op, fv: FieldValue, pv: FieldValue)
    requires Compare(fv, pv).Some?
    ensures Reads(kind, op, fv, pv) && !Satisfies(op, fv, pv) <==>
            (kind.Sorted? && StrictZeros(op, fv, pv)) || (op.NotEq? && Widths(fv, pv))
  {
    if fv.Str? { LexTotal(fv.s, pv.s); }
  }

  predicate StrictZeros(op: Op, fv: FieldValue, pv: FieldValue) {
    || (op.Lt? && fv == F64(NegZero) && pv == F64(Point(0.0)))
    || (op.Gt? && fv == F64(Point(0.0)) && pv == F64(NegZero))
  }

  /** Buckets that hold `fv` are read alike, whatever value they are filed under. */
  lemma ReadsAlike(kind: IndexKind, op: Op, rep: FieldValue, fv: FieldValue, pv: FieldValue)
    requires Matches(kind, rep, fv) && (op.NotEq? ==> Satisfies(op, fv, pv))
    ensures Reads(kind, op, rep, pv) <==> Reads(kind, op, fv, pv)
  {
    if kind.Sorted? {
      CmpCongruent(rep, fv, pv);
      CompareCongruent(rep, fv, pv);
    }
  }

  lemma LostBucket(op: Op, rep: FieldValue, pv: FieldValue)
    requires rep.F64? && rep.f.Nan?
    ensures Reads(Hash, op, rep, pv) ==> op.NotEq?
  {
  }

  /** A satisfying entry is read if the index is not blind to it, and only if
      nothing but entries is filed. */
  lemma QueryIff(ix: Index, ex: Extract, field: Field, entries: map<Key, Data>, op: Op, pv: FieldValue, key: Key)
    requires Covers(ix, ex, field, entries) && key in entries
    requires op.Eq? || op.NotEq? || ix.kind.Sorted?
    requires Satisfies(op, ex(entries[key], field), pv)
    ensures !Blind(ix.kind, op, ex(entries[key], field), pv) ==> key in Query(ix, op, pv)
    ensures Mirrors(ix, ex, field, entries) && key in Query(ix, op, pv) ==>
            !Blind(ix.kind, op, ex(entries[key], field), pv)
  {
    var fv := ex(entries[key], field);
    ReadsIff(ix.kind, op, fv, pv);
    if !Blind(ix.kind, op, fv, pv) {
      var i := Find(ix.kind, ix.buckets, fv);
      ReadsAlike(ix.kind, op, ix.buckets[i].rep, fv, pv);
    } else if Mirrors(ix, ex, field, entries) {
      forall i | Filed(ix, i, key) ensures !Reads(ix.kind, op, ix.buckets[i].rep, pv) {
        var rep := ix.buckets[i].rep;
        assert Genuine(ix, ex, field, entries, rep, key);
        if Matches(ix.kind, rep, fv) { ReadsAlike(ix.kind, op, rep, fv, pv); } else { LostBucket(op, rep, pv); }
      }
    }
  }

  /** Exactly what a lookup or a range reads among comparable values: the
      satisfying entries it is not blind to, and opposite zeros it should not. */
  lemma QueryReturns(ix: Index, ex: Extract, field: Field, entries: map<Key, Data>, op: Op, pv: FieldValue, key: Key)
    requires Mirrors(ix, ex, field, entries) && key in entries && !op.NotEq? && (op.Eq? || ix.kind.Sorted?)
    requires Compare(ex(entries[key], field), pv).Some?
    ensures var fv := ex(entries[key], field);
            key in Query(ix, op, pv) <==>
            (Satisfies(op, fv, pv) && !Blind(ix.kind, op, fv, pv)) || (ix.kind.Sorted? && StrictZeros(op, fv, pv))
  {
    var fv := ex(entries[key], field);
    OverreadsIff(ix.kind, op, fv, pv);
    if Satisfies(op, fv, pv) {
      QueryIff(ix, ex, field, entries, op, pv, key);
    } else if ix.kind.Sorted? && StrictZeros(op, fv, pv) {
      var i := Find(ix.kind, ix.buckets, fv);
      assert Findable(ix, fv, key);
      ReadsAlike(ix.kind, op, ix.buckets[i].rep, fv, pv);
    } else {
      forall i | Filed(ix, i, key) ensures !Reads(ix.kind, op, ix.buckets[i].rep, pv) {
        var rep := ix.buckets[i].rep;
        assert Genuine(ix, ex, field, entries, rep, key);
        if Matches(ix.kind, rep, fv) { ReadsAlike(ix.kind, op, rep, fv, pv); } else { LostBucket(op, rep, pv); }
      }
    }
  }

  lemma BetweenIff(ix: Index, ex: Extract, field: Field, entries: map<Key, Data>, from: FieldValue, upto: FieldValue,
                   key: Key)
    requires Covers(ix, ex, field, entries) && key in entries && ix.kind.Sorted?
    requires Within(ex(entries[key], field), from, upto)
    ensures !BlindBetween(ex(entries[key], field), from, upto) ==> key in QueryBetween(ix, from, upto)
    ensures Mirrors(ix, ex, field, entries) && key in QueryBetween(ix, from, upto) ==>
            !BlindBetween(ex(entries[key], field), from, upto)
  {
    var fv := ex(entries[key], field);
    ReadsIff(Sorted, Ge, fv, from);
    ReadsIff(Sorted, Le, fv, upto);
    if !BlindBetween(fv, from, upto) {
      var i := Find(ix.kind, ix.buckets, fv);
      CmpCongruent(ix.buckets[i].rep, fv, from);
      CmpCongruent(ix.buckets[i].rep, fv, upto);
    } else if Mirrors(ix, ex, field, entries) {
      forall i | Filed(ix, i, key) ensures !ReadsBetween(ix.buckets[i].rep, from, upto) {
        var rep := ix.buckets[i].rep;
        assert Genuine(ix, ex, field, entries, rep, key);
        CmpCongruent(rep, fv, from);
        CmpCongruent(rep, fv, upto);
      }
    }
  }

  /** Every listed value the entry equals escapes the index. */
  predicate BlindIn(kind: IndexKind, fv: FieldValue, values: seq<FieldValue>) {
    forall i :: 0 <= i < |values| && Equals(fv, values[i]) ==> Blind(kind, Eq, fv, values[i])
  }

  /** A sorted index finds a not-a-number that is listed, though it equals nothing. */
  predicate ListedNan(kind: IndexKind, fv: FieldValue, values: seq<FieldValue>) {
    kind.Sorted? && IsNan(fv) && fv in values
  }

  lemma {:induction false} InIff(ix: Index, ex: Extract, field: Field, entries: map<Key, Data>, values: seq<FieldValue>,
                                 key: Key)
    requires Covers(ix, ex, field, entries) && key in entries
    ensures !BlindIn(ix.kind, ex(entries[key], field), values) ==> key in QueryIn(ix, values)
    ensures Mirrors(ix, ex, field, entries) ==>
            (key in QueryIn(ix, values) <==>
             !BlindIn(ix.kind, ex(entries[key], field), values) || ListedNan(ix.kind, ex(entries[key], field), values))
    decreases |values|
  {
    if values != [] {
      var fv, front, last := ex(entries[key], field), values[..|values| - 1], values[|values| - 1];
      InIff(ix, ex, field, entries, front, key);
      if Equals(fv, last) {
        QueryIff(ix, ex, field, entries, Eq, last, key);
      } else if Mirrors(ix, ex, field, entries) {
        UnequalUnread(ix, ex, field, entries, last, key);
      }
      BlindInFront(ix.kind, fv, values);
      assert values == front + [last];
    }
  }

  lemma BlindInFront(kind: IndexKind, fv: FieldValue, values: seq<FieldValue>)
    requires values != []
    ensures var front, last := values[..|values| - 1], values[|values| - 1];
            BlindIn(kind, fv, values) <==> BlindIn(kind, fv, front) && (Equals(fv, last) ==> Blind(kind, Eq, fv, last))
  {
    var front, last := values[..|values| - 1], values[|values| - 1];
    if BlindIn(kind, fv, values) {
      forall i | 0 <= i < |front| && Equals(fv, front[i]) ensures Blind(kind, Eq, fv, front[i]) {
        assert front[i] == values[i];
      }
    }
    if BlindIn(kind, fv, front) {
      forall i | 0 <= i < |front| && Equals(fv, values[i]) ensures Blind(kind, Eq, fv, values[i]) {
        assert front[i] == values[i];
      }
    }
  }

  /** A lookup reads no entry whose value is not equal, but for a not-a-number
      looked up in a sorted index. */
  lemma UnequalUnread(ix: Index, ex: Extract, field: Field, entries: map<Key, Data>, pv: FieldValue, key: Key)
    requires Mirrors(ix, ex, field, entries) && key in entries && !Equals(ex(entries[key], field), pv)
    ensures var fv := ex(entries[key], field);
            key in Query(ix, Eq, pv) <==> ix.kind.Sorted? && IsNan(fv) && fv == pv
  {
    var fv := ex(entries[key], field);
    forall i | Filed(ix, i, key)
      ensures Reads(ix.kind, Eq, ix.buckets[i].rep, pv) ==> ix.kind.Sorted? && IsNan(fv) && fv == pv
    {
      var rep := ix.buckets[i].rep;
      assert Genuine(ix, ex, field, entries, rep, key);
      if Matches(ix.kind, rep, fv) { UnequalUnmatched(ix.kind, rep, fv, pv); }
    }
    if ix.kind.Sorted? && IsNan(fv) && fv == pv {
      assert Indexed(ix.kind, fv);
      assert Findable(ix, fv, key);
    }
  }

  lemma UnequalUnmatched(kind: IndexKind, rep: FieldValue, fv: FieldValue, pv: FieldValue)
    requires Matches(kind, rep, fv) && !rep.Null? && !Equals(fv, pv)
    ensures Matches(kind, rep, pv) ==> kind.Sorted? && IsNan(fv) && fv == pv
  {
    if kind.Sorted? {
      CmpCongruent(rep, fv, pv);
      SortedSplits(fv, pv);
    } else {
      HashSplits(fv, pv);
    }
  }

  // ---------- the planner ----------

  /** The answering part of the predicate does not see the value. */
  predicate Blinded(p: Predicate, ixs: Indexes, data: Data, ex: Extract) {
    match p
    case Compared(field, op, pv) => field in ixs && Blind(ixs[field].kind, op, ex(data, field), pv)
    case Between(field, from, upto) => BlindBetween(ex(data, field), from, upto)
    case In(field, values) => field in ixs && BlindIn(ixs[field].kind, ex(data, field), values)
    case And(children) => BlindedFirst(children, ixs, data, ex)
    case _ => false
  }

  predicate BlindedFirst(ps: seq<Predicate>, ixs: Indexes, data: Data, ex: Extract) {
    ps != [] &&
    if Plan(ps[0], ixs).NoIndex? then BlindedFirst(ps[1..], ixs, data, ex) else Blinded(ps[0], ixs, data, ex)
  }

  ghost predicate AllCover(ixs: Indexes, ex: Extract, entries: map<Key, Data>) {
    forall field :: field in ixs ==> Covers(ixs[field], ex, field, entries)
  }

  ghost predicate AllMirror(ixs: Indexes, ex: Extract, entries: map<Key, Data>) {
    forall field :: field in ixs ==> Mirrors(ixs[field], ex, field, entries)
  }

  /** Whenever the planner answers, a satisfying entry is among its keys if the
      answering part is not blind to it, and only if nothing but entries is filed. */
  lemma {:induction false} PlanIff(p: Predicate, ixs: Indexes, ex: Extract, entries: map<Key, Data>, key: Key)
    requires AllCover(ixs, ex, entries) && key in entries && Eval(p, entries[key], ex) && Plan(p, ixs).Keys?
    ensures !Blinded(p, ixs, entries[key], ex) ==> key in Plan(p, ixs).keys
    ensures AllMirror(ixs, ex, entries) && key in Plan(p, ixs).keys ==> !Blinded(p, ixs, entries[key], ex)
    decreases p
  {
    match p
    case Compared(field, op, pv) => QueryIff(ixs[field], ex, field, entries, op, pv, key);
    case Between(field, from, upto) => BetweenIff(ixs[field], ex, field, entries, from, upto, key);
    case In(field, values) => InIff(ixs[field], ex, field, entries, values, key);
    case And(children) => PlanFirstIff(children, ixs, ex, entries, key);
  }

  lemma {:induction false} PlanFirstIff(
    ps: seq<Predicate>, ixs: Indexes, ex: Extract, entries: map<Key, Data>, key: Key)
    requires AllCover(ixs, ex, entries) && key in entries && PlanFirst(ps, ixs).Keys?
    requires forall i :: 0 <= i < |ps| ==> Eval(ps[i], entries[key], ex)
    ensures !BlindedFirst(ps, ixs, entries[key], ex) ==> key in PlanFirst(ps, ixs).keys
    ensures AllMirror(ixs, ex, entries) && key in PlanFirst(ps, ixs).keys ==> !BlindedFirst(ps, ixs, entries[key], ex)
    decreases ps
  {
    if Plan(ps[0], ixs).NoIndex? {
      PlanFirstIff(ps[1..], ixs, ex, entries, key);
    } else {
      PlanIff(ps[0], ixs, ex, entries, key);
    }
  }

  /** The keys a full scan returns. */
  function Scan(p: Predicate, entries: map<Key, Data>, ex: Extract): set<Key> {
    set key | key in entries && Eval(p, entries[key], ex)
  }

  /** Connectives are set operations on what their parts find. */
  lemma ScanMeans(entries: map<Key, Data>, ex: Extract, p: Predicate, ps: seq<Predicate>)
    ensures Scan(Not(p), entries, ex) == entries.Keys - Scan(p, entries, ex)
    ensures Scan(Or([]), entries, ex) == {} && Scan(And([]), entries, ex) == entries.Keys
    ensures Scan(Or(ps + [p]), entries, ex) == Scan(Or(ps), entries, ex) + Scan(p, entries, ex)
    ensures Scan(And(ps + [p]), entries, ex) == Scan(And(ps), entries, ex) * Scan(p, entries, ex)
  {
    ScanGrows(entries, ex, p, ps, Or(ps + [p]), And(ps + [p]));
  }

  lemma ScanGrows(entries: map<Key, Data>, ex: Extract, p: Predicate, ps: seq<Predicate>, or: Predicate, and: Predicate)
    requires or == Or(ps + [p]) && and == And(ps + [p])
    ensures Scan(or, entries, ex) == Scan(Or(ps), entries, ex) + Scan(p, entries, ex)
    ensures Scan(and, entries, ex) == Scan(And(ps), entries, ex) * Scan(p, entries, ex)
  {
    forall key | key in entries
      ensures Eval(or, entries[key], ex) <==> Eval(Or(ps), entries[key], ex) || Eval(p, entries[key], ex)
      ensures Eval(and, entries[key], ex) <==> Eval(And(ps), entries[key], ex) && Eval(p, entries[key], ex)
    {
      EvalGrows(ps, p, entries[key], ex);
    }
  }

  lemma EvalGrows(ps: seq<Predicate>, p: Predicate, data: Data, ex: Extract)
    ensures Eval(Or(ps + [p]), data, ex) <==> Eval(Or(ps), data, ex) || Eval(p, data, ex)
    ensures Eval(And(ps + [p]), data, ex) <==> Eval(And(ps), data, ex) && Eval(p, data, ex)
  {
    var all := ps + [p];
    assert all[|ps|] == p && forall i :: 0 <= i < |ps| ==> all[i] == ps[i];
    assert Eval(Or(all), data, ex) <==> exists i :: 0 <= i < |all| && Eval(all[i], data, ex);
    assert Eval(And(all), data, ex) <==> forall i :: 0 <= i < |all| ==> Eval(all[i], data, ex);
  }

  /** The keys an indexed query returns: candidates looked up and filtered. */
  function Filtered(p: Predicate, keys: set<Key>, entries: map<Key, Data>, ex: Extract): set<Key> {
    set key | key in keys && key in entries && Eval(p, entries[key], ex)
  }

  /** An indexed query equals the full scan if and only if the answering part is
      blind to no satisfying entry. */
  lemma IndexedIsScanIff(p: Predicate, ixs: Indexes, ex: Extract, entries: map<Key, Data>)
    requires AllMirror(ixs, ex, entries) && Plan(p, ixs).Keys?
    ensures Filtered(p, Plan(p, ixs).keys, entries, ex) == Scan(p, entries, ex) <==>
            forall key :: key in entries && Eval(p, entries[key], ex) ==> !Blinded(p, ixs, entries[key], ex)
  {
    var found, all := Filtered(p, Plan(p, ixs).keys, entries, ex), Scan(p, entries, ex);
    forall key | key in entries && Eval(p, entries[key], ex)
      ensures key in found <==> !Blinded(p, ixs, entries[key], ex)
    {
      PlanIff(p, ixs, ex, entries, key);
    }
    if found == all {
      forall key | key in entries && Eval(p, entries[key], ex) ensures !Blinded(p, ixs, entries[key], ex) {
        assert key in all;
      }
    }
  }

  // ---------- histories ----------

  /** `Clear` empties the map and leaves its indexes as they are. */
  datatype Change = Put(key: Key, data: Data) | Delete(key: Key) | Add(field: Field, ix: Index) | Clear

  datatype Table = Table(entries: map<Key, Data>, ixs: Indexes)

  function NewOf(c: Change): Stored {
    if c.Put? then Present(c.data) else Absent
  }

  /** An index is added by filing every entry there is. */
  ghost predicate Allowed(t: Table, c: Change, ex: Extract) {
    c.Add? ==> Mirrors(c.ix, ex, c.field, t.entries)
  }

  function After(t: Table, c: Change, ex: Extract): Table {
    match c
    case Add(field, ix) => t.(ixs := t.ixs[field := ix])
    case Clear => t.(entries := map[])
    case _ =>
      Table(Changed(t.entries, c.key, NewOf(c)),
            map field | field in t.ixs ::
              Follow(t.ixs[field], ex, field, c.key, Lookup(t.entries, c.key), NewOf(c)))
  }

  ghost predicate History(tables: seq<Table>, changes: seq<Change>, ex: Extract) {
    && |tables| == |changes| + 1
    && tables[0] == Table(map[], map[])
    && (forall i :: 0 <= i < |changes| ==>
          Allowed(tables[i], changes[i], ex) && tables[i + 1] == After(tables[i], changes[i], ex))
  }

  /** Every change keeps every entry findable, and every change but a clear keeps
      the indexes mirroring the entries. */
  lemma AfterMirrors(t: Table, c: Change, ex: Extract)
    requires AllCover(t.ixs, ex, t.entries) && Allowed(t, c, ex)
    ensures AllCover(After(t, c, ex).ixs, ex, After(t, c, ex).entries)
    ensures AllMirror(t.ixs, ex, t.entries) && !c.Clear? ==> AllMirror(After(t, c, ex).ixs, ex, After(t, c, ex).entries)
  {
    if c.Put? || c.Delete? {
      forall field | field in t.ixs {
        FollowMirrors(t.ixs[field], ex, field, t.entries, c.key, NewOf(c));
      }
    }
  }

  predicate Uncleared(changes: seq<Change>, i: nat)
    requires i <= |changes|
  {
    forall j :: 0 <= j < i ==> !changes[j].Clear?
  }

  lemma {:induction false} HistoryMirrors(tables: seq<Table>, changes: seq<Change>, ex: Extract, i: nat)
    requires History(tables, changes, ex) && i < |tables|
    ensures AllCover(tables[i].ixs, ex, tables[i].entries)
    ensures Uncleared(changes, i) ==> AllMirror(tables[i].ixs, ex, tables[i].entries)
  {
    if i > 0 {
      HistoryMirrors(tables, changes, ex, i - 1);
      AfterMirrors(tables[i - 1], changes[i - 1], ex);
      assert tables[i - 1 + 1] == After(tables[i - 1], changes[i - 1], ex);
    }
  }

  /** After any history, a planned query returns nothing a full scan would not, and
      every entry of the scan it is not blind to. */
  lemma PlannedFinds(tables: seq<Table>, changes: seq<Change>, ex: Extract, i: nat, p: Predicate)
    requires History(tables, changes, ex) && i < |tables| && Plan(p, tables[i].ixs).Keys?
    ensures var t := tables[i];
            var found, all := Filtered(p, Plan(p, t.ixs).keys, t.entries, ex), Scan(p, t.entries, ex);
            found <= all && forall key :: key in all && !Blinded(p, t.ixs, t.entries[key], ex) ==> key in found
  {
    var t := tables[i];
    HistoryMirrors(tables, changes, ex, i);
    forall key | key in Scan(p, t.entries, ex) && !Blinded(p, t.ixs, t.entries[key], ex)
      ensures key in Plan(p, t.ixs).keys
    {
      PlanIff(p, t.ixs, ex, t.entries, key);
    }
  }

  /** After any history without a clear, a planned query equals the full scan
      exactly when it is blind to no satisfying entry. */
  lemma PlannedQueries(tables: seq<Table>, changes: seq<Change>, ex: Extract, i: nat, p: Predicate)
    requires History(tables, changes, ex) && i < |tables| && Plan(p, tables[i].ixs).Keys? && Uncleared(changes, i)
    ensures var t := tables[i];
            Filtered(p, Plan(p, t.ixs).keys, t.entries, ex) == Scan(p, t.entries, ex) <==>
            forall key :: key in t.entries && Eval(p, t.entries[key], ex) ==> !Blinded(p, t.ixs, t.entries[key], ex)
  {
    HistoryMirrors(tables, changes, ex, i);
    IndexedIsScanIff(p, tables[i].ixs, ex, tables[i].entries);
  }

  // ---------- the exceptions ----------

  predicate Tame(kind: IndexKind, fv: FieldValue, pv: FieldValue) {
    && fv != F64(NegZero) && pv != F64(NegZero)
    && (kind.Hash? && IsInt(fv) && IsInt(pv) ==> (fv.I32? <==> pv.I32?))
  }

  /** No negative zeros, and integers of one width on hash indexes. */
  predicate AllTame(p: Predicate, ixs: Indexes, data: Data, ex: Extract) {
    match p
    case Compared(field, op, pv) => field in ixs ==> Tame(ixs[field].kind, ex(data, field), pv)
    case Between(field, from, upto) => Tame(Sorted, ex(data, field), from) && Tame(Sorted, ex(data, field), upto)
    case In(field, values) =>
      field in ixs ==> forall i :: 0 <= i < |values| ==> Tame(ixs[field].kind, ex(data, field), values[i])
    case And(children) => forall i :: 0 <= i < |children| ==> AllTame(children[i], ixs, data, ex)
    case _ => true
  }

  /** Without those, nothing is ever lost. */
  lemma {:induction false} TameIsSeen(p: Predicate, ixs: Indexes, data: Data, ex: Extract)
    requires Eval(p, data, ex) && AllTame(p, ixs, data, ex)
    ensures !Blinded(p, ixs, data, ex)
    decreases p
  {
    match p
    case In(field, values) =>
      var i :| 0 <= i < |values| && Equals(ex(data, field), values[i]);
      assert field in ixs ==> !Blind(ixs[field].kind, Eq, ex(data, field), values[i]);
    case And(children) => TameFirst(children, ixs, data, ex);
    case _ =>
  }

  lemma {:induction false} TameFirst(ps: seq<Predicate>, ixs: Indexes, data: Data, ex: Extract)
    requires forall i :: 0 <= i < |ps| ==> Eval(ps[i], data, ex) && AllTame(ps[i], ixs, data, ex)
    ensures !BlindedFirst(ps, ixs, data, ex)
    decreases ps
  {
    if ps != [] {
      if Plan(ps[0], ixs).NoIndex? { TameFirst(ps[1..], ixs, data, ex); } else { TameIsSeen(ps[0], ixs, data, ex); }
    }
  }

  lemma OneEntry(kind: IndexKind, ex: Extract, field: Field, key: Key, data: Data)
    requires Indexed(kind, ex(data, field))
    ensures Mirrors(Insert(NewIndex(kind), ex(data, field), key), ex, field, map[key := data])
  {
    var ix, none: map<Key, Data> := NewIndex(kind), map[];
    assert Mirrors(ix, ex, field, none);
    FollowMirrors(ix, ex, field, none, key, Present(data));
    assert none[key := data] == map[key := data];
  }

  /** One number in two widths is lost on a hash index. */
  lemma WidthsAreLost(n: int, key: Key) returns (p: Predicate, ixs: Indexes, ex: Extract, entries: map<Key, Data>)
    ensures AllMirror(ixs, ex, entries) && key in Scan(p, entries, ex)
    ensures Plan(p, ixs).Keys? && key !in Plan(p, ixs).keys
  {
    ex := (_, _) => I64(n);
    p, entries := Compared("f", Eq, I32(n)), map[key := []];
    ixs := map["f" := Insert(NewIndex(Hash), I64(n), key)];
    OneEntry(Hash, ex, "f", key, []);
    assert Eval(p, entries[key], ex);
    PlanIff(p, ixs, ex, entries, key);
  }

  /** The two zeros are lost on any index, whichever is stored. */
  lemma ZerosAreLost(kind: IndexKind, a: FieldValue, b: FieldValue, key: Key)
    returns (p: Predicate, ixs: Indexes, ex: Extract, entries: map<Key, Data>)
    requires Zeros(a, b)
    ensures AllMirror(ixs, ex, entries) && key in Scan(p, entries, ex)
    ensures Plan(p, ixs).Keys? && key !in Plan(p, ixs).keys
  {
    ex := (_, _) => a;
    p, entries := Compared("f", Eq, b), map[key := []];
    ixs := map["f" := Insert(NewIndex(kind), a, key)];
    OneEntry(kind, ex, "f", key, []);
    assert Eval(p, entries[key], ex);
    PlanIff(p, ixs, ex, entries, key);
  }

  lemma FiledApart(v: FieldValue, w: FieldValue, key: Key)
    requires Widths(v, w)
    ensures Insert(NewIndex(Hash), v, key) == Index(Hash, [Bucket(v, {key})], true)
    ensures Insert(Index(Hash, [Bucket(v, {key})], true), w, key) ==
            Index(Hash, [Bucket(v, {key}), Bucket(w, {key})], true)
  {
    assert Find(Hash, [Bucket(v, {key})], w) == 1;
  }

  lemma PutFirst(ix: Index, ex: Extract, key: Key, data: Data)
    ensures After(Table(map[], map["f" := ix]), Put(key, data), ex) ==
            Table(map[key := data], map["f" := Follow(ix, ex, "f", key, Absent, Present(data))])
  {
    var none: map<Key, Data> := map[];
    assert none[key := data] == map[key := data];
  }

  /** Add an index, put, clear, put again. */
  lemma PutClearPut(ex: Extract, key: Key, a: Data, b: Data, none: Index, once: Index, twice: Index)
    returns (tables: seq<Table>, changes: seq<Change>)
    requires none == NewIndex(Hash) && once == Follow(none, ex, "f", key, Absent, Present(a))
    requires twice == Follow(once, ex, "f", key, Absent, Present(b))
    ensures History(tables, changes, ex) && |changes| == 4 && tables[4] == Table(map[key := b], map["f" := twice])
  {
    changes := [Add("f", none), Put(key, a), Clear, Put(key, b)];
    tables := [Table(map[], map[]), Table(map[], map["f" := none]), Table(map[key := a], map["f" := once]),
               Table(map[], map["f" := once]), Table(map[key := b], map["f" := twice])];
    PutFirst(none, ex, key, a);
    PutFirst(once, ex, key, b);
  }

  /** A key filed before a clear and put again in the other width is found through
      the stale filing, though the index is blind to its value. */
  lemma StaleKeyIsFound(n: int, key: Key) returns (tables: seq<Table>, changes: seq<Change>, ex: Extract, p: Predicate)
    ensures History(tables, changes, ex) && |changes| == 4 && key in tables[4].entries
    ensures var t := tables[4]; Plan(p, t.ixs).Keys? && Blinded(p, t.ixs, t.entries[key], ex)
    ensures var t := tables[4]; key in Filtered(p, Plan(p, t.ixs).keys, t.entries, ex)
  {
    ex := (data: Data, field: Field) => if data == [] then I32(n) else I64(n);
    p := Compared("f", Eq, I32(n));
    var once := Index(Hash, [Bucket(I32(n), {key})], true);
    var twice := Index(Hash, [Bucket(I32(n), {key}), Bucket(I64(n), {key})], true);
    FiledApart(I32(n), I64(n), key);
    tables, changes := PutClearPut(ex, key, [], [0], NewIndex(Hash), once, twice);
    assert Filed(twice, 0, key);
  }

  // ---------- inverted ranges ----------

  /** The first conjunct an index answers is a range whose bounds are inverted, over
      an index that ever held a key. */
  predicate Inverted(p: Predicate, ixs: Indexes) {
    match p
    case Between(field, from, upto) =>
      field in ixs && ixs[field].kind.Sorted? && ixs[field].filled && Cmp(from, upto) == Greater
    case And(children) =>
      exists i :: 0 <= i < |children| && Inverted(children[i], ixs) &&
        forall j :: 0 <= j < i ==> Plan(children[j], ixs).NoIndex?
    case _ => false
  }

  /** The planner panics exactly on these. */
  lemma {:induction false} PanicsIff(p: Predicate, ixs: Indexes)
    ensures Plan(p, ixs).Panic? <==> Inverted(p, ixs)
    decreases p
  {
    if p.And? {
      forall i | 0 <= i < |p.children| { PanicsIff(p.children[i], ixs); }
      FirstPanics(p.children, ixs);
    }
  }

  lemma {:induction false} FirstPanics(ps: seq<Predicate>, ixs: Indexes)
    ensures PlanFirst(ps, ixs).Panic? <==>
            exists i :: 0 <= i < |ps| && Plan(ps[i], ixs).Panic? && forall j :: 0 <= j < i ==> Plan(ps[j], ixs).NoIndex?
  {
    if ps != [] {
      var rest := ps[1..];
      FirstPanics(rest, ixs);
      if Plan(ps[0], ixs).NoIndex? {
        if i :| 0 <= i < |rest| && Plan(rest[i], ixs).Panic? && forall j :: 0 <= j < i ==> Plan(rest[j], ixs).NoIndex? {
          assert Plan(ps[i + 1], ixs).Panic?;
        }
        if i :| 0 <= i < |ps| && Plan(ps[i], ixs).Panic? && forall j :: 0 <= j < i ==> Plan(ps[j], ixs).NoIndex? {
          assert rest[i - 1] == ps[i] && forall j :: 0 <= j < i - 1 ==> rest[j] == ps[j + 1];
        }
      }
    }
  }

  /** A range from 1 to 0 over a sorted index of one entry. */
  lemma RangesPanic(key: Key) returns (p: Predicate, ixs: Indexes, ex: Extract, entries: map<Key, Data>)
    ensures AllMirror(ixs, ex, entries) && Plan(p, ixs).Panic? && Scan(p, entries, ex) == {}
  {
    ex := (_, _) => I64(0);
    p, entries := Between("f", I64(1), I64(0)), map[key := []];
    ixs := map["f" := Insert(NewIndex(Sorted), I64(0), key)];
    OneEntry(Sorted, ex, "f", key, []);
    PanicsIff(p, ixs);
  }

  predicate ZeroBounds(p: Predicate) {
    match p
    case Between(_, from, upto) => Zeros(from, upto)
    case And(children) => exists i :: 0 <= i < |children| && ZeroBounds(children[i])
    case _ => false
  }

  /** Where the planner panics, a scan would find nothing, unless the bounds of the
      range are the two zeros. */
  lemma {:induction false} InvertedRangePanics(p: Predicate, ixs: Indexes, data: Data, ex: Extract)
    requires Plan(p, ixs).Panic?
    ensures Eval(p, data, ex) ==> ZeroBounds(p)
    decreases p
  {
    PanicsIff(p, ixs);
    match p
    case Between(field, from, upto) =>
      var fv := ex(data, field);
      if Within(fv, from, upto) && fv.Str? { NotBetween(from.s, fv.s, upto.s); }
    case And(children) =>
      var i :| 0 <= i < |children| && Inverted(children[i], ixs);
      PanicsIff(children[i], ixs);
      InvertedRangePanics(children[i], ixs, data, ex);
  }

  lemma NotBetween(from: seq<Byte>, s: seq<Byte>, upto: seq<Byte>)
    requires OfStrings(s, from) != Less && OfStrings(s, upto) != Greater
    ensures OfStrings(from, upto) != Greater
  {
    LexTotal(s, from);
    LexTotal(s, upto);
    LexTotal(from, upto);
    if Lex(from, s) && Lex(s, upto) { LexTransitive(from, s, upto); }
  }
}
