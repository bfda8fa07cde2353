/** Indexes over map entries (crates/query/src/index.rs): value buckets, their
    maintenance, and the sets of keys a query reads from them. */
module Indexing {
  import opened Bytes
  import opened FieldValues

  type Key = seq<Byte>
  type Data = seq<Byte>
  type Field = string

  /** What a field of a stored value holds; any function. */
  type Extract = (Data, Field) -> FieldValue

  datatype IndexKind = Sorted | Hash

  datatype Bucket = Bucket(rep: FieldValue, keys: set<Key>)

  /** Buckets in no significant order, since a query's answer is a set; `filled`
      says whether a key was ever filed, after which the tree behind a sorted index
      has a root for good. */
  datatype Index = Index(kind: IndexKind, buckets: seq<Bucket>, filled: bool)

  function NewIndex(kind: IndexKind): Index {
    Index(kind, [], false)
  }

  datatype Op = Eq | NotEq | Lt | Le | Gt | Ge

  /** A lookup of `v` finds a bucket filed under `rep`. */
  predicate Matches(kind: IndexKind, rep: FieldValue, v: FieldValue) {
    if kind.Sorted? then Cmp(rep, v) == Equal else SameHash(rep, v)
  }

  lemma MatchesSymmetric(kind: IndexKind, a: FieldValue, b: FieldValue)
    requires Matches(kind, a, b)
    ensures Matches(kind, b, a)
  {
    if kind.Sorted? { CmpCongruent(a, b, a); }
  }

  lemma MatchesTransitive(kind: IndexKind, a: FieldValue, b: FieldValue, c: FieldValue)
    requires Matches(kind, a, b) && Matches(kind, b, c)
    ensures Matches(kind, a, c)
  {
    if kind.Sorted? { CmpCongruent(a, b, c); }
  }

  /** The position of the first bucket that `v` finds, or the number of buckets. */
  function Find(kind: IndexKind, bs: seq<Bucket>, v: FieldValue): (i: nat)
    ensures i <= |bs|
    ensures i < |bs| ==> Matches(kind, bs[i].rep, v)
    ensures forall j :: 0 <= j < i ==> !Matches(kind, bs[j].rep, v)
  {
    if bs == [] then 0
    else if Matches(kind, bs[0].rep, v) then 0
    else 1 + Find(kind, bs[1..], v)
  }

  function Insert(ix: Index, v: FieldValue, key: Key): Index {
    var i := Find(ix.kind, ix.buckets, v);
    if i < |ix.buckets|
    then ix.(filled := true, buckets := ix.buckets[i := Bucket(ix.buckets[i].rep, ix.buckets[i].keys + {key})])
    else ix.(filled := true, buckets := ix.buckets + [Bucket(v, {key})])
  }

  /** Take `key` out of bucket `i`, and the bucket with its last key. */
  function TakeOut(bs: seq<Bucket>, i: nat, key: Key): seq<Bucket>
    requires i < |bs|
  {
    var keys := bs[i].keys - {key};
    if keys == {} then bs[..i] + bs[i + 1..] else bs[i := Bucket(bs[i].rep, keys)]
  }

  function Remove(ix: Index, v: FieldValue, key: Key): Index {
    var i := Find(ix.kind, ix.buckets, v);
    if i == |ix.buckets| then ix else ix.(buckets := TakeOut(ix.buckets, i, key))
  }

  // ---------- what an index holds ----------

  /** Filed under `rep`, `key` is really an entry with a matching value; except
      that hash buckets of not-a-numbers are never found again. */
  predicate Genuine(ix: Index, ex: Extract, field: Field, entries: map<Key, Data>, rep: FieldValue, key: Key) {
    || (ix.kind.Hash? && rep.F64? && rep.f.Nan?)
    || (key in entries && !rep.Null? && Matches(ix.kind, rep, ex(entries[key], field)))
  }

  predicate Filed(ix: Index, i: int, key: Key) {
    0 <= i < |ix.buckets| && key in ix.buckets[i].keys
  }

  predicate Findable(ix: Index, v: FieldValue, key: Key) {
    var i := Find(ix.kind, ix.buckets, v);
    i < |ix.buckets| && key in ix.buckets[i].keys
  }

  /** Values an index files so that a lookup finds them again. */
  predicate Indexed(kind: IndexKind, v: FieldValue) {
    !v.Null? && Matches(kind, v, v)
  }

  ghost predicate Apart(ix: Index) {
    forall i, j :: 0 <= i < j < |ix.buckets| ==> !Matches(ix.kind, ix.buckets[i].rep, ix.buckets[j].rep)
  }

  ghost predicate AllGenuine(ix: Index, ex: Extract, field: Field, entries: map<Key, Data>) {
    forall i, key {:trigger Filed(ix, i, key)} ::
      Filed(ix, i, key) ==> Genuine(ix, ex, field, entries, ix.buckets[i].rep, key)
  }

  ghost predicate AllFindable(ix: Index, ex: Extract, field: Field, entries: map<Key, Data>) {
    forall key :: key in entries && Indexed(ix.kind, ex(entries[key], field)) ==>
      Findable(ix, ex(entries[key], field), key)
  }

  /** Every entry is found in the index. */
  ghost predicate Covers(ix: Index, ex: Extract, field: Field, entries: map<Key, Data>) {
    Apart(ix) && AllFindable(ix, ex, field, entries)
  }

  /** ... and nothing else is. */
  ghost predicate Mirrors(ix: Index, ex: Extract, field: Field, entries: map<Key, Data>) {
    Covers(ix, ex, field, entries) && AllGenuine(ix, ex, field, entries)
  }

  /** With buckets apart, a bucket that matches is the one found. */
  lemma FoundIs(ix: Index, v: FieldValue, i: nat)
    requires Apart(ix) && i < |ix.buckets| && Matches(ix.kind, ix.buckets[i].rep, v)
    ensures Find(ix.kind, ix.buckets, v) == i
  {
    var f := Find(ix.kind, ix.buckets, v);
    if f < i {
      MatchesSymmetric(ix.kind, ix.buckets[i].rep, v);
      MatchesTransitive(ix.kind, ix.buckets[f].rep, v, ix.buckets[i].rep);
    }
  }

  // ---------- insertion ----------

  lemma InsertApart(ix: Index, v: FieldValue, key: Key)
    requires Apart(ix)
    ensures Apart(Insert(ix, v, key))
  {
  }

  lemma InsertGenuine(ix: Index, ex: Extract, field: Field, entries: map<Key, Data>, v: FieldValue, key: Key)
    requires AllGenuine(ix, ex, field, entries)
    requires key in entries && v == ex(entries[key], field) && !v.Null?
    ensures AllGenuine(Insert(ix, v, key), ex, field, entries)
  {
    var ix' := Insert(ix, v, key);
    forall i, k | Filed(ix', i, k) ensures Genuine(ix', ex, field, entries, ix'.buckets[i].rep, k) {
      if Filed(ix, i, k) {
        assert Genuine(ix, ex, field, entries, ix.buckets[i].rep, k);
      } else if i == |ix.buckets| && !Matches(ix.kind, v, v) {
        NotReflexive(ix.kind, v);
      }
    }
  }

  lemma NotReflexive(kind: IndexKind, v: FieldValue)
    requires !Matches(kind, v, v)
    ensures kind.Hash? && v.F64? && v.f.Nan?
  {
  }

  lemma InsertFinds(ix: Index, v: FieldValue, key: Key)
    requires Apart(ix) && Matches(ix.kind, v, v)
    ensures Findable(Insert(ix, v, key), v, key)
  {
    var ix', i := Insert(ix, v, key), Find(ix.kind, ix.buckets, v);
    InsertApart(ix, v, key);
    FoundIs(ix', v, i);
  }

  lemma InsertKeeps(ix: Index, v: FieldValue, key: Key, w: FieldValue, k: Key)
    requires Apart(ix) && Findable(ix, w, k)
    ensures Findable(Insert(ix, v, key), w, k)
  {
    InsertApart(ix, v, key);
    FoundIs(Insert(ix, v, key), w, Find(ix.kind, ix.buckets, w));
  }

  // ---------- removal ----------

  lemma RemoveApart(ix: Index, v: FieldValue, key: Key)
    requires Apart(ix)
    ensures Apart(Remove(ix, v, key))
  {
  }

  /** Where bucket `i` of the shorter list was. */
  function Was(bs: seq<Bucket>, f: nat, key: Key, i: nat): nat
    requires f < |bs|
  {
    if bs[f].keys - {key} == {} && i >= f then i + 1 else i
  }

  lemma TakenOut(bs: seq<Bucket>, f: nat, key: Key, i: nat)
    requires f < |bs| && i < |TakeOut(bs, f, key)|
    ensures var b, j := TakeOut(bs, f, key)[i], Was(bs, f, key, i);
            && j < |bs|
            && b.rep == bs[j].rep
            && b.keys == if j == f then bs[f].keys - {key} else bs[j].keys
  {
  }

  lemma RemoveKeeps(ix: Index, v: FieldValue, key: Key, w: FieldValue, k: Key)
    requires Apart(ix) && Findable(ix, w, k) && k != key
    ensures Findable(Remove(ix, v, key), w, k)
  {
    var bs, f, g := ix.buckets, Find(ix.kind, ix.buckets, v), Find(ix.kind, ix.buckets, w);
    RemoveApart(ix, v, key);
    if f < |bs| {
      assert f == g ==> k in bs[f].keys - {key};
      var i := if bs[f].keys - {key} == {} && g > f then g - 1 else g;
      TakenOut(bs, f, key, i);
      FoundIs(Remove(ix, v, key), w, i);
    }
  }

  lemma StillFiled(ix: Index, v: FieldValue, key: Key, i: nat, k: Key)
    requires Filed(Remove(ix, v, key), i, k)
    ensures exists j :: Filed(ix, j, k) && ix.buckets[j].rep == Remove(ix, v, key).buckets[i].rep
  {
    var bs, f := ix.buckets, Find(ix.kind, ix.buckets, v);
    if f < |bs| {
      TakenOut(bs, f, key, i);
      assert Filed(ix, Was(bs, f, key, i), k);
    } else {
      assert Filed(ix, i, k);
    }
  }

  /** Removed under its old value, a key is filed nowhere but among lost
      not-a-numbers. */
  lemma RemoveForgets(ix: Index, ex: Extract, field: Field, entries: map<Key, Data>, key: Key, i: int)
    requires Apart(ix) && AllGenuine(ix, ex, field, entries) && key in entries
    requires Filed(Remove(ix, ex(entries[key], field), key), i, key)
    ensures var rep := Remove(ix, ex(entries[key], field), key).buckets[i].rep; ix.kind.Hash? && rep.F64? && rep.f.Nan?
  {
    var v := ex(entries[key], field);
    var f := Find(ix.kind, ix.buckets, v);
    var j: nat := i;
    if f < |ix.buckets| {
      TakenOut(ix.buckets, f, key, i);
      j := Was(ix.buckets, f, key, i);
    }
    assert Filed(ix, j, key);
    if Matches(ix.kind, ix.buckets[j].rep, v) { FoundIs(ix, v, j); }
  }

  // ---------- following the entries ----------

  datatype Stored = Absent | Present(data: Data)

  function Lookup(entries: map<Key, Data>, key: Key): Stored {
    if key in entries then Present(entries[key]) else Absent
  }

  /** What a change of one entry does to an index: out with the old value, in with
      the new one; null values are not filed. */
  function Follow(ix: Index, ex: Extract, field: Field, key: Key, old_: Stored, new_: Stored): Index {
    var gone := if old_.Present? && !ex(old_.data, field).Null? then Remove(ix, ex(old_.data, field), key) else ix;
    if new_.Present? && !ex(new_.data, field).Null? then Insert(gone, ex(new_.data, field), key) else gone
  }

  function Changed(entries: map<Key, Data>, key: Key, new_: Stored): map<Key, Data> {
    if new_.Present? then entries[key := new_.data] else entries - {key}
  }

  lemma GenuineElsewhere(ix: Index, ix': Index, ex: Extract, field: Field, entries: map<Key, Data>,
                         entries': map<Key, Data>, rep: FieldValue, k: Key)
    requires ix.kind == ix'.kind && Genuine(ix, ex, field, entries, rep, k)
    requires k in entries ==> k in entries' && entries'[k] == entries[k]
    ensures Genuine(ix', ex, field, entries', rep, k)
  {
  }

  /** Taking the old value out leaves the other entries findable. */
  lemma OldUncovered(ix: Index, ex: Extract, field: Field, entries: map<Key, Data>, key: Key)
    requires Covers(ix, ex, field, entries)
    ensures Covers(Follow(ix, ex, field, key, Lookup(entries, key), Absent), ex, field, entries - {key})
  {
    var ix', rest := Follow(ix, ex, field, key, Lookup(entries, key), Absent), entries - {key};
    if key in entries && !ex(entries[key], field).Null? {
      var v := ex(entries[key], field);
      RemoveApart(ix, v, key);
      forall k | k in rest && Indexed(ix.kind, ex(rest[k], field)) ensures Findable(ix', ex(rest[k], field), k) {
        RemoveKeeps(ix, v, key, ex(rest[k], field), k);
      }
    }
  }

  /** ... and the index genuine. */
  lemma OldGoes(ix: Index, ex: Extract, field: Field, entries: map<Key, Data>, key: Key)
    requires Mirrors(ix, ex, field, entries)
    ensures AllGenuine(Follow(ix, ex, field, key, Lookup(entries, key), Absent), ex, field, entries - {key})
  {
    var ix', rest := Follow(ix, ex, field, key, Lookup(entries, key), Absent), entries - {key};
    if key in entries && !ex(entries[key], field).Null? {
      var v := ex(entries[key], field);
      forall i, k | Filed(ix', i, k) ensures Genuine(ix', ex, field, rest, ix'.buckets[i].rep, k) {
        if k == key {
          RemoveForgets(ix, ex, field, entries, key, i);
        } else {
          StillFiled(ix, v, key, i, k);
          GenuineElsewhere(ix, ix', ex, field, entries, rest, ix'.buckets[i].rep, k);
        }
      }
    } else {
      forall i, k | Filed(ix', i, k) ensures Genuine(ix', ex, field, rest, ix'.buckets[i].rep, k) {
        assert Genuine(ix, ex, field, entries, ix.buckets[i].rep, k);
        if k == key && key in entries { NullMatches(ix.kind, ix.buckets[i].rep); }
      }
    }
  }

  lemma NullMatches(kind: IndexKind, rep: FieldValue)
    ensures Matches(kind, rep, Null) ==> rep == Null
  {
  }

  /** Putting the new value in makes it findable too. */
  lemma NewCovered(ix: Index, ex: Extract, field: Field, rest: map<Key, Data>, key: Key, data: Data)
    requires Covers(ix, ex, field, rest) && key !in rest
    ensures Covers(Follow(ix, ex, field, key, Absent, Present(data)), ex, field, rest[key := data])
  {
    var ix', all, v := Follow(ix, ex, field, key, Absent, Present(data)), rest[key := data], ex(data, field);
    if !v.Null? {
      InsertApart(ix, v, key);
      forall k | k in all && Indexed(ix.kind, ex(all[k], field)) ensures Findable(ix', ex(all[k], field), k) {
        if k == key { InsertFinds(ix, v, key); } else { InsertKeeps(ix, v, key, ex(all[k], field), k); }
      }
    }
  }

  lemma NewComes(ix: Index, ex: Extract, field: Field, rest: map<Key, Data>, key: Key, data: Data)
    requires AllGenuine(ix, ex, field, rest) && key !in rest
    ensures AllGenuine(Follow(ix, ex, field, key, Absent, Present(data)), ex, field, rest[key := data])
  {
    var all, v := rest[key := data], ex(data, field);
    forall i, k | Filed(ix, i, k) ensures Genuine(ix, ex, field, all, ix.buckets[i].rep, k) {
      GenuineElsewhere(ix, ix, ex, field, rest, all, ix.buckets[i].rep, k);
    }
    if !v.Null? { InsertGenuine(ix, ex, field, all, v, key); }
  }

  lemma NewMirrored(ix: Index, ex: Extract, field: Field, rest: map<Key, Data>, key: Key, data: Data)
    requires Mirrors(ix, ex, field, rest) && key !in rest
    ensures Mirrors(Follow(ix, ex, field, key, Absent, Present(data)), ex, field, rest[key := data])
  {
    NewCovered(ix, ex, field, rest, key, data);
    NewComes(ix, ex, field, rest, key, data);
  }

  /** Every change of an entry keeps its indexes finding all entries, and an index
      that mirrored the entries mirrors them still. */
  lemma FollowMirrors(ix: Index, ex: Extract, field: Field, entries: map<Key, Data>, key: Key, new_: Stored)
    requires Covers(ix, ex, field, entries)
    ensures var ix', entries' := Follow(ix, ex, field, key, Lookup(entries, key), new_), Changed(entries, key, new_);
            && Covers(ix', ex, field, entries')
            && (Mirrors(ix, ex, field, entries) ==> Mirrors(ix', ex, field, entries'))
  {
    var gone, rest := Follow(ix, ex, field, key, Lookup(entries, key), Absent), entries - {key};
    OldUncovered(ix, ex, field, entries, key);
    if Mirrors(ix, ex, field, entries) { OldGoes(ix, ex, field, entries, key); }
    if new_.Present? {
      NewCovered(gone, ex, field, rest, key, new_.data);
      if AllGenuine(gone, ex, field, rest) { NewComes(gone, ex, field, rest, key, new_.data); }
      assert rest[key := new_.data] == entries[key := new_.data];
    }
  }
}
