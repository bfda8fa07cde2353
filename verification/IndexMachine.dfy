/** An index as the object a store keeps: buckets updated in place. */
module IndexMachine {
  import opened FieldValues
  import S = Indexing
  import P = IndexPlanning
  import opened Sets

  class ValueIndex {
    const kind: S.IndexKind
    var buckets: seq<S.Bucket>
    var filled: bool

    function View(): S.Index
      reads this
    {
      S.Index(kind, buckets, filled)
    }

    constructor (kind: S.IndexKind)
      ensures View() == S.NewIndex(kind)
    {
      this.kind := kind;
      buckets, filled := [], false;
    }

    method Find(v: FieldValue) returns (i: nat)
      ensures i == S.Find(kind, buckets, v)
    {
      i := 0;
      while i < |buckets| && !S.Matches(kind, buckets[i].rep, v)
        invariant i <= |buckets|
        invariant S.Find(kind, buckets, v) == i + S.Find(kind, buckets[i..], v)
      {
        assert buckets[i..][1..] == buckets[i + 1..];
        i := i + 1;
      }
    }

    method Insert(v: FieldValue, key: S.Key)
      modifies this
      ensures View() == S.Insert(old(View()), v, key)
    {
      var i := Find(v);
      filled := true;
      if i < |buckets| {
        buckets := buckets[i := S.Bucket(buckets[i].rep, buckets[i].keys + {key})];
      } else {
        buckets := buckets + [S.Bucket(v, {key})];
      }
    }

    method Remove(v: FieldValue, key: S.Key)
      modifies this
      ensures View() == S.Remove(old(View()), v, key)
    {
      var i := Find(v);
      if i < |buckets| {
        var keys := buckets[i].keys - {key};
        if keys == {} {
          buckets := buckets[..i] + buckets[i + 1..];
        } else {
          buckets := buckets[i := S.Bucket(buckets[i].rep, keys)];
        }
      }
    }

    /** Out with the old value, in with the new one. */
    method Update(ex: S.Extract, field: S.Field, key: S.Key, was: S.Stored, now: S.Stored)
      modifies this
      ensures View() == S.Follow(old(View()), ex, field, key, was, now)
    {
      if was.Present? && !ex(was.data, field).Null? { Remove(ex(was.data, field), key); }
      if now.Present? && !ex(now.data, field).Null? { Insert(ex(now.data, field), key); }
    }

    /** File every entry, in whatever order the table yields them. */
    method Build(ex: S.Extract, field: S.Field, entries: map<S.Key, S.Data>)
      requires buckets == []
      modifies this
      ensures S.Mirrors(View(), ex, field, entries)
    {
      var left := entries.Keys;
      ghost var done: map<S.Key, S.Data> := map[];
      while left != {}
        invariant left <= entries.Keys
        invariant done == map k | k in entries && k !in left :: entries[k]
        invariant S.Mirrors(View(), ex, field, done)
        decreases |left|
      {
        var k := AnyOf(left);
        S.NewMirrored(View(), ex, field, done, k, entries[k]);
        if !ex(entries[k], field).Null? { Insert(ex(entries[k], field), k); }
        left, done := left - {k}, done[k := entries[k]];
      }
      assert done == entries;
    }

    method Query(op: S.Op, pv: FieldValue) returns (out: set<S.Key>)
      ensures out == P.Query(View(), op, pv)
    {
      out := {};
      var i := 0;
      while i < |buckets|
        invariant 0 <= i <= |buckets|
        invariant forall k :: k in out <==>
                    exists j :: 0 <= j < i && P.Reads(kind, op, buckets[j].rep, pv) && k in buckets[j].keys
      {
        if P.Reads(kind, op, buckets[i].rep, pv) { out := out + buckets[i].keys; }
        i := i + 1;
      }
    }

    method QueryBetween(from: FieldValue, upto: FieldValue) returns (out: P.Answer)
      ensures out == P.RangeOf(View(), from, upto)
    {
      if kind.Hash? { return P.Keys({}); }
      if filled && Cmp(from, upto) == Greater { return P.Panic; }
      var keys: set<S.Key> := {};
      var i := 0;
      while i < |buckets|
        invariant 0 <= i <= |buckets|
        invariant forall k :: k in keys <==>
                    exists j :: 0 <= j < i && P.ReadsBetween(buckets[j].rep, from, upto) && k in buckets[j].keys
      {
        if P.ReadsBetween(buckets[i].rep, from, upto) { keys := keys + buckets[i].keys; }
        i := i + 1;
      }
      out := P.Keys(keys);
    }
  }
}
