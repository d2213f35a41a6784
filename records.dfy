/** A record: an ordered list of named fields, as the reader's `ExpandoObject`
    and the writer's `Dictionary<string, object>` hold them. Field order is
    insertion order. */
module Records {
  import opened Wrappers

  datatype Field<V> = Field(name: string, value: V)

  type Record<V> = seq<Field<V>>

  /** The field names, in record order (`Keys` of the dictionary). */
  function Keys<V>(r: Record<V>): (ks: seq<string>)
    ensures |ks| == |r|
    ensures forall i :: 0 <= i < |r| ==> ks[i] == r[i].name
  {
    if r == [] then [] else [r[0].name] + Keys(r[1..])
  }

  ghost predicate Distinct(s: seq<string>)
  {
    forall i, j :: 0 <= i < j < |s| ==> s[i] != s[j]
  }

  /** No name occurs twice: what a dictionary guarantees of its keys. */
  ghost predicate DistinctKeys<V>(r: Record<V>)
  {
    Distinct(Keys(r))
  }

  /** The indexer's read `r[k]`: the value of the field named `k`, or `None`
      when there is none (a `KeyNotFoundException` in the source). */
  function Lookup<V>(r: Record<V>, k: string): (v: Option<V>)
    ensures v.None? <==> k !in Keys(r)
  {
    if r == [] then None
    else if r[0].name == k then Some(r[0].value)
    else Lookup(r[1..], k)
  }

  /** The indexer's write `r[k] = v`. */
  function Put<V>(r: Record<V>, k: string, v: V): Record<V>
  {
    if r == [] then [Field(k, v)]
    else if r[0].name == k then [Field(k, v)] + r[1..]
    else [r[0]] + Put(r[1..], k, v)
  }

  /** A field named `k` that is already there keeps its place and takes the
      new value; otherwise the field is appended. */
  lemma {:induction false} PutSpec<V>(r: Record<V>, k: string, v: V)
    ensures Keys(Put(r, k, v)) == if k in Keys(r) then Keys(r) else Keys(r) + [k]
    ensures Lookup(Put(r, k, v), k) == Some(v)
  {
    if r == [] {
      assert Keys(Put(r, k, v)) == [k];
    } else {
      var tail := r[1..];
      assert Keys(r) == [r[0].name] + Keys(tail);
      if r[0].name == k {
        var r' := [Field(k, v)] + tail;
        assert Put(r, k, v) == r';
        assert r'[1..] == tail;
        assert Keys(r') == [k] + Keys(tail);
      } else {
        var p := Put(tail, k, v);
        var r' := [r[0]] + p;
        assert Put(r, k, v) == r';
        assert r'[1..] == p;
        assert Keys(r') == [r[0].name] + Keys(p);
        PutSpec(tail, k, v);
        assert k in Keys(r) <==> k in Keys(tail);
      }
    }
  }

  /** Writing under `k` leaves the value of every other name as it was. */
  lemma {:induction false} PutOther<V>(r: Record<V>, k: string, v: V, k': string)
    requires k' != k
    ensures Lookup(Put(r, k, v), k') == Lookup(r, k')
  {
    if r != [] {
      var r' := Put(r, k, v);
      assert r'[1..] == if r[0].name == k then r[1..] else Put(r[1..], k, v);
      if r[0].name != k {
        PutOther(r[1..], k, v, k');
      }
    }
  }

  /** Writing through the indexer keeps the names of a record distinct. */
  lemma PutDistinct<V>(r: Record<V>, k: string, v: V)
    requires DistinctKeys(r)
    ensures DistinctKeys(Put(r, k, v))
  {
    PutSpec(r, k, v);
    var ks, ks' := Keys(r), Keys(Put(r, k, v));
    if k !in ks {
      forall i, j | 0 <= i < j < |ks'| ensures ks'[i] != ks'[j] {
        if j == |ks| { assert ks'[i] == ks[i]; }
      }
    }
  }

  /** Index of the first occurrence of `k` in `s`. */
  function FirstIndex(s: seq<string>, k: string): (i: nat)
    requires k in s
    ensures i < |s| && s[i] == k && k !in s[..i]
  {
    if s[0] == k then 0 else 1 + FirstIndex(s[1..], k)
  }

  /** Index of the last occurrence of `k` in `s`. */
  function LastIndex(s: seq<string>, k: string): (i: nat)
    requires k in s
    ensures i < |s| && s[i] == k && k !in s[i + 1..]
  {
    if s[|s| - 1] == k then |s| - 1 else LastIndex(s[..|s| - 1], k)
  }

  /** The record built by writing `values[c]` under `names[c]` for
      c = 0, 1, ... in turn through the indexer. */
  function FromColumns<V>(names: seq<string>, values: seq<V>): Record<V>
    requires |names| == |values|
  {
    if names == [] then []
    else
      var n := |names| - 1;
      Put(FromColumns(names[..n], values[..n]), names[n], values[n])
  }

  /** `ks` lists names in the order in which they first occur in `names`. */
  ghost predicate InFirstOccurrenceOrder(ks: seq<string>, names: seq<string>)
  {
    forall i, j :: 0 <= i < j < |ks| && ks[i] in names && ks[j] in names ==>
      FirstIndex(names, ks[i]) < FirstIndex(names, ks[j])
  }

  /** The fields of `FromColumns(names, values)` are the distinct names, each
      once, ordered by where each name first occurs in `names`. */
  lemma {:induction false} FromColumnsKeys<V>(names: seq<string>, values: seq<V>)
    requires |names| == |values|
    ensures DistinctKeys(FromColumns(names, values))
    ensures forall k :: k in Keys(FromColumns(names, values)) <==> k in names
    ensures InFirstOccurrenceOrder(Keys(FromColumns(names, values)), names)
  {
    if names != [] {
      var n := |names| - 1;
      var init, x := names[..n], names[n];
      assert names == init + [x];
      var r0 := FromColumns(init, values[..n]);
      var r := Put(r0, x, values[n]);
      assert FromColumns(names, values) == r;
      FromColumnsKeys(init, values[..n]);
      PutSpec(r0, x, values[n]);
      PutDistinct(r0, x, values[n]);
      var ks0 := Keys(r0);
      if x !in init {
        assert Keys(r) == ks0 + [x];
        AppendFirstOccurrence(ks0, init, x);
      } else {
        assert Keys(r) == ks0;
        AppendOldOccurrence(ks0, init, x);
      }
    }
  }

  /** Appending a name already present to the names keeps first-occurrence order. */
  lemma AppendOldOccurrence(ks: seq<string>, init: seq<string>, x: string)
    requires InFirstOccurrenceOrder(ks, init)
    requires x in init
    ensures InFirstOccurrenceOrder(ks, init + [x])
    ensures forall k :: k in init + [x] <==> k in init
  {
    var names := init + [x];
    forall k | k in init ensures FirstIndex(names, k) == FirstIndex(init, k) {
      FirstIndexPrefix(init, x, k);
    }
  }

  /** Appending a new name to both lists keeps first-occurrence order. */
  lemma AppendFirstOccurrence(ks: seq<string>, init: seq<string>, x: string)
    requires InFirstOccurrenceOrder(ks, init)
    requires forall k :: k in ks <==> k in init
    requires x !in init
    ensures InFirstOccurrenceOrder(ks + [x], init + [x])
  {
    var names := init + [x];
    forall k | k in init ensures FirstIndex(names, k) == FirstIndex(init, k) {
      FirstIndexPrefix(init, x, k);
    }
    assert FirstIndex(names, x) == |init| by {
      assert names[|init|] == x;
    }
  }

  lemma {:induction false} FirstIndexPrefix(init: seq<string>, x: string, k: string)
    requires k in init
    ensures FirstIndex(init + [x], k) == FirstIndex(init, k)
  {
    if init[0] != k {
      assert (init + [x])[1..] == init[1..] + [x];
      FirstIndexPrefix(init[1..], x, k);
    }
  }

  /** A name that occurs several times in `names` takes the value of its
      last column: the later write through the indexer overwrote the earlier. */
  lemma {:induction false} FromColumnsValues<V>(names: seq<string>, values: seq<V>, k: string)
    requires |names| == |values|
    requires k in names
    ensures Lookup(FromColumns(names, values), k) == Some(values[LastIndex(names, k)])
  {
    var n := |names| - 1;
    var init, x := names[..n], names[n];
    var r0 := FromColumns(init, values[..n]);
    assert FromColumns(names, values) == Put(r0, x, values[n]);
    if x == k {
      PutSpec(r0, x, values[n]);
    } else {
      assert k in init;
      var m := LastIndex(init, k);
      FromColumnsValues(init, values[..n], k);
      PutOther(r0, x, values[n], k);
      assert LastIndex(names, k) == m;
      assert values[..n][m] == values[m];
    }
  }

  /** The columns paired up, one field per column, in column order. */
  function Zip<V>(names: seq<string>, values: seq<V>): (r: Record<V>)
    requires |names| == |values|
    ensures |r| == |names|
    ensures forall i :: 0 <= i < |r| ==> r[i] == Field(names[i], values[i])
  {
    seq(|names|, i requires 0 <= i < |names| => Field(names[i], values[i]))
  }

  /** With distinct names, the record is the columns zipped in order. */
  lemma {:induction false} FromColumnsDistinct<V>(names: seq<string>, values: seq<V>)
    requires |names| == |values|
    requires Distinct(names)
    ensures FromColumns(names, values) == Zip(names, values)
  {
    if names != [] {
      var n := |names| - 1;
      FromColumnsDistinct(names[..n], values[..n]);
      var r0 := FromColumns(names[..n], values[..n]);
      var z0 := Zip(names[..n], values[..n]);
      forall i | 0 <= i < n ensures Keys(z0)[i] != names[n] {
        assert z0[i].name == names[i];
      }
      PutFresh(r0, names[n], values[n]);
      ZipSnoc(names, values);
    }
  }

  /** Zipping one more column appends one field. */
  lemma ZipSnoc<V>(names: seq<string>, values: seq<V>)
    requires |names| == |values| && names != []
    ensures var n := |names| - 1;
            Zip(names, values) == Zip(names[..n], values[..n]) + [Field(names[n], values[n])]
  {
    var n := |names| - 1;
    var z, z0 := Zip(names, values), Zip(names[..n], values[..n]);
    forall i | 0 <= i < |names| ensures z[i] == (z0 + [Field(names[n], values[n])])[i] {
      if i < n {
        assert z0[i] == Field(names[i], values[i]);
      }
    }
  }

  /** Writing a name the record does not have appends one field at the end. */
  lemma {:induction false} PutFresh<V>(r: Record<V>, k: string, v: V)
    requires k !in Keys(r)
    ensures Put(r, k, v) == r + [Field(k, v)]
  {
    if r != [] {
      assert Keys(r) == [r[0].name] + Keys(r[1..]);
      PutFresh(r[1..], k, v);
      assert r == [r[0]] + r[1..];
    }
  }

  /** In a record with distinct names, looking up the name of field `j`
      finds field `j`'s value. */
  lemma {:induction false} LookupAt<V>(r: Record<V>, j: nat)
    requires j < |r|
    requires DistinctKeys(r)
    ensures Lookup(r, r[j].name) == Some(r[j].value)
  {
    if j > 0 {
      assert Keys(r)[0] != Keys(r)[j];
      assert Keys(r[1..]) == Keys(r)[1..];
      LookupAt(r[1..], j - 1);
    }
  }
}
