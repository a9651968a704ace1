/**
 A SQL table with an INTEGER PRIMARY KEY and one UNIQUE key, as the sequence of its rows in id order.
 `data` holds the columns a conflicting insert overwrites, `meta` the columns it leaves alone.
 */
module Tables {
  import opened Text

  datatype Row<K, D, M> = Row(id: int, key: K, data: D, meta: M)

  type Table<K, D, M> = seq<Row<K, D, M>>

  datatype Change<K, D> = Change(key: K, data: D)

  ghost predicate Valid<K, D, M>(t: Table<K, D, M>) {
    && (forall i :: 0 <= i < |t| ==> t[i].id >= 1)
    && (forall i, j :: 0 <= i < j < |t| ==> t[i].id < t[j].id && t[i].key != t[j].key)
  }

  function Keys<K(==), D, M>(t: Table<K, D, M>): set<K> {
    set i | 0 <= i < |t| :: t[i].key
  }

  /** The position of key `k`, or |t|. */
  function Find<K(==), D, M>(t: Table<K, D, M>, k: K): (i: nat)
    ensures i <= |t|
    ensures i < |t| ==> t[i].key == k
    ensures forall j :: 0 <= j < i ==> t[j].key != k
    ensures k in Keys(t) <==> i < |t|
  {
    if t == [] then 0
    else if t[0].key == k then assert t[0].key in Keys(t); 0
    else
      var r := Find(t[1..], k);
      assert r < |t| - 1 ==> t[r + 1].key in Keys(t);
      r + 1
  }

  function Data<K(==), D, M>(t: Table<K, D, M>, k: K): Option<D> {
    var i := Find(t, k);
    if i < |t| then Some(t[i].data) else None
  }

  /** max(id) + 1, the id SQLite gives a new row. */
  function NextId<K, D, M>(t: Table<K, D, M>): int {
    if t == [] then 1 else t[|t| - 1].id + 1
  }

  /** INSERT ... ON CONFLICT(key) DO UPDATE: an existing row keeps its id and meta columns. */
  function Upsert<K(==), D, M>(t: Table<K, D, M>, k: K, d: D, init: M): Table<K, D, M> {
    var i := Find(t, k);
    if i < |t| then t[i := t[i].(data := d)] else t + [Row(NextId(t), k, d, init)]
  }

  function UpsertAll<K(==), D, M>(t: Table<K, D, M>, cs: seq<Change<K, D>>, init: M): Table<K, D, M> {
    if cs == [] then t else
      var c := cs[|cs| - 1];
      Upsert(UpsertAll(t, cs[..|cs| - 1], init), c.key, c.data, init)
  }

  /** The last value the changes ask for at key `k`. */
  function Wanted<K(==), D>(cs: seq<Change<K, D>>, k: K): Option<D> {
    if cs == [] then None
    else if cs[|cs| - 1].key == k then Some(cs[|cs| - 1].data)
    else Wanted(cs[..|cs| - 1], k)
  }

  ghost function ChangedKeys<K, D>(cs: seq<Change<K, D>>): set<K> {
    set i | 0 <= i < |cs| :: cs[i].key
  }

  /** DELETE of every row whose key is in `gone`. */
  function Drop<K(==), D, M>(t: Table<K, D, M>, gone: set<K>): Table<K, D, M> {
    if t == [] then [] else
      var last := t[|t| - 1];
      Drop(t[..|t| - 1], gone) + if last.key in gone then [] else [last]
  }

  /** The changes that the listed items ask for; an item may ask for none. */
  function Collect<R, K, D>(items: seq<R>, ask: R -> Option<Change<K, D>>): seq<Change<K, D>> {
    if items == [] then [] else
      var c := ask(items[|items| - 1]);
      Collect(items[..|items| - 1], ask) + if c.Some? then [c.value] else []
  }

  lemma {:induction false} CollectStep<R, K, D>(items: seq<R>, ask: R -> Option<Change<K, D>>, i: nat)
    requires i < |items|
    ensures ask(items[i]).Some? ==> Collect(items[..i + 1], ask) == Collect(items[..i], ask) + [ask(items[i]).value]
    ensures ask(items[i]).None? ==> Collect(items[..i + 1], ask) == Collect(items[..i], ask)
  {
    assert items[..i + 1][..i] == items[..i];
    assert Collect(items[..i], ask) + [] == Collect(items[..i], ask);
  }

  lemma {:induction false} CollectFromAll<R, K, D>(items: seq<R>, ask: R -> Option<Change<K, D>>)
    requires forall i :: 0 <= i < |items| ==> ask(items[i]).Some?
    ensures |Collect(items, ask)| == |items|
    ensures forall i :: 0 <= i < |items| ==> Collect(items, ask)[i] == ask(items[i]).value
  {
    if items != [] {
      CollectFromAll(items[..|items| - 1], ask);
    }
  }

  lemma {:induction false} CollectedChange<R, K, D>(items: seq<R>, ask: R -> Option<Change<K, D>>, c: Change<K, D>)
    requires c in Collect(items, ask)
    ensures exists i :: 0 <= i < |items| && ask(items[i]) == Some(c)
  {
    var n := |items| - 1;
    if ask(items[n]) != Some(c) {
      var rest := Collect(items[..n], ask);
      assert c in rest;
      CollectedChange(items[..n], ask, c);
    }
  }

  lemma {:induction false} CollectedHas<R, K, D>(items: seq<R>, ask: R -> Option<Change<K, D>>, i: nat)
    requires i < |items| && ask(items[i]).Some?
    ensures ask(items[i]).value in Collect(items, ask) && ask(items[i]).value.key in ChangedKeys(Collect(items, ask))
  {
    var n := |items| - 1;
    if i < n {
      CollectedHas(items[..n], ask, i);
    }
    var c, cs := ask(items[i]).value, Collect(items, ask);
    assert c in cs;
    var j :| 0 <= j < |cs| && cs[j] == c;
    assert cs[j].key in ChangedKeys(cs);
  }

  lemma {:induction false} CollectedFrom<R, K, D>(items: seq<R>, ask: R -> Option<Change<K, D>>, k: K)
    requires k in ChangedKeys(Collect(items, ask))
    ensures exists i :: 0 <= i < |items| && ask(items[i]).Some? && ask(items[i]).value.key == k
  {
    var n := |items| - 1;
    var c := ask(items[n]);
    if c.None? || c.value.key != k {
      var rest := Collect(items[..n], ask);
      assert Collect(items, ask) == rest + if c.Some? then [c.value] else [];
      var j :| 0 <= j < |Collect(items, ask)| && Collect(items, ask)[j].key == k;
      assert rest[j].key == k;
      CollectedFrom(items[..n], ask, k);
    }
  }

  // ---------------------------------------------------------------- single statements

  lemma {:induction false} FindIn<K, D, M>(t: Table<K, D, M>, i: nat)
    requires Valid(t) && i < |t|
    ensures Find(t, t[i].key) == i && Data(t, t[i].key) == Some(t[i].data)
  {
    assert t[i].key in Keys(t);
  }

  lemma {:induction false} UpsertKeepsValid<K, D, M>(t: Table<K, D, M>, k: K, d: D, init: M)
    requires Valid(t)
    ensures Valid(Upsert(t, k, d, init))
    ensures Keys(Upsert(t, k, d, init)) == Keys(t) + {k}
  {
    var u := Upsert(t, k, d, init);
    var i := Find(t, k);
    assert u[i].key == k;
    assert forall j :: 0 <= j < |t| ==> u[j].key == t[j].key && u[j].id == t[j].id;
    forall x | x in Keys(t) + {k}
      ensures x in Keys(u)
    {
      if x in Keys(t) {
        var j :| 0 <= j < |t| && t[j].key == x;
        assert u[j].key == x;
      }
    }
  }

  lemma {:induction false} UpsertData<K, D, M>(t: Table<K, D, M>, k: K, d: D, init: M, x: K)
    requires Valid(t)
    ensures Data(Upsert(t, k, d, init), x) == if x == k then Some(d) else Data(t, x)
  {
    var u := Upsert(t, k, d, init);
    UpsertKeepsValid(t, k, d, init);
    var i := Find(t, k);
    FindIn(u, i);
    var j := Find(t, x);
    if j < |t| && x != k {
      FindIn(u, j);
    }
  }

  lemma {:induction false} DropMember<K, D, M>(t: Table<K, D, M>, gone: set<K>, r: Row<K, D, M>)
    ensures r in Drop(t, gone) <==> r in t && r.key !in gone
  {
    if t != [] {
      var n := |t| - 1;
      DropMember(t[..n], gone, r);
      assert t == t[..n] + [t[n]];
    }
  }

  lemma {:induction false} DropIn<K, D, M>(t: Table<K, D, M>, gone: set<K>)
    ensures forall r :: r in Drop(t, gone) <==> r in t && r.key !in gone
  {
    forall r
      ensures r in Drop(t, gone) <==> r in t && r.key !in gone
    {
      DropMember(t, gone, r);
    }
  }

  lemma {:induction false} DropOrdered<K, D, M>(t: Table<K, D, M>, gone: set<K>)
    requires Valid(t)
    ensures Valid(Drop(t, gone))
  {
    if t != [] {
      var n := |t| - 1;
      DropOrdered(t[..n], gone);
      var v := Drop(t[..n], gone);
      forall i | 0 <= i < |v|
        ensures v[i].id < t[n].id && v[i].key != t[n].key
      {
        DropMember(t[..n], gone, v[i]);
        assert v[i] in t[..n];
      }
    }
  }

  lemma {:induction false} DropKeys<K, D, M>(t: Table<K, D, M>, gone: set<K>)
    ensures Keys(Drop(t, gone)) == Keys(t) - gone
  {
    var u := Drop(t, gone);
    DropIn(t, gone);
    forall k | k in Keys(t) - gone
      ensures k in Keys(u)
    {
      var i :| 0 <= i < |t| && t[i].key == k;
      assert t[i] in u;
    }
    forall k | k in Keys(u)
      ensures k in Keys(t) - gone
    {
      var i :| 0 <= i < |u| && u[i].key == k;
      assert u[i] in t;
    }
  }

  lemma {:induction false} DropKeepsValid<K, D, M>(t: Table<K, D, M>, gone: set<K>)
    requires Valid(t)
    ensures Valid(Drop(t, gone))
    ensures Keys(Drop(t, gone)) == Keys(t) - gone
  {
    DropOrdered(t, gone);
    DropKeys(t, gone);
  }

  lemma {:induction false} DropData<K, D, M>(t: Table<K, D, M>, gone: set<K>, x: K)
    requires Valid(t)
    ensures Data(Drop(t, gone), x) == if x in gone then None else Data(t, x)
  {
    var u := Drop(t, gone);
    DropKeepsValid(t, gone);
    DropIn(t, gone);
    var j := Find(u, x);
    if j < |u| {
      assert u[j] in t;
      var i :| 0 <= i < |t| && t[i] == u[j];
      FindIn(t, i);
    }
  }

  lemma {:induction false} DropNothing<K, D, M>(t: Table<K, D, M>, gone: set<K>)
    requires Keys(t) !! gone
    ensures Drop(t, gone) == t
  {
    if t != [] {
      var n := |t| - 1;
      assert t[n].key in Keys(t);
      forall k | k in Keys(t[..n])
        ensures k in Keys(t)
      {
        var i :| 0 <= i < n && t[..n][i].key == k;
        assert t[i].key == k;
      }
      DropNothing(t[..n], gone);
      assert t == t[..n] + [t[n]];
    }
  }

  lemma {:induction false} DropTwice<K, D, M>(t: Table<K, D, M>, a: set<K>, b: set<K>)
    ensures Drop(Drop(t, a), b) == Drop(t, a + b)
  {
    if t != [] {
      var n := |t| - 1;
      DropTwice(t[..n], a, b);
      var u := Drop(t[..n], a);
      assert (u + [t[n]])[..|u|] == u;
      assert u + [] == u;
      assert Drop(u, b) + [] == Drop(u, b);
    }
  }

  /** Dropping the leading rows of a table leaves the rest. */
  lemma {:induction false} DropPrefix<K, D, M>(a: Table<K, D, M>, b: Table<K, D, M>, gone: set<K>)
    requires Keys(a) <= gone && Keys(b) !! gone
    ensures Drop(a + b, gone) == b
  {
    if b == [] {
      assert a + b == a;
      DropAll(a, gone);
    } else {
      var n := |b| - 1;
      assert b[n].key in Keys(b);
      forall k | k in Keys(b[..n])
        ensures k in Keys(b)
      {
        var i :| 0 <= i < n && b[..n][i].key == k;
        assert b[i].key == k;
      }
      DropPrefix(a, b[..n], gone);
      assert (a + b)[..|a| + n] == a + b[..n];
    }
  }

  lemma {:induction false} DropAll<K, D, M>(t: Table<K, D, M>, gone: set<K>)
    requires Keys(t) <= gone
    ensures Drop(t, gone) == []
  {
    if t != [] {
      var n := |t| - 1;
      assert t[n].key in Keys(t);
      forall k | k in Keys(t[..n])
        ensures k in Keys(t)
      {
        var i :| 0 <= i < n && t[..n][i].key == k;
        assert t[i].key == k;
      }
      DropAll(t[..n], gone);
    }
  }

  // ---------------------------------------------------------------- runs of statements

  lemma {:induction false} UpsertAllSnoc<K, D, M>(t: Table<K, D, M>, cs: seq<Change<K, D>>, c: Change<K, D>, init: M)
    ensures UpsertAll(t, cs + [c], init) == Upsert(UpsertAll(t, cs, init), c.key, c.data, init)
  {
    assert (cs + [c])[..|cs|] == cs;
  }

  lemma {:induction false} UpsertAllKeepsValid<K, D, M>(t: Table<K, D, M>, cs: seq<Change<K, D>>, init: M)
    requires Valid(t)
    ensures Valid(UpsertAll(t, cs, init))
    ensures Keys(UpsertAll(t, cs, init)) == Keys(t) + ChangedKeys(cs)
  {
    if cs != [] {
      var n := |cs| - 1;
      UpsertAllKeepsValid(t, cs[..n], init);
      UpsertKeepsValid(UpsertAll(t, cs[..n], init), cs[n].key, cs[n].data, init);
      ChangedKeysSnoc(cs);
    }
  }

  lemma {:induction false} ChangedKeysSnoc<K, D>(cs: seq<Change<K, D>>)
    requires cs != []
    ensures ChangedKeys(cs) == ChangedKeys(cs[..|cs| - 1]) + {cs[|cs| - 1].key}
  {
    var n := |cs| - 1;
    forall k | k in ChangedKeys(cs)
      ensures k in ChangedKeys(cs[..n]) + {cs[n].key}
    {
      var i :| 0 <= i < |cs| && cs[i].key == k;
      if i < n { assert cs[..n][i].key == k; }
    }
    forall k | k in ChangedKeys(cs[..n]) + {cs[n].key}
      ensures k in ChangedKeys(cs)
    {
      if k != cs[n].key {
        var i :| 0 <= i < n && cs[..n][i].key == k;
        assert cs[i].key == k;
      }
    }
  }

  lemma {:induction false} WantedIffChanged<K, D>(cs: seq<Change<K, D>>, k: K)
    ensures Wanted(cs, k).Some? <==> k in ChangedKeys(cs)
    ensures Wanted(cs, k).Some? ==> exists i :: 0 <= i < |cs| && cs[i] == Change(k, Wanted(cs, k).value)
  {
    if cs != [] {
      var n := |cs| - 1;
      WantedIffChanged(cs[..n], k);
      ChangedKeysSnoc(cs);
      if cs[n].key == k {
        assert cs[n] == Change(k, Wanted(cs, k).value);
      } else if Wanted(cs, k).Some? {
        var i :| 0 <= i < n && cs[..n][i] == Change(k, Wanted(cs, k).value);
        assert cs[i] == Change(k, Wanted(cs, k).value);
      }
    }
  }

  lemma {:induction false} WantedDistinct<K, D>(cs: seq<Change<K, D>>, i: nat)
    requires i < |cs|
    requires forall a, b :: 0 <= a < b < |cs| ==> cs[a].key != cs[b].key
    ensures Wanted(cs, cs[i].key) == Some(cs[i].data)
  {
    var n := |cs| - 1;
    if i < n {
      WantedDistinct(cs[..n], i);
    }
  }

  /** The last change of a key wins; the other keys keep what they held. */
  lemma {:induction false} UpsertAllData<K, D, M>(t: Table<K, D, M>, cs: seq<Change<K, D>>, init: M, x: K)
    requires Valid(t)
    ensures Data(UpsertAll(t, cs, init), x) == if Wanted(cs, x).Some? then Wanted(cs, x) else Data(t, x)
  {
    if cs != [] {
      var n := |cs| - 1;
      UpsertAllKeepsValid(t, cs[..n], init);
      UpsertAllData(t, cs[..n], init, x);
      UpsertData(UpsertAll(t, cs[..n], init), cs[n].key, cs[n].data, init, x);
    }
  }

  /** Changes to existing keys keep every row's place, id, key and meta columns. */
  lemma {:induction false} UpsertAllInPlace<K, D, M>(t: Table<K, D, M>, cs: seq<Change<K, D>>, init: M)
    requires Valid(t) && ChangedKeys(cs) <= Keys(t)
    ensures var u := UpsertAll(t, cs, init);
            |u| == |t| && forall i :: 0 <= i < |t| ==> u[i] == t[i].(data := u[i].data)
  {
    if cs != [] {
      var n := |cs| - 1;
      ChangedKeysSnoc(cs);
      UpsertAllInPlace(t, cs[..n], init);
      UpsertAllKeepsValid(t, cs[..n], init);
    }
  }

  lemma {:induction false} UpsertAllStable<K, D, M>(t: Table<K, D, M>, cs: seq<Change<K, D>>, init: M)
    requires Valid(t)
    requires forall k :: k in ChangedKeys(cs) ==> Data(t, k) == Wanted(cs, k)
    ensures UpsertAll(t, cs, init) == t
  {
    var u := UpsertAll(t, cs, init);
    forall k | k in ChangedKeys(cs)
      ensures k in Keys(t)
    {
      WantedIffChanged(cs, k);
    }
    UpsertAllInPlace(t, cs, init);
    UpsertAllKeepsValid(t, cs, init);
    forall i | 0 <= i < |t|
      ensures u[i] == t[i]
    {
      var k := t[i].key;
      FindIn(t, i);
      FindIn(u, i);
      UpsertAllData(t, cs, init, k);
      WantedIffChanged(cs, k);
    }
  }

  /** Changes with new, distinct keys are appended in their own order. */
  lemma {:induction false} UpsertAllAppends<K, D, M>(t: Table<K, D, M>, cs: seq<Change<K, D>>, init: M)
    requires Valid(t) && ChangedKeys(cs) !! Keys(t)
    requires forall a, b :: 0 <= a < b < |cs| ==> cs[a].key != cs[b].key
    ensures var u := UpsertAll(t, cs, init);
            && |u| == |t| + |cs| && u[..|t|] == t
            && forall i :: 0 <= i < |cs| ==> u[|t| + i].key == cs[i].key && u[|t| + i].data == cs[i].data && u[|t| + i].meta == init
  {
    if cs != [] {
      var n := |cs| - 1;
      ChangedKeysSnoc(cs);
      UpsertAllAppends(t, cs[..n], init);
      UpsertAllKeepsValid(t, cs[..n], init);
      assert cs[n].key !in ChangedKeys(cs[..n]);
      assert cs[n].key !in Keys(UpsertAll(t, cs[..n], init));
      var v := UpsertAll(t, cs[..n], init);
      assert UpsertAll(t, cs, init) == v + [Row(NextId(v), cs[n].key, cs[n].data, init)];
      forall i | 0 <= i < n
        ensures v[|t| + i].key == cs[i].key && v[|t| + i].data == cs[i].data && v[|t| + i].meta == init
      {
        assert cs[..n][i] == cs[i];
      }
    }
  }

  // ---------------------------------------------------------------- authoritative replacement

  /** Key by key, the data columns of a table. */
  ghost function Image<K, D, M>(t: Table<K, D, M>): map<K, D> {
    map k | k in Keys(t) :: Data(t, k).value
  }

  lemma {:induction false} ImageKeys<K, D, M>(t: Table<K, D, M>)
    ensures Image(t).Keys == Keys(t)
  {
  }

  lemma {:induction false} SameKeys<K, D, M>(t: Table<K, D, M>, u: Table<K, D, M>)
    requires Image(t) == Image(u)
    ensures Keys(t) == Keys(u)
  {
    hide Image;
    ImageKeys(t);
    ImageKeys(u);
  }

  lemma {:induction false} SameImageIff<K(!new), D, M>(t: Table<K, D, M>, u: Table<K, D, M>)
    ensures Image(t) == Image(u) <==> forall k :: Data(t, k) == Data(u, k)
  {
    if Image(t) == Image(u) {
      forall k
        ensures Data(t, k) == Data(u, k)
      {
        assert k in Image(t) <==> k in Image(u);
        assert k in Image(t) ==> Image(t)[k] == Image(u)[k];
      }
    }
    if forall k :: Data(t, k) == Data(u, k) {
      assert forall k :: k in Keys(t) <==> Data(t, k).Some?;
      assert forall k :: k in Keys(u) <==> Data(u, k).Some?;
    }
  }

  /** With equal images, each row of one table has a row with its key and data in the other. */
  lemma {:induction false} Twin<K, D, M>(t: Table<K, D, M>, u: Table<K, D, M>, r: Row<K, D, M>)
    returns (w: Row<K, D, M>)
    requires Valid(t) && Valid(u) && Image(t) == Image(u) && r in t
    ensures w in u && w.key == r.key && w.data == r.data
  {
    var i :| 0 <= i < |t| && t[i] == r;
    FindIn(t, i);
    assert r.key in Image(t) && Image(t)[r.key] == r.data;
    assert r.key in Image(u);
    var j := Find(u, r.key);
    FindIn(u, j);
    w := u[j];
  }

  ghost function WantedImage<K, D>(cs: seq<Change<K, D>>): map<K, D> {
    map k | k in ChangedKeys(cs) && Wanted(cs, k).Some? :: Wanted(cs, k).value
  }

  /** Apply every change, then delete each row that no change named. */
  ghost function Replace<K, D, M>(t: Table<K, D, M>, cs: seq<Change<K, D>>, init: M): Table<K, D, M> {
    var u := UpsertAll(t, cs, init);
    Drop(u, Keys(u) - ChangedKeys(cs))
  }

  lemma {:induction false} ReplaceKeepsValid<K, D, M>(t: Table<K, D, M>, cs: seq<Change<K, D>>, init: M)
    requires Valid(t)
    ensures Valid(Replace(t, cs, init)) && Keys(Replace(t, cs, init)) == ChangedKeys(cs)
  {
    UpsertAllKeepsValid(t, cs, init);
    var u := UpsertAll(t, cs, init);
    DropKeepsValid(u, Keys(u) - ChangedKeys(cs));
  }

  lemma {:induction false} ReplaceData<K, D, M>(t: Table<K, D, M>, cs: seq<Change<K, D>>, init: M, k: K)
    requires Valid(t)
    ensures Data(Replace(t, cs, init), k) == Wanted(cs, k)
  {
    var u := UpsertAll(t, cs, init);
    UpsertAllKeepsValid(t, cs, init);
    UpsertAllData(t, cs, init, k);
    DropData(u, Keys(u) - ChangedKeys(cs), k);
    WantedIffChanged(cs, k);
    if k !in ChangedKeys(cs) {
      assert k in Keys(u) - ChangedKeys(cs) || Data(u, k) == None;
    }
  }

  /** What a replacement leaves depends on the changes alone. */
  lemma {:induction false} ReplaceImage<K, D, M>(t: Table<K, D, M>, cs: seq<Change<K, D>>, init: M)
    requires Valid(t)
    ensures Image(Replace(t, cs, init)) == WantedImage(cs)
  {
    var u := Replace(t, cs, init);
    ReplaceKeepsValid(t, cs, init);
    forall k
      ensures Data(u, k) == Wanted(cs, k)
      ensures Wanted(cs, k).Some? <==> k in ChangedKeys(cs)
    {
      ReplaceData(t, cs, init, k);
      WantedIffChanged(cs, k);
    }
  }

  /** A second replacement by the same changes is the identity, row for row, whatever its fresh columns are. */
  lemma {:induction false} ReplaceTwice<K, D, M>(t: Table<K, D, M>, cs: seq<Change<K, D>>, init: M, again: M)
    requires Valid(t)
    ensures Replace(Replace(t, cs, init), cs, again) == Replace(t, cs, init)
  {
    var u := Replace(t, cs, init);
    ReplaceKeepsValid(t, cs, init);
    forall k | k in ChangedKeys(cs)
      ensures Data(u, k) == Wanted(cs, k)
    {
      ReplaceData(t, cs, init, k);
    }
    UpsertAllStable(u, cs, again);
    DropNothing(u, Keys(u) - ChangedKeys(cs));
  }

  /** Changes that ask for what the table holds, in any order, leave it as it is, row for row. */
  lemma {:induction false} ReplaceStable<K, D, M>(t: Table<K, D, M>, cs: seq<Change<K, D>>, init: M)
    requires Valid(t) && Keys(t) == ChangedKeys(cs) && Image(t) == WantedImage(cs)
    ensures Replace(t, cs, init) == t
  {
    forall k | k in ChangedKeys(cs)
      ensures Data(t, k) == Wanted(cs, k)
    {
      WantedIffChanged(cs, k);
      assert k in Image(t) && Image(t)[k] == Data(t, k).value;
      assert k in WantedImage(cs) && WantedImage(cs)[k] == Wanted(cs, k).value;
    }
    hide Image, WantedImage, Wanted, Data, ChangedKeys, Drop;
    UpsertAllStable(t, cs, init);
    DropNothing(t, Keys(t) - ChangedKeys(cs));
  }

  /** Replacing by keys the table never held lists the changes, in their order, as the only rows. */
  lemma {:induction false} ReplaceByNewKeys<K, D, M>(t: Table<K, D, M>, cs: seq<Change<K, D>>, init: M)
    requires Valid(t) && ChangedKeys(cs) !! Keys(t)
    requires forall a, b :: 0 <= a < b < |cs| ==> cs[a].key != cs[b].key
    ensures var u := Replace(t, cs, init);
            |u| == |cs| && forall i :: 0 <= i < |cs| ==> u[i].key == cs[i].key && u[i].data == cs[i].data && u[i].meta == init
  {
    var u := UpsertAll(t, cs, init);
    UpsertAllAppends(t, cs, init);
    UpsertAllKeepsValid(t, cs, init);
    var b := u[|t|..];
    assert u == t + b;
    forall k | k in Keys(b)
      ensures k in ChangedKeys(cs)
    {
      var i :| 0 <= i < |b| && b[i].key == k;
      assert u[|t| + i].key == cs[i].key;
    }
    DropPrefix(t, b, Keys(u) - ChangedKeys(cs));
    forall i | 0 <= i < |cs|
      ensures b[i].key == cs[i].key && b[i].data == cs[i].data && b[i].meta == init
    {
      assert b[i] == u[|t| + i];
    }
  }

  // ---------------------------------------------------------------- the order a replacement leaves

  function KeyOrder<K, D, M>(t: Table<K, D, M>): seq<K> {
    seq(|t|, i requires 0 <= i < |t| => t[i].key)
  }

  function ChangeOrder<K, D>(cs: seq<Change<K, D>>): seq<K> {
    seq(|cs|, i requires 0 <= i < |cs| => cs[i].key)
  }

  /** The keys that are in the set, in their order. */
  function Within<K(==)>(ks: seq<K>, some: set<K>): (r: seq<K>)
    ensures forall i :: 0 <= i < |r| ==> r[i] in ks && r[i] in some
  {
    if ks == [] then [] else
      var n := |ks| - 1;
      assert ks == ks[..n] + [ks[n]];
      Within(ks[..n], some) + if ks[n] in some then [ks[n]] else []
  }

  /** The keys that are not in the set, in their order. */
  function Outside<K(==)>(ks: seq<K>, some: set<K>): (r: seq<K>)
    ensures forall i :: 0 <= i < |r| ==> r[i] in ks && r[i] !in some
  {
    if ks == [] then [] else
      var n := |ks| - 1;
      assert ks == ks[..n] + [ks[n]];
      Outside(ks[..n], some) + if ks[n] in some then [] else [ks[n]]
  }

  /** Each key where it first occurs. */
  function Firsts<K(==)>(ks: seq<K>): (r: seq<K>)
    ensures (forall i :: 0 <= i < |r| ==> r[i] in ks) && forall i :: 0 <= i < |ks| ==> ks[i] in r
  {
    if ks == [] then [] else
      var n := |ks| - 1;
      assert ks == ks[..n] + [ks[n]];
      Firsts(ks[..n]) + if ks[n] in ks[..n] then [] else [ks[n]]
  }

  lemma {:induction false} KeyOrderSnoc<K, D, M>(t: Table<K, D, M>, r: Row<K, D, M>)
    ensures KeyOrder(t + [r]) == KeyOrder(t) + [r.key]
  {
  }

  lemma {:induction false} KeyOrderMembers<K, D, M>(t: Table<K, D, M>)
    ensures forall k :: k in KeyOrder(t) <==> k in Keys(t)
  {
    forall k | k in Keys(t)
      ensures k in KeyOrder(t)
    {
      var i :| 0 <= i < |t| && t[i].key == k;
      assert KeyOrder(t)[i] == k;
    }
  }

  lemma {:induction false} ChangeOrderMembers<K, D>(cs: seq<Change<K, D>>)
    ensures forall k :: k in ChangeOrder(cs) <==> k in ChangedKeys(cs)
  {
    forall k | k in ChangedKeys(cs)
      ensures k in ChangeOrder(cs)
    {
      var i :| 0 <= i < |cs| && cs[i].key == k;
      assert ChangeOrder(cs)[i] == k;
    }
  }

  lemma {:induction false} OutsideConcat<K>(a: seq<K>, b: seq<K>, some: set<K>)
    ensures Outside(a + b, some) == Outside(a, some) + Outside(b, some)
  {
    if b == [] {
      assert a + b == a;
    } else {
      var n := |b| - 1;
      assert (a + b)[..|a| + n] == a + b[..n];
      OutsideConcat(a, b[..n], some);
    }
  }

  lemma {:induction false} OutsideIsWithin<K>(ks: seq<K>, gone: set<K>, kept: set<K>)
    requires forall k :: k in ks ==> (k in gone <==> k !in kept)
    ensures Outside(ks, gone) == Within(ks, kept)
  {
    if ks != [] {
      var n := |ks| - 1;
      assert ks == ks[..n] + [ks[n]];
      OutsideIsWithin(ks[..n], gone, kept);
    }
  }

  lemma {:induction false} NoneOutside<K>(ks: seq<K>, gone: set<K>)
    requires forall k :: k in ks ==> k !in gone
    ensures Outside(ks, gone) == ks
  {
    if ks != [] {
      var n := |ks| - 1;
      assert ks == ks[..n] + [ks[n]];
      NoneOutside(ks[..n], gone);
    }
  }

  lemma {:induction false} DropOrder<K, D, M>(t: Table<K, D, M>, gone: set<K>)
    ensures KeyOrder(Drop(t, gone)) == Outside(KeyOrder(t), gone)
  {
    if t != [] {
      var n := |t| - 1;
      DropOrder(t[..n], gone);
      assert KeyOrder(t)[..n] == KeyOrder(t[..n]);
      KeyOrderSnoc(Drop(t[..n], gone), t[n]);
      assert Drop(t[..n], gone) + [] == Drop(t[..n], gone) && Outside(KeyOrder(t[..n]), gone) + [] == Outside(KeyOrder(t[..n]), gone);
    }
  }

  lemma {:induction false} UpsertOrder<K, D, M>(t: Table<K, D, M>, k: K, d: D, init: M)
    ensures KeyOrder(Upsert(t, k, d, init)) == KeyOrder(t) + if k in Keys(t) then [] else [k]
  {
  }

  lemma {:induction false} ChangeOrderSnoc<K, D>(cs: seq<Change<K, D>>)
    requires cs != []
    ensures var n := |cs| - 1;
            ChangeOrder(cs) == ChangeOrder(cs[..n]) + [cs[n].key] && (cs[n].key in ChangeOrder(cs[..n]) <==> cs[n].key in ChangedKeys(cs[..n]))
  {
    ChangeOrderMembers(cs[..|cs| - 1]);
  }

  lemma {:induction false} FirstsSnoc<K>(ks: seq<K>, k: K)
    ensures Firsts(ks + [k]) == Firsts(ks) + if k in ks then [] else [k]
  {
    assert (ks + [k])[..|ks|] == ks;
  }

  lemma {:induction false} OutsideSnoc<K>(ks: seq<K>, k: K, some: set<K>)
    ensures Outside(ks + [k], some) == Outside(ks, some) + if k in some then [] else [k]
  {
    assert (ks + [k])[..|ks|] == ks;
  }

  /** Upserts leave the held keys where they were and append the others in the order in which they are first asked for. */
  lemma {:induction false} UpsertAllOrder<K, D, M>(t: Table<K, D, M>, cs: seq<Change<K, D>>, init: M)
    requires Valid(t)
    ensures KeyOrder(UpsertAll(t, cs, init)) == KeyOrder(t) + Outside(Firsts(ChangeOrder(cs)), Keys(t))
  {
    hide Keys, KeyOrder, Upsert, ChangedKeys, Outside, Firsts;
    if cs != [] {
      var n := |cs| - 1;
      var k, ks := cs[n].key, ChangeOrder(cs[..n]);
      ChangeOrderSnoc(cs);
      hide ChangeOrder;
      UpsertAllOrder(t, cs[..n], init);
      UpsertAllKeepsValid(t, cs[..n], init);
      UpsertOrder(UpsertAll(t, cs[..n], init), k, cs[n].data, init);
      FirstsSnoc(ks, k);
      OutsideSnoc(Firsts(ks), k, Keys(t));
      assert Firsts(ks) + [] == Firsts(ks);
      assert k in Keys(UpsertAll(t, cs[..n], init)) <==> k in Keys(t) || k in ks;
      assert KeyOrder(t) + Outside(Firsts(ks), Keys(t)) + [] == KeyOrder(t) + Outside(Firsts(ks), Keys(t));
    } else {
      NothingOutside(Keys(t));
      NothingFirst<K>();
      assert ChangeOrder(cs) == [] && KeyOrder(t) + [] == KeyOrder(t);
    }
  }

  lemma {:induction false} NothingFirst<K>()
    ensures Firsts<K>([]) == []
  {
  }

  lemma {:induction false} NothingOutside<K>(some: set<K>)
    ensures Outside([], some) == []
  {
  }

  /** A replacement leaves the held keys that were asked for in the table's order, then the new ones in the changes' order. */
  lemma {:induction false} ReplaceOrder<K, D, M>(t: Table<K, D, M>, cs: seq<Change<K, D>>, init: M)
    requires Valid(t)
    ensures KeyOrder(Replace(t, cs, init)) == Within(KeyOrder(t), ChangedKeys(cs)) + Outside(Firsts(ChangeOrder(cs)), Keys(t))
  {
    var u := UpsertAll(t, cs, init);
    var gone := Keys(u) - ChangedKeys(cs);
    UpsertAllKeepsValid(t, cs, init);
    UpsertAllOrder(t, cs, init);
    DropOrder(u, gone);
    KeyOrderMembers(t);
    ChangeOrderMembers(cs);
    hide KeyOrder, ChangeOrder, ChangedKeys, UpsertAll, Drop, Firsts;
    var added := Outside(Firsts(ChangeOrder(cs)), Keys(t));
    OutsideConcat(KeyOrder(t), added, gone);
    OutsideIsWithin(KeyOrder(t), gone, ChangedKeys(cs));
    NoneOutside(added, gone);
  }

  /** Changes read off the rows of a table, in any order and with repeats, ask for the table's own image. */
  lemma {:induction false} ListingAsksForImage<K, D, M>(t: Table<K, D, M>, rs: seq<Row<K, D, M>>, cs: seq<Change<K, D>>)
    requires Valid(t) && |cs| == |rs|
    requires forall r :: r in rs <==> r in t
    requires forall i :: 0 <= i < |rs| ==> cs[i] == Change(rs[i].key, rs[i].data)
    ensures ChangedKeys(cs) == Keys(t) && WantedImage(cs) == Image(t)
  {
    forall k | k in Keys(t)
      ensures k in ChangedKeys(cs)
    {
      var j :| 0 <= j < |t| && t[j].key == k;
      assert t[j] in rs;
      var i :| 0 <= i < |rs| && rs[i] == t[j];
      assert cs[i].key == k;
    }
    forall k | k in ChangedKeys(cs)
      ensures k in Keys(t) && Wanted(cs, k) == Data(t, k)
    {
      WantedIffChanged(cs, k);
      var i :| 0 <= i < |cs| && cs[i] == Change(k, Wanted(cs, k).value);
      assert rs[i] in rs;
      assert rs[i] in t;
      var j :| 0 <= j < |t| && t[j] == rs[i];
      FindIn(t, j);
    }
  }
}
