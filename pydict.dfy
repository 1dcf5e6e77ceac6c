// Python's insertion-ordered dict keyed by card or deck name, as a list of
// items: a new key is appended, an existing key is updated where it stands.
// Also the two ways the code fills a quantity dict from parsed lines: plain
// assignment (a later line for a name overwrites an earlier one) and
// accumulation (`+=` on a present key, assignment on a new one; also what
// collections.Counter does).

module PyDict {
  import opened Lists
  import opened Cards

  datatype Item<V> = Item(key: string, val: V)

  type Dict<V> = seq<Item<V>>

  /** `k in d`. */
  predicate HasKey<V>(d: Dict<V>, k: string) {
    d != [] && (d[0].key == k || HasKey(d[1..], k))
  }

  /** No key occurs twice, as in every Python dict. */
  predicate UniqueKeys<V>(d: Dict<V>) {
    d == [] || (!HasKey(d[1..], d[0].key) && UniqueKeys(d[1..]))
  }

  /** `d.get(k, default)`. */
  function Get<V>(d: Dict<V>, k: string, default: V): V {
    if d == [] then default
    else if d[0].key == k then d[0].val
    else Get(d[1..], k, default)
  }

  /** `d[k] = v`. */
  function Put<V>(d: Dict<V>, k: string, v: V): Dict<V> {
    if d == [] then [Item(k, v)]
    else if d[0].key == k then [Item(k, v)] + d[1..]
    else [d[0]] + Put(d[1..], k, v)
  }

  /** `list(d.keys())`. */
  function Keys<V>(d: Dict<V>): (ks: seq<string>)
    ensures |ks| == |d|
  {
    if d == [] then [] else [d[0].key] + Keys(d[1..])
  }

  /** `k in d.keys()` is `k in d`. */
  lemma {:induction false} KeysHasKey<V>(d: Dict<V>, k: string)
    ensures k in Keys(d) <==> HasKey(d, k)
  {
    if d != [] {
      KeysHasKey(d[1..], k);
    }
  }

  lemma {:induction false} HasKeyIndex<V>(d: Dict<V>, k: string)
    ensures HasKey(d, k) <==> exists i :: 0 <= i < |d| && d[i].key == k
  {
    if d != [] {
      HasKeyIndex(d[1..], k);
      if exists i :: 0 <= i < |d| && d[i].key == k {
        var i :| 0 <= i < |d| && d[i].key == k;
        if i > 0 { assert d[1..][i - 1].key == k; }
      }
    }
  }

  /** Reading a key after storing one: the stored value for that key, the
      old lookup for every other key. */
  lemma {:induction false} GetPut<V>(d: Dict<V>, k: string, v: V, k': string, default: V)
    ensures Get(Put(d, k, v), k', default) == if k' == k then v else Get(d, k', default)
    ensures HasKey(Put(d, k, v), k') <==> k' == k || HasKey(d, k')
  {
    if d != [] && d[0].key != k {
      GetPut(d[1..], k, v, k', default);
    } else if d != [] {
      assert ([Item(k, v)] + d[1..])[1..] == d[1..];
    }
  }

  lemma {:induction false} GetMissing<V>(d: Dict<V>, k: string, default: V)
    requires !HasKey(d, k)
    ensures Get(d, k, default) == default
  {
    if d != [] { GetMissing(d[1..], k, default); }
  }

  /** Unique keys: no two items share a key. */
  lemma {:induction false} UniqueKeysDistinct<V>(d: Dict<V>)
    requires UniqueKeys(d)
    ensures forall i, j :: 0 <= i < j < |d| ==> d[i].key != d[j].key
  {
    if d != [] {
      UniqueKeysDistinct(d[1..]);
      HasKeyIndex(d[1..], d[0].key);
      forall i, j | 0 <= i < j < |d| ensures d[i].key != d[j].key {
        assert d[j] == d[1..][j - 1];
        if i > 0 { assert d[i] == d[1..][i - 1]; }
      }
    }
  }

  /** A list of items whose keys are pairwise different has unique keys. */
  lemma {:induction false} DistinctKeysUnique<V>(d: Dict<V>)
    requires forall i, j :: 0 <= i < j < |d| ==> d[i].key != d[j].key
    ensures UniqueKeys(d)
  {
    if d != [] {
      DistinctKeysUnique(d[1..]);
      HasKeyIndex(d[1..], d[0].key);
      forall i | 0 <= i < |d[1..]| ensures d[1..][i].key != d[0].key {
        assert d[1..][i] == d[i + 1];
      }
    }
  }

  /** A dict with unique keys is its last item stored, as a new key, into
      the dict of the items before it. */
  lemma UniqueKeysLast<V>(d: Dict<V>)
    requires UniqueKeys(d) && d != []
    ensures var p := d[..|d| - 1];
            && UniqueKeys(p) && !HasKey(p, d[|d| - 1].key)
            && d == Put(p, d[|d| - 1].key, d[|d| - 1].val)
  {
    var p := d[..|d| - 1];
    var last := d[|d| - 1];
    UniqueKeysDistinct(d);
    DistinctKeysUnique(p);
    HasKeyIndex(p, last.key);
    PutNew(p, last.key, last.val);
    assert d == p + [Item(last.key, last.val)];
  }

  /** With unique keys, a lookup of an item's key returns that item's value. */
  lemma {:induction false} GetAt<V>(d: Dict<V>, i: int, default: V)
    requires UniqueKeys(d) && 0 <= i < |d|
    ensures Get(d, d[i].key, default) == d[i].val
  {
    if i > 0 {
      GetAt(d[1..], i - 1, default);
      HasKeyIndex(d[1..], d[0].key);
      assert d[1..][i - 1] == d[i];
    }
  }

  /** Storing never reorders keys: a new key goes to the end. */
  lemma {:induction false} PutKeys<V>(d: Dict<V>, k: string, v: V)
    ensures Keys(Put(d, k, v)) == if HasKey(d, k) then Keys(d) else Keys(d) + [k]
  {
    if d != [] && d[0].key != k {
      PutKeys(d[1..], k, v);
      assert Put(d, k, v)[1..] == Put(d[1..], k, v);
    } else if d != [] {
      assert ([Item(k, v)] + d[1..])[1..] == d[1..];
    }
  }

  /** Storing keeps the keys unique. */
  lemma {:induction false} PutUnique<V>(d: Dict<V>, k: string, v: V)
    requires UniqueKeys(d)
    ensures UniqueKeys(Put(d, k, v))
  {
    if d != [] && d[0].key != k {
      PutUnique(d[1..], k, v);
      GetPut(d[1..], k, v, d[0].key, v);
      assert Put(d, k, v)[1..] == Put(d[1..], k, v);
    } else if d != [] {
      assert ([Item(k, v)] + d[1..])[1..] == d[1..];
    }
  }

  /** Storing under a key that is absent appends one item. */
  lemma {:induction false} PutNew<V>(d: Dict<V>, k: string, v: V)
    requires !HasKey(d, k)
    ensures Put(d, k, v) == d + [Item(k, v)]
  {
    if d != [] {
      PutNew(d[1..], k, v);
      assert d == [d[0]] + d[1..];
    }
  }

  /** Some entry is named `name`. */
  predicate Mentions(es: seq<Entry>, name: string) {
    exists i :: 0 <= i < |es| && es[i].name == name
  }

  lemma MentionsInit(es: seq<Entry>, name: string)
    requires es != [] && es[|es| - 1].name != name
    ensures Mentions(es, name) <==> Mentions(es[..|es| - 1], name)
  {
    if Mentions(es, name) {
      var i :| 0 <= i < |es| && es[i].name == name;
      assert es[..|es| - 1][i] == es[i];
    }
    if Mentions(es[..|es| - 1], name) {
      var i :| 0 <= i < |es| - 1 && es[..|es| - 1][i].name == name;
      assert es[i] == es[..|es| - 1][i];
    }
  }

  /** Reordering a list keeps the names it mentions. */
  lemma MentionsPermutation(a: seq<Entry>, b: seq<Entry>, name: string)
    requires multiset(a) == multiset(b)
    ensures Mentions(a, name) <==> Mentions(b, name)
  {
    if Mentions(a, name) {
      var i :| 0 <= i < |a| && a[i].name == name;
      assert a[i] in multiset(b);
    }
    if Mentions(b, name) {
      var i :| 0 <= i < |b| && b[i].name == name;
      assert b[i] in multiset(a);
    }
  }

  /** `for e in es: d[e.name] = e.qty`. */
  function AssignAll(d: Dict<int>, es: seq<Entry>): Dict<int> {
    if es == [] then d
    else
      var e := es[|es| - 1];
      Put(AssignAll(d, es[..|es| - 1]), e.name, e.qty)
  }

  /** `if e.name in d: d[e.name] += e.qty else: d[e.name] = e.qty`. */
  function Add(d: Dict<int>, e: Entry): Dict<int> {
    if HasKey(d, e.name) then Put(d, e.name, Get(d, e.name, 0) + e.qty) else Put(d, e.name, e.qty)
  }

  /** Both branches add the quantity to what the name held (0 when absent);
      this is also `d[e.name] = d.get(e.name, 0) + e.qty`, Counter's update. */
  lemma AddPut(d: Dict<int>, e: Entry)
    ensures Add(d, e) == Put(d, e.name, Get(d, e.name, 0) + e.qty)
  {
    if !HasKey(d, e.name) {
      GetMissing(d, e.name, 0);
    }
  }

  /** The accumulation step as the code writes it, on a dict the caller
      then rebinds. */
  method AddQuantity(d: Dict<int>, e: Entry) returns (d': Dict<int>)
    ensures d' == Add(d, e)
  {
    if HasKey(d, e.name) {
      d' := Put(d, e.name, Get(d, e.name, 0) + e.qty);
    } else {
      d' := Put(d, e.name, e.qty);
    }
  }

  /** `for e in es: add(d, e)`. */
  function AddAll(d: Dict<int>, es: seq<Entry>): Dict<int> {
    if es == [] then d else Add(AddAll(d, es[..|es| - 1]), es[|es| - 1])
  }

  lemma AssignAllSnoc(d: Dict<int>, es: seq<Entry>, e: Entry)
    ensures AssignAll(d, es + [e]) == Put(AssignAll(d, es), e.name, e.qty)
  {
    assert (es + [e])[..|es|] == es;
  }

  lemma AddAllSnoc(d: Dict<int>, es: seq<Entry>, e: Entry)
    ensures AddAll(d, es + [e]) == Add(AddAll(d, es), e)
  {
    assert (es + [e])[..|es|] == es;
  }

  /** After assignment a name holds the quantity of its last entry, or what
      it held before when no entry names it; the keys are the old keys and
      the names of the entries, each once. */
  lemma {:induction false} AssignAllGet(d: Dict<int>, es: seq<Entry>, name: string)
    ensures Get(AssignAll(d, es), name, 0) == match LastQty(es, name) case Some(q) => q case None => Get(d, name, 0)
    ensures HasKey(AssignAll(d, es), name) <==> HasKey(d, name) || Mentions(es, name)
    ensures UniqueKeys(d) ==> UniqueKeys(AssignAll(d, es))
  {
    if es != [] {
      var e := es[|es| - 1];
      var p := AssignAll(d, es[..|es| - 1]);
      AssignAllGet(d, es[..|es| - 1], name);
      GetPut(p, e.name, e.qty, name, 0);
      if UniqueKeys(d) { PutUnique(p, e.name, e.qty); }
      if e.name != name { MentionsInit(es, name); }
    }
  }

  /** After accumulation a name holds what it held before plus the summed
      quantity of its entries; the keys are the old keys and the names of
      the entries, each once. */
  lemma {:induction false} AddAllGet(d: Dict<int>, es: seq<Entry>, name: string)
    ensures Get(AddAll(d, es), name, 0) == Get(d, name, 0) + QtyOf(es, name)
    ensures HasKey(AddAll(d, es), name) <==> HasKey(d, name) || Mentions(es, name)
    ensures UniqueKeys(d) ==> UniqueKeys(AddAll(d, es))
  {
    if es != [] {
      var e := es[|es| - 1];
      var p := AddAll(d, es[..|es| - 1]);
      AddPut(p, e);
      AddAllGet(d, es[..|es| - 1], name);
      GetPut(p, e.name, Get(p, e.name, 0) + e.qty, name, 0);
      if UniqueKeys(d) { PutUnique(p, e.name, Get(p, e.name, 0) + e.qty); }
      if e.name != name { MentionsInit(es, name); }
    }
  }

  /** `d[k].append(v)` on a `defaultdict(list)`. */
  function Append<V>(d: Dict<seq<V>>, k: string, v: V): Dict<seq<V>> {
    Put(d, k, Get(d, k, []) + [v])
  }

  /** Appending to an empty dict makes a one-item list. */
  lemma AppendEmpty<V>(k: string, v: V)
    ensures Append([], k, v) == [Item(k, [v])]
  {
    var g: seq<V> := Get([], k, []);
    assert g + [v] == [v];
  }

  /** The summed `f` over every list the dict holds. */
  function TotalOf<V>(d: Dict<seq<V>>, f: V -> int): int {
    if d == [] then 0 else SumOf(d[0].val, f) + TotalOf(d[1..], f)
  }

  /** Appending a value to one key's list adds its amount to the total. */
  lemma {:induction false} TotalOfAppend<V>(d: Dict<seq<V>>, k: string, v: V, f: V -> int)
    ensures TotalOf(Append(d, k, v), f) == TotalOf(d, f) + f(v)
  {
    if d == [] {
      AppendEmpty(k, v);
      assert [v][..0] == [];
      assert [Item(k, [v])][1..] == [];
      assert SumOf([v], f) == SumOf([v][..0], f) + f(v);
      assert TotalOf([Item(k, [v])], f) == SumOf([v], f) + TotalOf([Item(k, [v])][1..], f);
    } else if d[0].key == k {
      assert Append(d, k, v) == [Item(k, d[0].val + [v])] + d[1..];
      SumOfAppend(d[0].val, [v], f);
      assert [v][..0] == [];
    } else {
      TotalOfAppend(d[1..], k, v, f);
      assert Append(d, k, v) == [d[0]] + Append(d[1..], k, v);
    }
  }

  /** `sum(d.get(k, 0) for k in ks)`. */
  function GetSum(d: Dict<int>, ks: seq<string>): int {
    if ks == [] then 0 else GetSum(d, ks[..|ks| - 1]) + Get(d, ks[|ks| - 1], 0)
  }

  /** Looking up every key of a list of distinct keys sees the first item
      of a dict with unique keys exactly when its key is listed. */
  lemma {:induction false} GetSumFirst(d: Dict<int>, ks: seq<string>)
    requires d != [] && UniqueKeys(d)
    requires forall i, j :: 0 <= i < j < |ks| ==> ks[i] != ks[j]
    ensures GetSum(d, ks) == GetSum(d[1..], ks) + if d[0].key in ks then d[0].val else 0
  {
    if ks != [] {
      var init := ks[..|ks| - 1];
      var k := ks[|ks| - 1];
      GetSumFirst(d, init);
      assert ks == init + [k];
      if k == d[0].key {
        GetMissing(d[1..], k, 0);
        assert k !in init;
      }
    }
  }

  /** Looking up, once each, a list of keys that covers the dict's keys
      adds up to the dict's total. */
  lemma {:induction false} GetSumTotal(d: Dict<int>, ks: seq<string>)
    requires UniqueKeys(d)
    requires forall i, j :: 0 <= i < j < |ks| ==> ks[i] != ks[j]
    requires forall k :: HasKey(d, k) ==> k in ks
    ensures GetSum(d, ks) == Total(d)
  {
    if d == [] {
      GetSumEmpty(ks);
    } else {
      GetSumFirst(d, ks);
      GetSumTotal(d[1..], ks);
    }
  }

  lemma {:induction false} GetSumEmpty(ks: seq<string>)
    ensures GetSum([], ks) == 0
  {
    if ks != [] { GetSumEmpty(ks[..|ks| - 1]); }
  }

  /** The summed values of a quantity dict. */
  function Total(d: Dict<int>): int {
    if d == [] then 0 else d[0].val + Total(d[1..])
  }

  /** Adding `delta` to one key's quantity adds `delta` to the total. */
  lemma {:induction false} TotalPut(d: Dict<int>, k: string, delta: int)
    ensures Total(Put(d, k, Get(d, k, 0) + delta)) == Total(d) + delta
  {
    if d != [] && d[0].key != k {
      TotalPut(d[1..], k, delta);
      assert Put(d, k, Get(d, k, 0) + delta) == [d[0]] + Put(d[1..], k, Get(d[1..], k, 0) + delta);
    } else if d != [] {
      assert ([Item(k, d[0].val + delta)] + d[1..])[1..] == d[1..];
    }
  }

  /** Accumulation preserves the total quantity. */
  lemma {:induction false} AddAllTotal(d: Dict<int>, es: seq<Entry>)
    ensures Total(AddAll(d, es)) == Total(d) + SumQty(es)
  {
    if es != [] {
      var e := es[|es| - 1];
      AddAllTotal(d, es[..|es| - 1]);
      AddPut(AddAll(d, es[..|es| - 1]), e);
      TotalPut(AddAll(d, es[..|es| - 1]), e.name, e.qty);
    }
  }

  lemma {:induction false} EntriesTotal(d: Dict<int>)
    ensures SumQty(Entries(d)) == Total(d)
  {
    if d != [] {
      EntriesTotal(d[1..]);
      assert Entries(d) == [Entry(d[0].val, d[0].key)] + Entries(d[1..]);
      SumQtyAppend([Entry(d[0].val, d[0].key)], Entries(d[1..]));
    }
  }

  /** The entries of a dict filled by accumulation: one per name mentioned,
      holding the summed quantity of that name, and the same total. */
  lemma AddAllEntries(es: seq<Entry>)
    ensures var d := Entries(AddAll([], es));
            && DistinctNames(d)
            && (forall i :: 0 <= i < |d| ==> d[i].qty == QtyOf(es, d[i].name))
            && (forall name :: Mentions(d, name) <==> Mentions(es, name))
            && SumQty(d) == SumQty(es)
  {
    var d := AddAll([], es);
    var r := Entries(d);
    AddAllGet([], es, "");
    UniqueKeysDistinct(d);
    forall i | 0 <= i < |r| ensures r[i].qty == QtyOf(es, r[i].name) {
      GetAt(d, i, 0);
      AddAllGet([], es, r[i].name);
    }
    forall name ensures Mentions(r, name) <==> Mentions(es, name) {
      AddAllGet([], es, name);
      HasKeyIndex(d, name);
    }
    EntriesTotal(d);
    AddAllTotal([], es);
  }

  /** `[(quantity, name) for name, quantity in d.items()]`. */
  function Entries(d: Dict<int>): (es: seq<Entry>)
    ensures |es| == |d|
    ensures forall i :: 0 <= i < |d| ==> es[i] == Entry(d[i].val, d[i].key)
  {
    if d == [] then [] else [Entry(d[0].val, d[0].key)] + Entries(d[1..])
  }
}
