/** The parsed YAML documents the board loader works on.

    A YAML stream is a sequence of documents; each document is a value.
    Mappings keep their keys in insertion order, as Python dicts do, so a
    mapping is a sequence of entries whose keys are distinct. Only string keys
    are modelled. */
module YamlValues {

  datatype Value =
    | Null
    | Bool(b: bool)
    | Int(i: int)
    | Str(s: string)
    | Seq(items: seq<Value>)
    | Mapping(entries: seq<Entry>)

  datatype Entry = Entry(key: string, val: Value)

  datatype Option<T> = None | Some(value: T)

  /** The keys of a mapping, in insertion order. */
  function Keys(entries: seq<Entry>): (ks: seq<string>)
    ensures |ks| == |entries|
    ensures forall i :: 0 <= i < |entries| ==> ks[i] == entries[i].key
  {
    seq(|entries|, i requires 0 <= i < |entries| => entries[i].key)
  }

  predicate Distinct<T(==)>(xs: seq<T>) {
    forall i, j :: 0 <= i < j < |xs| ==> xs[i] != xs[j]
  }

  /** A Python dict: no key occurs twice. */
  predicate IsDict(entries: seq<Entry>) {
    Distinct(Keys(entries))
  }

  /** Python's `key in d` on a mapping value. */
  predicate HasKey(v: Value, key: string) {
    v.Mapping? && key in Keys(v.entries)
  }

  /** The row at which `key` sits, counted from `from`; |entries| when absent. */
  function IndexOf(entries: seq<Entry>, key: string, from: nat): (k: nat)
    requires from <= |entries|
    ensures from <= k <= |entries|
    ensures k < |entries| ==> entries[k].key == key
    ensures forall j :: from <= j < k ==> entries[j].key != key
    decreases |entries| - from
  {
    if from == |entries| || entries[from].key == key then from
    else IndexOf(entries, key, from + 1)
  }

  /** Python's `d[key]`, or None where it would raise KeyError. */
  function Lookup(entries: seq<Entry>, key: string): (r: Option<Value>)
    ensures r.Some? <==> key in Keys(entries)
    ensures r.Some? ==> exists k :: 0 <= k < |entries| && entries[k] == Entry(key, r.value)
  {
    var k := IndexOf(entries, key, 0);
    if k < |entries| then Some(entries[k].val) else None
  }

  /** `d.update({key: val})`: an existing key keeps its position and gets the
      new value; a new key goes to the end. */
  function Put(entries: seq<Entry>, key: string, val: Value): (r: seq<Entry>)
    ensures key in Keys(entries) ==> |r| == |entries|
    ensures key !in Keys(entries) ==> r == entries + [Entry(key, val)]
  {
    var k := IndexOf(entries, key, 0);
    if k < |entries| then entries[k := Entry(key, val)] else entries + [Entry(key, val)]
  }

  /** After the update the key maps to the new value, every other key to
      what it mapped to before, and no key occurs twice if none did. */
  lemma PutFacts(entries: seq<Entry>, key: string, val: Value)
    ensures forall k :: k in Keys(Put(entries, key, val)) <==> k in Keys(entries) || k == key
    ensures Lookup(Put(entries, key, val), key) == Some(val)
    ensures forall k :: k != key ==> Lookup(Put(entries, key, val), k) == Lookup(entries, k)
    ensures IsDict(entries) ==> IsDict(Put(entries, key, val))
  {
    var k := IndexOf(entries, key, 0);
    if k < |entries| {
      PutExisting(entries, key, val, k);
    } else {
      PutNew(entries, key, val);
    }
  }

  lemma PutExisting(entries: seq<Entry>, key: string, val: Value, k: nat)
    requires k == IndexOf(entries, key, 0) < |entries|
    ensures var r := entries[k := Entry(key, val)];
      Keys(r) == Keys(entries) &&
      Lookup(r, key) == Some(val) &&
      forall k' :: k' != key ==> Lookup(r, k') == Lookup(entries, k')
  {
    var r := entries[k := Entry(key, val)];
    assert Keys(r) == Keys(entries);
    forall k' | k' != key
      ensures Lookup(r, k') == Lookup(entries, k')
    {
      IndexOfUpdate(entries, k, Entry(key, val), k', 0);
    }
    IndexOfUpdate(entries, k, Entry(key, val), key, 0);
  }

  /** Rewriting the value at row k, under the same key, moves no key. */
  lemma {:induction false} IndexOfUpdate(entries: seq<Entry>, k: nat, e: Entry, key: string, from: nat)
    requires k < |entries| && e.key == entries[k].key && from <= |entries|
    ensures IndexOf(entries[k := e], key, from) == IndexOf(entries, key, from)
    decreases |entries| - from
  {
    if from < |entries| && entries[from].key != key {
      IndexOfUpdate(entries, k, e, key, from + 1);
    }
  }

  lemma PutNew(entries: seq<Entry>, key: string, val: Value)
    requires key !in Keys(entries)
    ensures var r := entries + [Entry(key, val)];
      Keys(r) == Keys(entries) + [key] &&
      Lookup(r, key) == Some(val) &&
      forall k' :: k' != key ==> Lookup(r, k') == Lookup(entries, k')
  {
    var r := entries + [Entry(key, val)];
    assert Keys(r) == Keys(entries) + [key];
    forall k' | k' != key
      ensures Lookup(r, k') == Lookup(entries, k')
    {
      IndexOfAppend(entries, Entry(key, val), k', 0);
    }
    IndexOfAppend(entries, Entry(key, val), key, 0);
  }

  lemma {:induction false} IndexOfAppend(entries: seq<Entry>, e: Entry, key: string, from: nat)
    requires from <= |entries|
    ensures IndexOf(entries, key, from) < |entries| ==>
              IndexOf(entries + [e], key, from) == IndexOf(entries, key, from)
    ensures IndexOf(entries, key, from) == |entries| ==>
              IndexOf(entries + [e], key, from) == if e.key == key then |entries| else |entries| + 1
    decreases |entries| - from
  {
    if from < |entries| && entries[from].key != key {
      IndexOfAppend(entries, e, key, from + 1);
    }
  }

  /** A YAML list of strings. */
  function StrSeq(xs: seq<string>): (v: Value)
    ensures v.Seq? && |v.items| == |xs|
    ensures forall i :: 0 <= i < |xs| ==> v.items[i] == Str(xs[i])
  {
    Seq(seq(|xs|, i requires 0 <= i < |xs| => Str(xs[i])))
  }

  /** The strings of a YAML list of strings, or None when an item is not a string. */
  function Strings(items: seq<Value>): (r: Option<seq<string>>)
    ensures r.Some? <==> forall i :: 0 <= i < |items| ==> items[i].Str?
    ensures r.Some? ==> |r.value| == |items|
    ensures r.Some? ==> forall i :: 0 <= i < |items| ==> items[i] == Str(r.value[i])
  {
    if items == [] then Some([])
    else if !items[0].Str? then None
    else match Strings(items[1..])
      case None => None
      case Some(rest) => Some([items[0].s] + rest)
  }

  lemma {:induction false} StringsOfStrSeq(xs: seq<string>)
    ensures Strings(StrSeq(xs).items) == Some(xs)
  {
    if xs != [] {
      assert StrSeq(xs).items[1..] == StrSeq(xs[1..]).items;
      StringsOfStrSeq(xs[1..]);
      assert xs == [xs[0]] + xs[1..];
    }
  }

  /** The dict `d` left by `d.update({k: v})` for each entry of `pairs` in turn, from `{}`. */
  function Updates(pairs: seq<Entry>): (d: seq<Entry>)
    ensures IsDict(d)
  {
    if pairs == [] then []
    else
      var init, last := pairs[..|pairs| - 1], pairs[|pairs| - 1];
      PutFacts(Updates(init), last.key, last.val);
      Put(Updates(init), last.key, last.val)
  }

  lemma {:induction false} UpdatesKeys(pairs: seq<Entry>)
    ensures forall k :: k in Keys(Updates(pairs)) <==> k in Keys(pairs)
  {
    if pairs != [] {
      var n := |pairs|;
      var init, last := pairs[..n - 1], pairs[n - 1];
      assert Keys(pairs) == Keys(init) + [last.key];
      UpdatesKeys(init);
      PutFacts(Updates(init), last.key, last.val);
    }
  }

  lemma UpdatesSnoc(pairs: seq<Entry>)
    requires pairs != []
    ensures |Updates(pairs)| == |Updates(pairs[..|pairs| - 1])| + if pairs[|pairs| - 1].key in Keys(pairs[..|pairs| - 1]) then 0 else 1
  {
    UpdatesKeys(pairs[..|pairs| - 1]);
  }

  lemma KeysSnoc(pairs: seq<Entry>)
    requires pairs != []
    ensures Distinct(Keys(pairs)) <==>
      Distinct(Keys(pairs[..|pairs| - 1])) && pairs[|pairs| - 1].key !in Keys(pairs[..|pairs| - 1])
  {
    var n := |pairs|;
    assert Keys(pairs) == Keys(pairs[..n - 1]) + [pairs[n - 1].key];
    if Distinct(Keys(pairs)) {
      forall i | 0 <= i < n - 1
        ensures pairs[i].key != pairs[n - 1].key
      {
        assert Keys(pairs)[i] != Keys(pairs)[n - 1];
      }
    }
  }

  lemma {:induction false} UpdatesLength(pairs: seq<Entry>)
    ensures |Updates(pairs)| <= |pairs|
    ensures |Updates(pairs)| == |pairs| <==> Distinct(Keys(pairs))
  {
    if pairs != [] {
      var n := |pairs|;
      UpdatesLength(pairs[..n - 1]);
      UpdatesSnoc(pairs);
      KeysSnoc(pairs);
      assert |Updates(pairs)| <= n;
      assert |Updates(pairs)| == n ==> Distinct(Keys(pairs));
      assert Distinct(Keys(pairs)) ==> |Updates(pairs)| == n;
    }
  }

  lemma {:induction false} UpdatesOfDict(pairs: seq<Entry>)
    requires Distinct(Keys(pairs))
    ensures Updates(pairs) == pairs
  {
    if pairs != [] {
      var n := |pairs|;
      var init, last := pairs[..n - 1], pairs[n - 1];
      KeysSnoc(pairs);
      UpdatesOfDict(init);
      assert Updates(pairs) == Put(init, last.key, last.val);
      assert last.key !in Keys(init);
      assert pairs == init + [Entry(last.key, last.val)];
    }
  }

  lemma {:induction false} UpdatesLastWins(pairs: seq<Entry>, j: nat)
    requires j < |pairs|
    requires forall i :: j < i < |pairs| ==> pairs[i].key != pairs[j].key
    ensures Lookup(Updates(pairs), pairs[j].key) == Some(pairs[j].val)
  {
    var n := |pairs|;
    var init, last := pairs[..n - 1], pairs[n - 1];
    assert Updates(pairs) == Put(Updates(init), last.key, last.val);
    PutFacts(Updates(init), last.key, last.val);
    if j < n - 1 {
      assert init[j] == pairs[j];
      assert forall i :: j < i < |init| ==> init[i] == pairs[i];
      UpdatesLastWins(init, j);
      assert last.key != pairs[j].key;
    }
  }

  /** Every entry of the dict lies among the updates that built it. */
  lemma {:induction false} UpdatesEntries(pairs: seq<Entry>)
    ensures forall e :: e in Updates(pairs) ==> e in pairs
  {
    if pairs != [] {
      var n := |pairs|;
      var init, last := pairs[..n - 1], pairs[n - 1];
      UpdatesEntries(init);
      PutEntries(Updates(init), last.key, last.val);
      forall e | e in Updates(pairs)
        ensures e in pairs
      {
        if e in init {
          var i :| 0 <= i < n - 1 && init[i] == e;
          assert pairs[i] == e;
        }
      }
    }
  }

  lemma PutEntries(entries: seq<Entry>, key: string, val: Value)
    ensures forall e :: e in Put(entries, key, val) ==> e in entries || e == Entry(key, val)
  {
    var k := IndexOf(entries, key, 0);
    if k < |entries| {
      forall e | e in entries[k := Entry(key, val)]
        ensures e in entries || e == Entry(key, val)
      {
        var i :| 0 <= i < |entries| && entries[k := Entry(key, val)][i] == e;
        if i != k {
          assert entries[i] == e;
        }
      }
    }
  }
}

