/** label_selector.go: a label map printed as "k=v,k=v" and parsed back. */
module Labels {
  import opened Base
  import opened Sequences
  import opened Text

  datatype Pair = Pair(key: string, val: string)

  // ----- what Set does with a string -----

  /** One "k=v" or "k" entry; None when it holds more than one '='. */
  function ParseEntry(entry: string): Option<Pair> {
    var kv := Split(entry, '=');
    if |kv| > 2 then None else Some(Pair(kv[0], if |kv| == 2 then kv[1] else ""))
  }

  /** The map after the entries up to the first malformed one, and whether there was none. */
  function SetEntries(l: map<string, string>, entries: seq<string>): (map<string, string>, bool)
    decreases |entries|
  {
    if entries == [] then (l, true)
    else
      var pair := ParseEntry(entries[0]);
      if pair.None? then (l, false) else SetEntries(l[pair.value.key := pair.value.val], entries[1..])
  }

  // ----- what String prints -----

  function Render(l: map<string, string>, key: string): string
    requires key in l
  {
    key + "=" + l[key]
  }

  function Rendered(l: map<string, string>, order: seq<string>): seq<string>
    requires forall k :: k in order ==> k in l
  {
    seq(|order|, i requires 0 <= i < |order| => assert order[i] in order; Render(l, order[i]))
  }

  /** An order in which Go may visit the map. */
  ghost predicate VisitsAll(order: seq<string>, l: map<string, string>) {
    Distinct(order) && forall k :: k in order <==> k in l
  }

  class Labels {
    var entries: map<string, string>

    constructor ()
      ensures entries == map[]
    {
      entries := map[];
    }

    method String(order: seq<string>) returns (s: string)
      requires VisitsAll(order, entries)
      ensures s == Join(Rendered(entries, order), ',')
    {
      var labels: seq<string> := [];
      for i := 0 to |order|
        invariant labels == Rendered(entries, order)[..i]
      {
        labels := labels + [order[i] + "=" + entries[order[i]]];
      }
      assert labels == Rendered(entries, order);
      s := Join(labels, ',');
    }

    /** The entries before a malformed one stay in the map. */
    method Set(value: string) returns (ok: bool)
      modifies this
      ensures (entries, ok) == SetEntries(old(entries), Split(value, ','))
    {
      var labelsStrs := Split(value, ',');
      for i := 0 to |labelsStrs|
        invariant SetEntries(entries, labelsStrs[i..]) == SetEntries(old(entries), labelsStrs)
      {
        var kv := Split(labelsStrs[i], '=');
        if |kv| < 1 || |kv| > 2 {
          return false;
        }
        var val := "";
        if |kv| == 2 {
          val := kv[1];
        }
        entries := entries[kv[0] := val];
      }
      return true;
    }
  }

  // ----- what an entry and a list of entries mean -----

  /**
    An entry with two '=' or more is malformed and no other. One without '=' is a key with an empty
    value; with one '=' it is the key before and the value after it.
  */
  lemma EntryMeaning(entry: string)
    ensures ParseEntry(entry).None? <==> exists a, b, d :: entry == a + "=" + b + "=" + d
    ensures '=' !in entry ==> ParseEntry(entry) == Some(Pair(entry, ""))
    ensures forall k, v :: '=' !in k && '=' !in v && entry == k + "=" + v ==> ParseEntry(entry) == Some(Pair(k, v))
  {
    var kv := Split(entry, '=');
    JoinOfSplit(entry, '=');
    if |kv| > 2 {
      assert entry == kv[0] + "=" + kv[1] + "=" + Join(kv[2..], '=');
    }
    forall a, b, d | entry == a + "=" + b + "=" + d ensures |kv| > 2 {
      SplitConcat(a + "=" + b, d, '=');
      SplitConcat(a, b, '=');
    }
    if '=' !in entry {
      SplitWhole(entry, '=');
    }
    forall k, v | '=' !in k && '=' !in v && entry == k + "=" + v ensures kv == [k, v] {
      SplitConcat(k, v, '=');
      SplitWhole(k, '=');
      SplitWhole(v, '=');
    }
  }

  /** The first n entries are the ones before the first malformed one. */
  ghost predicate WellFormedUpTo(entries: seq<string>, n: nat) {
    && n <= |entries| && (forall i :: 0 <= i < n ==> ParseEntry(entries[i]).Some?)
    && (n < |entries| ==> ParseEntry(entries[n]).None?)
  }

  function KeyAt(entries: seq<string>, i: nat): string
    requires i < |entries|
  {
    if ParseEntry(entries[i]).Some? then ParseEntry(entries[i]).value.key else ""
  }

  /** No entry from i up to n has the key. */
  ghost predicate NoneHasKey(entries: seq<string>, i: nat, n: nat, key: string)
    requires n <= |entries|
  {
    forall j: nat :: i <= j < n ==> KeyAt(entries, j) != key
  }

  /** Among the first n entries, this is the last with its key. */
  ghost predicate LastWithKey(entries: seq<string>, i: nat, n: nat)
    requires i < n <= |entries|
  {
    NoneHasKey(entries, i + 1, n, KeyAt(entries, i))
  }

  ghost predicate SetTo(r: map<string, string>, entry: string) {
    ParseEntry(entry).Some? && ParseEntry(entry).value.key in r
    && r[ParseEntry(entry).value.key] == ParseEntry(entry).value.val
  }

  ghost predicate SameLabel(l: map<string, string>, r: map<string, string>, key: string) {
    (key in r <==> key in l) && (key in l ==> r[key] == l[key])
  }

  /** Each of these entries is set, unless a later one of them has its key, and every other label stays. */
  lemma {:induction false} SetMeaning(l: map<string, string>, entries: seq<string>, n: nat)
    requires WellFormedUpTo(entries, n)
    ensures SetEntries(l, entries).1 <==> n == |entries|
    ensures forall i: nat :: i < n && LastWithKey(entries, i, n) ==> SetTo(SetEntries(l, entries).0, entries[i])
    ensures forall key :: NoneHasKey(entries, 0, n, key) ==> SameLabel(l, SetEntries(l, entries).0, key)
    decreases |entries|
  {
    hide ParseEntry;
    if n > 0 {
      hide SetTo, SameLabel, LastWithKey, NoneHasKey;
      var pair, rest := ParseEntry(entries[0]).value, entries[1..];
      var more := l[pair.key := pair.val];
      SetMeaning(more, rest, n - 1);
      var r := SetEntries(l, entries).0;
      assert SetEntries(l, entries) == SetEntries(more, rest);
      forall i: nat | i < n && LastWithKey(entries, i, n) ensures SetTo(r, entries[i]) {
        LastInRest(entries, i, n);
        if i == 0 {
          FirstIsSet(l, r, entries);
        }
      }
      forall key | NoneHasKey(entries, 0, n, key) ensures SameLabel(l, r, key) {
        NoneInRest(entries, n, key);
        OtherStays(l, r, entries[0], key);
      }
    }
  }

  lemma LastInRest(entries: seq<string>, i: nat, n: nat)
    requires i < n <= |entries| && LastWithKey(entries, i, n)
    ensures i > 0 ==> LastWithKey(entries[1..], i - 1, n - 1)
    ensures i == 0 ==> NoneHasKey(entries[1..], 0, n - 1, KeyAt(entries, 0))
  {
    assert forall j: nat :: j < n - 1 ==> KeyAt(entries[1..], j) == KeyAt(entries, j + 1);
  }

  lemma NoneInRest(entries: seq<string>, n: nat, key: string)
    requires 0 < n <= |entries| && NoneHasKey(entries, 0, n, key)
    ensures NoneHasKey(entries[1..], 0, n - 1, key) && KeyAt(entries, 0) != key
  {
    assert forall j: nat :: j < n - 1 ==> KeyAt(entries[1..], j) == KeyAt(entries, j + 1);
  }

  lemma FirstIsSet(l: map<string, string>, r: map<string, string>, entries: seq<string>)
    requires entries != [] && ParseEntry(entries[0]).Some?
    requires var pair := ParseEntry(entries[0]).value;
             SameLabel(l[pair.key := pair.val], r, KeyAt(entries, 0))
    ensures SetTo(r, entries[0])
  {
  }

  lemma OtherStays(l: map<string, string>, r: map<string, string>, entry: string, key: string)
    requires ParseEntry(entry).Some? && key != ParseEntry(entry).value.key
    requires var pair := ParseEntry(entry).value; SameLabel(l[pair.key := pair.val], r, key)
    ensures SameLabel(l, r, key)
  {
  }

  // ----- round trip -----

  predicate Clean(s: string) {
    ',' !in s && '=' !in s
  }

  ghost predicate CleanLabels(l: map<string, string>) {
    forall k :: k in l ==> Clean(k) && Clean(l[k])
  }

  lemma RenderedParses(l: map<string, string>, key: string)
    requires key in l && Clean(key) && Clean(l[key])
    ensures ParseEntry(Render(l, key)) == Some(Pair(key, l[key]))
  {
    SplitConcat(key, l[key], '=');
    SplitWhole(key, '=');
    SplitWhole(l[key], '=');
  }

  /** The part of a map that the keys of a sequence cover. */
  function Restricted(l: map<string, string>, keys: seq<string>): map<string, string> {
    map k | k in l && k in keys :: l[k]
  }

  lemma {:induction false} RenderedSets(base: map<string, string>, l: map<string, string>, order: seq<string>)
    requires CleanLabels(l) && forall k :: k in order ==> k in l
    ensures SetEntries(base, Rendered(l, order)) == (base + Restricted(l, order), true)
    decreases |order|
  {
    if order == [] {
      assert base + Restricted(l, order) == base;
    } else {
      var key := order[0];
      RenderedParses(l, key);
      assert Rendered(l, order)[1..] == Rendered(l, order[1..]);
      RenderedSets(base[key := l[key]], l, order[1..]);
      assert base[key := l[key]] + Restricted(l, order[1..]) == base + Restricted(l, order);
    }
  }

  /** Setting what a clean map with labels prints adds exactly those labels, in any visiting orders. */
  lemma SetAddsWhatStringPrints(base: map<string, string>, l: map<string, string>, order: seq<string>)
    requires l != map[] && CleanLabels(l) && VisitsAll(order, l)
    ensures SetEntries(base, Split(Join(Rendered(l, order), ','), ',')) == (base + l, true)
  {
    forall p | p in Rendered(l, order) ensures ',' !in p {
      var i :| 0 <= i < |order| && p == Rendered(l, order)[i];
      assert order[i] in order;
    }
    assert order != [] by {
      var k :| k in l;
    }
    SplitOfJoin(Rendered(l, order), ',');
    RenderedSets(base, l, order);
    assert Restricted(l, order) == l;
  }

  /** Whatever Set accepts holds no separator in its keys and values. */
  lemma {:induction false} SetYieldsClean(l: map<string, string>, entries: seq<string>)
    requires CleanLabels(l) && forall e :: e in entries ==> ',' !in e
    ensures CleanLabels(SetEntries(l, entries).0)
    ensures entries != [] && SetEntries(l, entries).1 ==> SetEntries(l, entries).0 != map[]
    decreases |entries|
  {
    if entries != [] {
      var pair := ParseEntry(entries[0]);
      if pair.Some? {
        var more := l[pair.value.key := pair.value.val];
        PartsHoldNothingNew(entries[0], '=', ',');
        SetYieldsClean(more, entries[1..]);
        SetKeeps(more, entries[1..], pair.value.key);
      }
    }
  }

  lemma {:induction false} SetKeeps(l: map<string, string>, entries: seq<string>, key: string)
    requires key in l
    ensures key in SetEntries(l, entries).0
    decreases |entries|
  {
    if entries != [] {
      var pair := ParseEntry(entries[0]);
      if pair.Some? {
        SetKeeps(l[pair.value.key := pair.value.val], entries[1..], key);
      }
    }
  }

  lemma {:induction false} PartsHoldNothingNew(s: string, sep: char, x: char)
    requires x !in s
    ensures forall p :: p in Split(s, sep) ==> x !in p
  {
    if s != "" {
      PartsHoldNothingNew(s[1..], sep, x);
    }
  }

  /**
    Main result: Set applied to what String prints, on an empty map, gives back the same labels
    exactly when there is a label and no key or value holds a ',' or a '='. The empty map prints
    as "", which Set reads as one label with an empty key.
  */
  lemma RoundTrip(l: map<string, string>, order: seq<string>)
    requires VisitsAll(order, l)
    ensures SetEntries(map[], Split(Join(Rendered(l, order), ','), ',')) == (l, true)
       <==> l != map[] && CleanLabels(l)
  {
    var entries := Split(Join(Rendered(l, order), ','), ',');
    if l != map[] && CleanLabels(l) {
      SetAddsWhatStringPrints(map[], l, order);
      assert map[] + l == l;
    } else {
      SetYieldsClean(map[], entries);
    }
  }
}
