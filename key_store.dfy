/**
 * The registry's contents as a value: an insertion-ordered sequence of key-value entries,
 * unique by exact (case-sensitive) key, with lookup and the store operation whose
 * duplicate-key behaviour depends on the update policy.
 */
module KeyStore {
  import opened Wrappers
  import opened KeyRegistryDefs
  import opened KeyParser

  datatype Entry = Entry(key: string, value: string)

  predicate UniqueKeys(entries: seq<Entry>)
  {
    forall i, j :: 0 <= i < j < |entries| ==> entries[i].key != entries[j].key
  }

  /** An entry the parser can produce: a valid key and a value of at most 32 characters. */
  predicate ValidEntry(e: Entry)
  {
    ValidKey(e.key) && |e.value| <= MaxValLen
  }

  /** The registry invariant: unique keys, every entry valid. */
  predicate ValidEntries(entries: seq<Entry>)
  {
    UniqueKeys(entries) && forall i :: 0 <= i < |entries| ==> ValidEntry(entries[i])
  }

  /** Index of the first entry at or after i whose key equals key exactly. */
  function IndexFrom(entries: seq<Entry>, key: string, i: nat): (r: Option<nat>)
    requires i <= |entries|
    ensures r.Some? ==> i <= r.value < |entries| && entries[r.value].key == key
    ensures r.Some? ==> forall k :: i <= k < r.value ==> entries[k].key != key
    ensures r.None? ==> forall k :: i <= k < |entries| ==> entries[k].key != key
    decreases |entries| - i
  {
    if i == |entries| then None
    else if entries[i].key == key then Some(i)
    else IndexFrom(entries, key, i + 1)
  }

  /** Index of the first entry whose key equals key exactly (what searchKey finds). */
  function IndexOf(entries: seq<Entry>, key: string): Option<nat>
  {
    IndexFrom(entries, key, 0)
  }

  /** The index of the first entry holding key is determined by where key occurs. */
  lemma IndexOfIs(entries: seq<Entry>, key: string, r: Option<nat>)
    requires r.Some? ==> r.value < |entries| && entries[r.value].key == key
    requires r.Some? ==> forall k :: 0 <= k < r.value ==> entries[k].key != key
    requires r.None? ==> forall k :: 0 <= k < |entries| ==> entries[k].key != key
    ensures IndexOf(entries, key) == r
  {
  }

  /** The value stored under key (what readKey returns). */
  function Lookup(entries: seq<Entry>, key: string): (r: Option<string>)
    ensures r.None? <==> forall i :: 0 <= i < |entries| ==> entries[i].key != key
    ensures UniqueKeys(entries) ==>
      forall i :: 0 <= i < |entries| && entries[i].key == key ==> r == Some(entries[i].value)
  {
    match IndexOf(entries, key)
    case Some(i) => Some(entries[i].value)
    case None => None
  }

  datatype StoreOutcome = StoreOutcome(code: Code, entries: seq<Entry>)

  /**
   * storeKey: an absent key is appended at the tail; a present key is rejected with
   * KEY_EXISTS in strict mode, or has its value replaced in place when updates are allowed.
   */
  function Store(entries: seq<Entry>, allowUpdate: bool, key: string, value: string): (r: StoreOutcome)
    ensures r.code == Ok || r.code == KeyExists
    ensures r.code == KeyExists <==> !allowUpdate && Lookup(entries, key).Some?
  {
    match IndexOf(entries, key)
    case Some(i) =>
      if allowUpdate then StoreOutcome(Ok, entries[i := Entry(key, value)])
      else StoreOutcome(KeyExists, entries)
    case None => StoreOutcome(Ok, entries + [Entry(key, value)])
  }

  /**
   * Store keeps the order and touches one entry at most: the entries before it keep their
   * keys, every entry of another key is unchanged, a new key goes at the tail, and a rejected
   * store changes nothing.
   */
  lemma StoreShape(entries: seq<Entry>, allowUpdate: bool, key: string, value: string)
    ensures var r := Store(entries, allowUpdate, key, value);
      && |r.entries| == |entries| + (if Lookup(entries, key).None? then 1 else 0)
      && (forall i :: 0 <= i < |entries| ==> r.entries[i].key == entries[i].key)
      && (forall i :: 0 <= i < |entries| && entries[i].key != key ==> r.entries[i] == entries[i])
      && (Lookup(entries, key).None? ==> r.entries[|entries|] == Entry(key, value))
      && (r.code == KeyExists ==> r.entries == entries)
  {
  }

  /**
   * Store behaves as a map update: after it key holds the new value when the store succeeded
   * (the old one when it was rejected), and every other key keeps its value.
   */
  lemma StoreLookup(entries: seq<Entry>, allowUpdate: bool, key: string, value: string, k: string)
    ensures var r := Store(entries, allowUpdate, key, value);
      Lookup(r.entries, k) == if k == key && r.code == Ok then Some(value) else Lookup(entries, k)
  {
    var r := Store(entries, allowUpdate, key, value);
    var e' := r.entries;
    match IndexOf(entries, key)
    case Some(i) =>
      if allowUpdate {
        IndexOfIs(e', k, IndexOf(entries, k));
      }
    case None =>
      if k == key {
        IndexOfIs(e', k, Some(|entries|));
      } else {
        IndexOfIs(e', k, IndexOf(entries, k));
      }
  }

  /** Store keeps the registry invariant when what it stores is a valid entry. */
  lemma StorePreservesValid(entries: seq<Entry>, allowUpdate: bool, key: string, value: string)
    requires ValidEntries(entries) && ValidEntry(Entry(key, value))
    ensures ValidEntries(Store(entries, allowUpdate, key, value).entries)
  {
    StoreShape(entries, allowUpdate, key, value);
  }

  /** Storing a sequence of entries one after the other, ignoring each result. */
  function StoreAll(entries: seq<Entry>, allowUpdate: bool, pairs: seq<Entry>): seq<Entry>
    decreases |pairs|
  {
    if pairs == [] then entries
    else StoreAll(Store(entries, allowUpdate, pairs[0].key, pairs[0].value).entries, allowUpdate, pairs[1..])
  }

  /** The value of the last of pairs with key k. */
  function LastValue(pairs: seq<Entry>, k: string): (r: Option<string>)
    ensures r.None? <==> forall i :: 0 <= i < |pairs| ==> pairs[i].key != k
    decreases |pairs|
  {
    if pairs == [] then None
    else if pairs[|pairs| - 1].key == k then Some(pairs[|pairs| - 1].value)
    else LastValue(pairs[..|pairs| - 1], k)
  }

  lemma LastValueCons(p: Entry, pairs: seq<Entry>, k: string)
    ensures LastValue([p] + pairs, k) ==
      if LastValue(pairs, k).Some? then LastValue(pairs, k)
      else if p.key == k then Some(p.value) else None
    decreases |pairs|
  {
    if pairs != [] {
      assert ([p] + pairs)[..|[p] + pairs| - 1] == [p] + pairs[..|pairs| - 1];
      LastValueCons(p, pairs[..|pairs| - 1], k);
    }
  }

  /**
   * In strict mode the first occurrence of a key wins: after a run of stores, a key already
   * present keeps its value and any other key holds the value of its first occurrence.
   */
  lemma {:induction false} StoreAllStrict(entries: seq<Entry>, pairs: seq<Entry>, k: string)
    ensures Lookup(StoreAll(entries, false, pairs), k) ==
      if Lookup(entries, k).Some? then Lookup(entries, k) else Lookup(pairs, k)
    decreases |pairs|
  {
    if pairs != [] {
      var p := pairs[0];
      StoreLookup(entries, false, p.key, p.value, k);
      StoreAllStrict(Store(entries, false, p.key, p.value).entries, pairs[1..], k);
      IndexOfIs(pairs, k, if p.key == k then Some(0) else
        match IndexOf(pairs[1..], k) case Some(i) => Some(i + 1) case None => None);
    }
  }

  /**
   * With updates allowed the last occurrence of a key wins: after a run of stores, a key holds
   * the value of its last occurrence, or its old value when it does not occur.
   */
  lemma {:induction false} StoreAllUpdate(entries: seq<Entry>, pairs: seq<Entry>, k: string)
    ensures Lookup(StoreAll(entries, true, pairs), k) ==
      if LastValue(pairs, k).Some? then LastValue(pairs, k) else Lookup(entries, k)
    decreases |pairs|
  {
    if pairs != [] {
      var p := pairs[0];
      StoreLookup(entries, true, p.key, p.value, k);
      StoreAllUpdate(Store(entries, true, p.key, p.value).entries, pairs[1..], k);
      assert pairs == [p] + pairs[1..];
      LastValueCons(p, pairs[1..], k);
    }
  }

  /** Stores of distinct new keys simply append them, in order. */
  lemma {:induction false} StoreAllFresh(entries: seq<Entry>, allowUpdate: bool, pairs: seq<Entry>)
    requires UniqueKeys(entries + pairs)
    ensures StoreAll(entries, allowUpdate, pairs) == entries + pairs
    decreases |pairs|
  {
    if pairs != [] {
      var p := pairs[0];
      var all := entries + pairs;
      assert all[|entries|] == p;
      assert forall k :: 0 <= k < |entries| ==> entries[k].key == all[k].key != p.key;
      IndexOfIs(entries, p.key, None);
      assert Store(entries, allowUpdate, p.key, p.value).entries == entries + [p];
      assert (entries + [p]) + pairs[1..] == all;
      StoreAllFresh(entries + [p], allowUpdate, pairs[1..]);
    }
  }

  /** A run of stores of valid entries keeps the registry invariant. */
  lemma {:induction false} StoreAllPreservesValid(entries: seq<Entry>, allowUpdate: bool, pairs: seq<Entry>)
    requires ValidEntries(entries) && forall i :: 0 <= i < |pairs| ==> ValidEntry(pairs[i])
    ensures ValidEntries(StoreAll(entries, allowUpdate, pairs))
    decreases |pairs|
  {
    if pairs != [] {
      StorePreservesValid(entries, allowUpdate, pairs[0].key, pairs[0].value);
      StoreAllPreservesValid(Store(entries, allowUpdate, pairs[0].key, pairs[0].value).entries, allowUpdate, pairs[1..]);
    }
  }
}
