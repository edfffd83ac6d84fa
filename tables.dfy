/**
 * The engine keeps every index, and the relationships it derives, in plain
 * JavaScript objects used as dictionaries from a string to an array of
 * strings. This module models such an object: the keys in the order they were
 * first created (the order `Object.keys` reports them in) and the map from
 * each key to its list.
 */
module Tables {

  /** No element of `s` occurs twice. */
  predicate Distinct(s: seq<string>) {
    forall i, j :: 0 <= i < j < |s| ==> s[i] != s[j]
  }

  /** A string-keyed dictionary of string lists with its key creation order. */
  datatype Table = Table(keys: seq<string>, lists: map<string, seq<string>>) {

    /** The key order lists every key of the dictionary exactly once. */
    ghost predicate Valid() {
      Distinct(keys) && forall k :: k in lists <==> k in keys
    }

    /** No list holds an element twice. */
    ghost predicate NoDuplicates() {
      forall k :: k in lists ==> Distinct(lists[k])
    }

    /** No key maps to an empty list. */
    ghost predicate NoEmptyLists() {
      forall k :: k in lists ==> lists[k] != []
    }

    /** The invariant of the four indexes: well-ordered keys, non-empty
        duplicate-free lists. */
    ghost predicate Sound() {
      Valid() && NoDuplicates() && NoEmptyLists()
    }

    /** `table[k] || []`: the list of `k`, empty when `k` is not a key. */
    function Get(k: string): seq<string> {
      if k in lists then lists[k] else []
    }

    /** `table[k] = table[k] || []`: makes `k` a key, appending it to the key
        order when it is new, and changes no list. */
    function GetOrCreate(k: string): (r: Table)
      ensures k in r.lists
      ensures forall k' :: r.Get(k') == Get(k')
      ensures r.keys == if k in lists then keys else keys + [k]
      ensures Valid() ==> r.Valid()
    {
      if k in lists then this else Table(keys + [k], lists[k := []])
    }

    /** `table[k].push(v)` on an existing key. */
    function Append(k: string, v: string): (r: Table)
      requires k in lists
      ensures r.keys == keys && r.lists.Keys == lists.Keys
      ensures r.Get(k) == Get(k) + [v]
      ensures forall k' :: k' != k ==> r.Get(k') == Get(k')
      ensures Valid() ==> r.Valid()
    {
      Table(keys, lists[k := lists[k] + [v]])
    }

    /** Get-or-create followed by an unconditional push: how the
        relationships dictionary grows. */
    function Push(k: string, v: string): (r: Table)
      ensures k in r.lists
      ensures r.Get(k) == Get(k) + [v]
      ensures forall k' :: k' != k ==> r.Get(k') == Get(k')
      ensures r.keys == if k in lists then keys else keys + [k]
      ensures Valid() ==> r.Valid()
      ensures NoEmptyLists() ==> r.NoEmptyLists()
    {
      GetOrCreate(k).Append(k, v)
    }

    /** Get-or-create followed by a push only when `indexOf(v) < 0`: how each
        of the four indexes grows. The list of `k` gains `v` at its end unless
        it already holds it; no other list changes; a new key goes to the end
        of the key order. */
    function Add(k: string, v: string): (r: Table)
      ensures k in r.lists
      ensures r.Get(k) == if v in Get(k) then Get(k) else Get(k) + [v]
      ensures forall x :: x in r.Get(k) <==> x in Get(k) || x == v
      ensures forall k' :: k' != k ==> r.Get(k') == Get(k')
      ensures r.keys == if k in lists then keys else keys + [k]
      ensures Valid() ==> r.Valid()
      ensures NoEmptyLists() ==> r.NoEmptyLists()
      ensures NoDuplicates() ==> r.NoDuplicates()
    {
      var t := GetOrCreate(k);
      if v in t.lists[k] then t else t.Append(k, v)
    }
  }

  /** A freshly created `{}`. */
  const EmptyTable: Table := Table([], map[])

  lemma EmptyTableSound()
    ensures EmptyTable.Sound()
  {
  }

  /** After `Add(k, v)`, a list holds what it held before and, for `k`, `v`. */
  lemma AddContents(t: Table, k: string, v: string, k': string, x: string)
    ensures x in t.Add(k, v).Get(k') <==> x in t.Get(k') || (k' == k && x == v)
  {
  }

  /** Adding a value already on its key's list leaves the table as it is. */
  lemma AddPresent(t: Table, k: string, v: string)
    requires v in t.Get(k)
    ensures t.Add(k, v) == t
  {
    assert k in t.lists;
  }

  /** Adding a pair that is already present changes nothing, so adding the
      same pair twice is the same as adding it once. */
  lemma AddIdempotent(t: Table, k: string, v: string)
    ensures t.Add(k, v).Add(k, v) == t.Add(k, v)
  {
  }
}
