/**
 * Exact-name lookup shared by the menu and the directory: both find the first
 * entry whose name equals the requested one (case-sensitive, whole string) and
 * both delete an entry by position, keeping the order of the rest.
 */
module Lookup {

  datatype Option<T> = None | Some(value: T)

  /** The two "not found" failures of the catalog. */
  datatype Error = ItemNotFound | RestaurantNotFound

  /** Success or one of the catalog's failures, for operations that return a value. */
  datatype Result<T> = Success(value: T) | Failure(error: Error)

  /** Success or one of the catalog's failures, for operations that only change state. */
  datatype Outcome = Pass | Fail(error: Error)

  /** No name occurs twice. */
  predicate NoDuplicates(keys: seq<string>)
  {
    forall i, j :: 0 <= i < j < |keys| ==> keys[i] != keys[j]
  }

  /** Position of the first occurrence of `key`: the entry a first-match lookup selects. */
  function FirstIndex(keys: seq<string>, key: string): (i: nat)
    requires key in keys
    ensures i < |keys| && keys[i] == key
    ensures forall j :: 0 <= j < i ==> keys[j] != key
  {
    if keys[0] == key then 0 else 1 + FirstIndex(keys[1..], key)
  }

  /** `s` without its element at position `i`; the others keep their order. */
  function RemoveAt<T>(s: seq<T>, i: nat): (r: seq<T>)
    requires i < |s|
    ensures |r| == |s| - 1
    ensures forall j :: 0 <= j < i ==> r[j] == s[j]
    ensures forall j :: i <= j < |r| ==> r[j] == s[j + 1]
  {
    s[..i] + s[i + 1..]
  }

  /** Removing position `i` takes exactly one copy of `s[i]` out and leaves every other element. */
  lemma RemoveAtMultiset<T>(s: seq<T>, i: nat)
    requires i < |s|
    ensures multiset(RemoveAt(s, i)) == multiset(s) - multiset{s[i]}
    ensures multiset(RemoveAt(s, i)) + multiset{s[i]} == multiset(s)
  {
    assert s == s[..i] + [s[i]] + s[i + 1..];
  }

  /** When names are unique, removing a name's entry leaves no entry of that name, and names stay unique. */
  lemma RemoveUniqueKey(keys: seq<string>, key: string)
    requires NoDuplicates(keys) && key in keys
    ensures key !in RemoveAt(keys, FirstIndex(keys, key))
    ensures NoDuplicates(RemoveAt(keys, FirstIndex(keys, key)))
  {
  }

  /** Linear first-match search: the index of the first entry equal to `key`, or None when there is none. */
  method Search(keys: seq<string>, key: string) returns (r: Option<nat>)
    ensures key in keys ==> r == Some(FirstIndex(keys, key))
    ensures key !in keys ==> r == None
  {
    var i := 0;
    while i < |keys|
      invariant 0 <= i <= |keys|
      invariant forall j :: 0 <= j < i ==> keys[j] != key
    {
      if keys[i] == key {
        return Some(i);
      }
      i := i + 1;
    }
    return None;
  }
}
