/**
 * The deduplication gate as both ingestion loops apply it: messages are walked in
 * order and one is stored only when it carries a usable identifier that is not yet
 * in the record store, which by then also holds the messages stored earlier in the
 * same walk.  `NewIds` is the reference definition the two orchestrators are proved
 * against; the lemmas below are the properties of the gate.
 */
module Dedup {
  import opened Wrappers

  ghost function Elems(s: seq<string>): set<string> {
    set x | x in s
  }

  ghost predicate NoDuplicates(s: seq<string>) {
    forall i, j :: 0 <= i < j < |s| ==> s[i] != s[j]
  }

  /**
   * The identifiers stored by a walk over `items`, in the order they are stored:
   * `key` gives an item's identifier when every check other than deduplication lets
   * it through (and `None` when one of them skips it); `known` holds the identifiers
   * already in the store when the walk starts.
   */
  ghost function NewIds<T>(items: seq<T>, key: T -> Option<string>, known: set<string>): seq<string>
    decreases |items|
  {
    if items == [] then []
    else
      var prev := NewIds(items[..|items| - 1], key, known);
      var k := key(items[|items| - 1]);
      if k.Some? && k.value !in known && k.value !in prev then prev + [k.value] else prev
  }

  /** Appending one item to the walk either stores its identifier or changes nothing. */
  lemma NewIdsSnoc<T>(items: seq<T>, x: T, key: T -> Option<string>, known: set<string>)
    ensures NewIds(items + [x], key, known) ==
            var prev := NewIds(items, key, known);
            if key(x).Some? && key(x).value !in known && key(x).value !in prev
            then prev + [key(x).value] else prev
  {
    assert (items + [x])[..|items|] == items;
  }

  /** Never more stored than walked: `saved <= fetched`. */
  lemma {:induction false} NewIdsBounded<T>(items: seq<T>, key: T -> Option<string>, known: set<string>)
    ensures |NewIds(items, key, known)| <= |items|
    decreases |items|
  {
    if items != [] {
      NewIdsBounded(items[..|items| - 1], key, known);
    }
  }

  /**
   * Every stored identifier is new: it was not in the store before the walk and it
   * is stored once only.
   */
  lemma {:induction false} NewIdsAreFresh<T>(items: seq<T>, key: T -> Option<string>, known: set<string>)
    ensures NoDuplicates(NewIds(items, key, known))
    ensures forall x :: x in NewIds(items, key, known) ==> x !in known
    decreases |items|
  {
    if items != [] {
      NewIdsAreFresh(items[..|items| - 1], key, known);
    }
  }

  /** Every stored identifier is the key of some walked item. */
  lemma {:induction false} NewIdsComeFromItems<T>(items: seq<T>, key: T -> Option<string>, known: set<string>)
    ensures forall x :: x in NewIds(items, key, known) ==>
              exists i :: 0 <= i < |items| && key(items[i]) == Some(x)
    decreases |items|
  {
    if items != [] {
      var init := items[..|items| - 1];
      NewIdsComeFromItems(init, key, known);
      forall x | x in NewIds(items, key, known)
        ensures exists i :: 0 <= i < |items| && key(items[i]) == Some(x)
      {
        if x in NewIds(init, key, known) {
          var i :| 0 <= i < |init| && key(init[i]) == Some(x);
          assert items[i] == init[i];
        } else {
          assert key(items[|items| - 1]) == Some(x);
        }
      }
    }
  }

  /** Every walked item with a key ends up in the store: it was there already or it is stored. */
  lemma {:induction false} NewIdsCoverItems<T>(items: seq<T>, key: T -> Option<string>, known: set<string>)
    ensures forall i :: 0 <= i < |items| && key(items[i]).Some? ==>
              key(items[i]).value in known || key(items[i]).value in NewIds(items, key, known)
    decreases |items|
  {
    if items != [] {
      var init := items[..|items| - 1];
      NewIdsCoverItems(init, key, known);
      forall i | 0 <= i < |items| && key(items[i]).Some?
        ensures key(items[i]).value in known || key(items[i]).value in NewIds(items, key, known)
      {
        if i < |init| {
          assert items[i] == init[i];
        }
      }
    }
  }

  /** No item is stored when every key is already known (or absent). */
  lemma {:induction false} NewIdsNoneWhenAllKnown<T>(items: seq<T>, key: T -> Option<string>, known: set<string>)
    requires forall i :: 0 <= i < |items| && key(items[i]).Some? ==> key(items[i]).value in known
    ensures NewIds(items, key, known) == []
    decreases |items|
  {
    if items != [] {
      var init := items[..|items| - 1];
      forall i | 0 <= i < |init| && key(init[i]).Some? ensures key(init[i]).value in known {
        assert init[i] == items[i];
      }
      NewIdsNoneWhenAllKnown(init, key, known);
    }
  }

  /**
   * Dedup idempotence: walking the same items again, against a store that now holds
   * what the first walk stored, stores nothing.
   */
  lemma IngestTwiceStoresNothing<T>(items: seq<T>, key: T -> Option<string>, known: set<string>)
    ensures NewIds(items, key, known + Elems(NewIds(items, key, known))) == []
  {
    var after := known + Elems(NewIds(items, key, known));
    NewIdsCoverItems(items, key, known);
    NewIdsNoneWhenAllKnown(items, key, after);
  }

  /** The items whose identifiers `NewIds` stores, in the same order. */
  ghost function Accepted<T>(items: seq<T>, key: T -> Option<string>, known: set<string>): seq<T>
    decreases |items|
  {
    if items == [] then []
    else
      var init := items[..|items| - 1];
      var k := key(items[|items| - 1]);
      if k.Some? && k.value !in known && k.value !in NewIds(init, key, known)
      then Accepted(init, key, known) + [items[|items| - 1]]
      else Accepted(init, key, known)
  }

  lemma AcceptedSnoc<T>(items: seq<T>, x: T, key: T -> Option<string>, known: set<string>)
    ensures Accepted(items + [x], key, known) ==
            if key(x).Some? && key(x).value !in known && key(x).value !in NewIds(items, key, known)
            then Accepted(items, key, known) + [x] else Accepted(items, key, known)
  {
    assert (items + [x])[..|items|] == items;
  }

  /** The accepted items are walked items, and their keys are exactly the stored identifiers. */
  lemma {:induction false} AcceptedMatchesNewIds<T>(items: seq<T>, key: T -> Option<string>, known: set<string>)
    ensures |Accepted(items, key, known)| == |NewIds(items, key, known)|
    ensures forall k :: 0 <= k < |Accepted(items, key, known)| ==>
              key(Accepted(items, key, known)[k]) == Some(NewIds(items, key, known)[k])
              && Accepted(items, key, known)[k] in items
    decreases |items|
  {
    if items != [] {
      var init := items[..|items| - 1];
      AcceptedMatchesNewIds(init, key, known);
      assert forall x :: x in init ==> x in items;
    }
  }
}
