/**
 * Capacity limits of the event bus and of the news registries, and the
 * bounded, duplicate-free string lists that all three registries keep:
 * a subscriber's event types, an agency's domains and a person's
 * interested domains.
 */
module Limits {

  const MAX_SUBSCRIBERS: nat := 100
  const MAX_EVENT_TYPES: nat := 20
  const MAX_NEWS_AGENCIES: nat := 20
  const MAX_PEOPLE: nat := 50
  const MAX_TYPE_LENGTH: nat := 50
  const MAX_ID_LENGTH: nat := 100
  const MAX_NEWS_LENGTH: nat := 512
  const MAX_DOMAIN_LENGTH: nat := 50

  /** A string fits a `char[size]` buffer when there is room for it and its terminating NUL. */
  predicate Fits(s: string, size: nat) {
    |s| < size
  }
}

module TopicLists {
  import opened Limits

  /** The non-fatal outcomes that the registry operations report on the console. */
  datatype Outcome =
    | NewSubscriber   // a new subscriber was registered
    | Added           // a type or domain was appended to an existing list
    | AlreadyPresent  // the type or domain was already in the list
    | Full            // the list already holds MAX_EVENT_TYPES entries
    | RegistryFull    // the bus already holds MAX_SUBSCRIBERS subscribers
    | NotFound        // no subscriber has the given id
    | NotSubscribed   // the list does not hold the type or domain
    | Removed         // the type or domain was removed from the list
    | InvalidIndex    // an agency or person index out of range
    | NotPublished    // the agency does not publish in the domain
    | Published       // the news was handed to the bus

  /** A list after an update, with the outcome reported for the update. */
  datatype ListStep = ListStep(list: seq<string>, outcome: Outcome)

  predicate Distinct<T(==)>(s: seq<T>) {
    forall i, j :: 0 <= i < j < |s| ==> s[i] != s[j]
  }

  /** A registry list: no duplicates and at most MAX_EVENT_TYPES entries of at most `width` characters. */
  predicate BoundedList(s: seq<string>, width: nat) {
    && Distinct(s)
    && |s| <= MAX_EVENT_TYPES
    && forall k :: 0 <= k < |s| ==> Fits(s[k], width)
  }

  /** The index of the first occurrence of `x` in `s`, or -1 (the strcmp search loops). */
  function IndexOf<T(==)>(s: seq<T>, x: T): (r: int)
    ensures -1 <= r < |s|
    ensures r < 0 <==> x !in s
    ensures 0 <= r ==> s[r] == x && forall m :: 0 <= m < r ==> s[m] != x
  {
    if s == [] then -1
    else if s[0] == x then 0
    else
      var k := IndexOf(s[1..], x);
      if k < 0 then -1 else k + 1
  }

  /** The search loop of `subscribe`, `unsubscribe`, `addDomainToAgency` and the person operations. */
  method Find<T(==)>(s: seq<T>, x: T) returns (j: int)
    ensures j == IndexOf(s, x)
  {
    j := 0;
    while j < |s|
      invariant 0 <= j <= |s|
      invariant forall m :: 0 <= m < j ==> s[m] != x
    {
      if s[j] == x {
        return;
      }
      j := j + 1;
    }
    j := -1;
  }

  /**
   * The removal loop of `unsubscribe` and `personUnsubscribeFromDomain`:
   * entries after position `j` are copied one place to the left and the
   * count drops by one.
   */
  method ShiftOut(s: seq<string>, j: nat) returns (r: seq<string>)
    requires j < |s|
    ensures |r| == |s| - 1
    ensures r == s[..j] + s[j + 1..]
  {
    var buf := s;
    var k := j;
    while k < |buf| - 1
      invariant j <= k <= |s| - 1
      invariant |buf| == |s|
      invariant forall m :: 0 <= m < j ==> buf[m] == s[m]
      invariant forall m :: j <= m < k ==> buf[m] == s[m + 1]
      invariant forall m :: k <= m < |s| ==> buf[m] == s[m]
    {
      buf := buf[k := buf[k + 1]];
      k := k + 1;
    }
    r := buf[..|s| - 1];
    assert forall m :: 0 <= m < |r| ==> r[m] == (s[..j] + s[j + 1..])[m];
  }

  /**
   * The merge rule shared by `subscribe` (for a known subscriber),
   * `addDomainToAgency` and `personSubscribeToDomain`: a value already in
   * the list is reported and left alone; otherwise it is appended if the
   * list has room.
   */
  function AddUnique(s: seq<string>, x: string): ListStep {
    if x in s then ListStep(s, AlreadyPresent)
    else if |s| < MAX_EVENT_TYPES then ListStep(s + [x], Added)
    else ListStep(s, Full)
  }

  /** Removal of the first occurrence of `x`, keeping the order of the others. */
  function RemoveFirst(s: seq<string>, x: string): ListStep {
    var j := IndexOf(s, x);
    if j < 0 then ListStep(s, NotSubscribed) else ListStep(s[..j] + s[j + 1..], Removed)
  }

  /** Every element of `s` other than `x`, in order: the reference definition of removal. */
  function Without(s: seq<string>, x: string): (r: seq<string>)
    ensures x !in r
  {
    if s == [] then [] else (if s[0] == x then [] else [s[0]]) + Without(s[1..], x)
  }

  lemma DistinctAppend<T>(s: seq<T>, x: T)
    requires Distinct(s) && x !in s
    ensures Distinct(s + [x])
  {
    var r := s + [x];
    forall i, j | 0 <= i < j < |r| ensures r[i] != r[j] {
      if j == |s| {
        assert r[i] == s[i] && s[i] in s;
      }
    }
  }

  /** In a duplicate-free list, the search finds each element at its own position. */
  lemma IndexOfDistinct<T>(s: seq<T>, k: nat)
    requires Distinct(s) && k < |s|
    ensures IndexOf(s, s[k]) == k
  {
    assert s[k] in s;
  }

  /** The three outcomes of AddUnique, each with its exact condition and resulting list. */
  lemma AddUniqueOutcomes(s: seq<string>, x: string)
    ensures AddUnique(s, x).outcome == AlreadyPresent <==> x in s
    ensures AddUnique(s, x).outcome == Added <==> x !in s && |s| < MAX_EVENT_TYPES
    ensures AddUnique(s, x).outcome == Full <==> x !in s && |s| >= MAX_EVENT_TYPES
    ensures AddUnique(s, x).list == if AddUnique(s, x).outcome == Added then s + [x] else s
    ensures AddUnique(s, x).outcome != Full ==> x in AddUnique(s, x).list
  {
  }

  lemma AddUniqueKeepsBounded(s: seq<string>, x: string, width: nat)
    requires BoundedList(s, width) && Fits(x, width)
    ensures BoundedList(AddUnique(s, x).list, width)
  {
    if x !in s {
      DistinctAppend(s, x);
    }
  }

  /** Adding the same value twice leaves the list as adding it once. */
  lemma AddUniqueIdempotent(s: seq<string>, x: string)
    ensures AddUnique(AddUnique(s, x).list, x).list == AddUnique(s, x).list
    ensures AddUnique(AddUnique(s, x).list, x).outcome in {AlreadyPresent, Full}
  {
    if x !in s && |s| < MAX_EVENT_TYPES {
      assert (s + [x])[|s|] == x;
    }
  }

  lemma RemoveFirstKeepsBounded(s: seq<string>, x: string, width: nat)
    requires BoundedList(s, width)
    ensures BoundedList(RemoveFirst(s, x).list, width)
  {
    var j := IndexOf(s, x);
    if j >= 0 {
      var r := s[..j] + s[j + 1..];
      forall a, b | 0 <= a < b < |r| ensures r[a] != r[b] {
        var a', b' := if a < j then a else a + 1, if b < j then b else b + 1;
        assert r[a] == s[a'] && r[b] == s[b'] && a' < b';
      }
      forall k | 0 <= k < |r| ensures Fits(r[k], width) {
        assert r[k] == s[if k < j then k else k + 1];
      }
    }
  }

  /** On a duplicate-free list, removing the first occurrence removes every occurrence. */
  lemma {:induction false} RemoveFirstIsWithout(s: seq<string>, x: string)
    requires Distinct(s)
    ensures RemoveFirst(s, x).list == Without(s, x)
    ensures RemoveFirst(s, x).outcome == Removed <==> x in s
  {
    if s != [] {
      var tail := s[1..];
      assert s == [s[0]] + tail;
      assert Distinct(tail) by {
        forall a, b | 0 <= a < b < |tail| ensures tail[a] != tail[b] {
          assert tail[a] == s[a + 1] && tail[b] == s[b + 1];
        }
      }
      if s[0] == x {
        assert x !in tail by {
          forall k | 0 <= k < |tail| ensures tail[k] != x {
            assert tail[k] == s[k + 1];
          }
        }
        WithoutAbsent(tail, x);
      } else {
        RemoveFirstIsWithout(tail, x);
        var j := IndexOf(tail, x);
        if j >= 0 {
          assert s[..j + 1] + s[j + 2..] == [s[0]] + (tail[..j] + tail[j + 1..]);
        }
      }
    }
  }

  lemma {:induction false} WithoutAbsent(s: seq<string>, x: string)
    requires x !in s
    ensures Without(s, x) == s
  {
    if s != [] {
      WithoutAbsent(s[1..], x);
      assert s == [s[0]] + s[1..];
    }
  }

  /** Appending a new value and then removing it restores the list. */
  lemma RemoveFirstUndoesAppend(s: seq<string>, x: string)
    requires x !in s
    ensures RemoveFirst(s + [x], x) == ListStep(s, Removed)
  {
    assert (s + [x])[..|s|] == s;
    assert IndexOf(s + [x], x) == |s| by {
      assert (s + [x])[|s|] == x;
    }
  }
}
