/**
 * The topic-based event bus: an ordered registry of subscribers, each with
 * a unique id, a duplicate-free ordered list of event types and one handler,
 * and a dispatcher that fires, in registration order, every subscriber that
 * holds the published type.
 *
 * The pure functions SubscribeStep, UnsubscribeStep and Interested are the
 * specification; the class EventBus is the in-place implementation over a
 * fixed-capacity array, proved to follow them.
 */
module EventBus {
  import opened Limits
  import opened TopicLists

  /** A handler is an opaque token naming the callback; the bus never inspects it. */
  datatype Handler = Handler(name: string)

  /** One registry entry: `eventTypeCount` of the source is `|eventTypes|`. */
  datatype Subscriber = Subscriber(id: string, eventTypes: seq<string>, handler: Handler)

  /** The event built by `publish`; the payload is opaque to the bus. */
  datatype Event<P> = Event(eventType: string, data: P, sourceId: string)

  /** A registry after an operation, with the outcome the operation reports. */
  datatype Step = Step(registry: seq<Subscriber>, outcome: Outcome)

  function Ids(reg: seq<Subscriber>): (ids: seq<string>)
    ensures |ids| == |reg|
  {
    seq(|reg|, k requires 0 <= k < |reg| => reg[k].id)
  }

  /** The registry invariant: capacity bounds, unique ids, duplicate-free bounded type lists. */
  predicate WellFormed(reg: seq<Subscriber>) {
    && |reg| <= MAX_SUBSCRIBERS
    && Distinct(Ids(reg))
    && forall k :: 0 <= k < |reg| ==>
         Fits(reg[k].id, MAX_ID_LENGTH) && BoundedList(reg[k].eventTypes, MAX_TYPE_LENGTH)
  }

  /**
   * `subscribe` on a registry: an existing id merges the type into its list
   * (its stored handler is kept); an unseen id gets a new entry at the end
   * if there is room.
   */
  function SubscribeStep(reg: seq<Subscriber>, id: string, eventType: string, handler: Handler): Step {
    var i := IndexOf(Ids(reg), id);
    if i >= 0 then
      var merged := AddUnique(reg[i].eventTypes, eventType);
      if merged.outcome == Added then Step(reg[i := reg[i].(eventTypes := merged.list)], Added)
      else Step(reg, merged.outcome)
    else if |reg| >= MAX_SUBSCRIBERS then Step(reg, RegistryFull)
    else Step(reg + [Subscriber(id, [eventType], handler)], NewSubscriber)
  }

  /** `unsubscribe` on a registry: the entry itself is never deleted. */
  function UnsubscribeStep(reg: seq<Subscriber>, id: string, eventType: string): Step {
    var i := IndexOf(Ids(reg), id);
    if i < 0 then Step(reg, NotFound)
    else
      var removed := RemoveFirst(reg[i].eventTypes, eventType);
      if removed.outcome == Removed then Step(reg[i := reg[i].(eventTypes := removed.list)], Removed)
      else Step(reg, NotSubscribed)
  }

  /** The ids of the subscribers whose list holds `eventType`, in registration order. */
  function Interested(reg: seq<Subscriber>, eventType: string): (ids: seq<string>)
    ensures |ids| <= |reg|
  {
    if reg == [] then []
    else
      var last := reg[|reg| - 1];
      Interested(reg[..|reg| - 1], eventType) + (if eventType in last.eventTypes then [last.id] else [])
  }

  class EventBus {
    const subscribers: array<Subscriber>
    var subscriberCount: nat

    ghost predicate Valid()
      reads this, subscribers
    {
      && subscribers.Length == MAX_SUBSCRIBERS
      && subscriberCount <= subscribers.Length
      && WellFormed(subscribers[..subscriberCount])
    }

    /** The registered subscribers, in registration order. */
    ghost function Registry(): seq<Subscriber>
      reads this, subscribers
      requires Valid()
    {
      subscribers[..subscriberCount]
    }

    /** The statically allocated bus, before `initEventBus`. */
    constructor ()
      ensures Valid() && fresh(subscribers) && Registry() == []
    {
      subscribers := new Subscriber[MAX_SUBSCRIBERS];
      subscriberCount := 0;
    }

    /** `initEventBus`: forget every subscriber. */
    method Init()
      requires subscribers.Length == MAX_SUBSCRIBERS
      modifies this
      ensures Valid() && Registry() == []
    {
      subscriberCount := 0;
    }

    /** The outer search loop of `subscribe` and `unsubscribe`. */
    method FindSubscriber(id: string) returns (i: int)
      requires Valid()
      ensures i == IndexOf(Ids(Registry()), id)
    {
      ghost var ids := Ids(Registry());
      i := 0;
      while i < subscriberCount
        invariant 0 <= i <= subscriberCount
        invariant forall m :: 0 <= m < i ==> ids[m] != id
      {
        assert ids[i] == subscribers[i].id;
        if subscribers[i].id == id {
          return;
        }
        i := i + 1;
      }
      i := -1;
    }

    method Subscribe(id: string, eventType: string, handler: Handler) returns (outcome: Outcome)
      requires Valid() && Fits(id, MAX_ID_LENGTH) && Fits(eventType, MAX_TYPE_LENGTH)
      modifies this, subscribers
      ensures Valid()
      ensures Registry() == SubscribeStep(old(Registry()), id, eventType, handler).registry
      ensures outcome == SubscribeStep(old(Registry()), id, eventType, handler).outcome
    {
      ghost var reg := Registry();
      SubscribeStepKeepsWellFormed(reg, id, eventType, handler);
      var i := FindSubscriber(id);
      if i >= 0 {
        var s := subscribers[i];
        var j := Find(s.eventTypes, eventType);
        if j >= 0 {
          return AlreadyPresent;
        }
        if |s.eventTypes| < MAX_EVENT_TYPES {
          subscribers[i] := s.(eventTypes := s.eventTypes + [eventType]);
          assert subscribers[..subscriberCount] == reg[i := s.(eventTypes := s.eventTypes + [eventType])];
          return Added;
        }
        return Full;
      }
      if subscriberCount >= MAX_SUBSCRIBERS {
        return RegistryFull;
      }
      subscribers[subscriberCount] := Subscriber(id, [eventType], handler);
      subscriberCount := subscriberCount + 1;
      assert subscribers[..subscriberCount] == reg + [Subscriber(id, [eventType], handler)];
      return NewSubscriber;
    }

    method Unsubscribe(id: string, eventType: string) returns (outcome: Outcome)
      requires Valid()
      modifies subscribers
      ensures Valid()
      ensures Registry() == UnsubscribeStep(old(Registry()), id, eventType).registry
      ensures outcome == UnsubscribeStep(old(Registry()), id, eventType).outcome
    {
      ghost var reg := Registry();
      UnsubscribeStepKeepsWellFormed(reg, id, eventType);
      var i := FindSubscriber(id);
      if i < 0 {
        return NotFound;
      }
      var s := subscribers[i];
      var j := Find(s.eventTypes, eventType);
      if j < 0 {
        return NotSubscribed;
      }
      var rest := ShiftOut(s.eventTypes, j);
      subscribers[i] := s.(eventTypes := rest);
      assert subscribers[..subscriberCount] == reg[i := s.(eventTypes := rest)];
      return Removed;
    }

    /**
     * `publish`: builds the event and fires, once each and in registration
     * order, the subscribers whose list holds the type (the inner loop
     * stops at the first matching type). Returns the ids fired.
     */
    method Publish<P>(eventType: string, data: P, sourceId: string) returns (event: Event<P>, fired: seq<string>)
      requires Valid() && Fits(eventType, MAX_TYPE_LENGTH) && Fits(sourceId, MAX_ID_LENGTH)
      ensures event == Event(eventType, data, sourceId)
      ensures fired == Interested(Registry(), eventType)
    {
      event := Event(eventType, data, sourceId);
      fired := [];
      var i := 0;
      while i < subscriberCount
        invariant 0 <= i <= subscriberCount
        invariant fired == Interested(subscribers[..i], eventType)
      {
        var s := subscribers[i];
        var j := Find(s.eventTypes, eventType);
        if j >= 0 {
          fired := fired + [s.id];
        }
        assert subscribers[..i + 1][..i] == subscribers[..i];
        i := i + 1;
      }
    }
  }

  lemma IdsAppend(reg: seq<Subscriber>, s: Subscriber)
    ensures Ids(reg + [s]) == Ids(reg) + [s.id]
  {
  }

  lemma IdsUpdate(reg: seq<Subscriber>, i: nat, s: Subscriber)
    requires i < |reg| && s.id == reg[i].id
    ensures Ids(reg[i := s]) == Ids(reg)
  {
  }

  /** `subscribe` preserves the registry invariant. */
  lemma SubscribeStepKeepsWellFormed(reg: seq<Subscriber>, id: string, eventType: string, handler: Handler)
    requires WellFormed(reg) && Fits(id, MAX_ID_LENGTH) && Fits(eventType, MAX_TYPE_LENGTH)
    ensures WellFormed(SubscribeStep(reg, id, eventType, handler).registry)
  {
    var i := IndexOf(Ids(reg), id);
    if i >= 0 {
      AddUniqueKeepsBounded(reg[i].eventTypes, eventType, MAX_TYPE_LENGTH);
      IdsUpdate(reg, i, reg[i].(eventTypes := AddUnique(reg[i].eventTypes, eventType).list));
    } else if |reg| < MAX_SUBSCRIBERS {
      var s := Subscriber(id, [eventType], handler);
      IdsAppend(reg, s);
      DistinctAppend(Ids(reg), id);
    }
  }

  /** `unsubscribe` preserves the registry invariant. */
  lemma UnsubscribeStepKeepsWellFormed(reg: seq<Subscriber>, id: string, eventType: string)
    requires WellFormed(reg)
    ensures WellFormed(UnsubscribeStep(reg, id, eventType).registry)
  {
    var i := IndexOf(Ids(reg), id);
    if i >= 0 {
      RemoveFirstKeepsBounded(reg[i].eventTypes, eventType, MAX_TYPE_LENGTH);
      IdsUpdate(reg, i, reg[i].(eventTypes := RemoveFirst(reg[i].eventTypes, eventType).list));
    }
  }

  /** A registry holds `id` at position `k` (ids are unique in a well-formed registry). */
  predicate HasIdAt(reg: seq<Subscriber>, id: string, k: int) {
    0 <= k < |reg| && reg[k].id == id
  }

  lemma FindIdAt(reg: seq<Subscriber>, id: string, k: int)
    requires Distinct(Ids(reg)) && HasIdAt(reg, id, k)
    ensures IndexOf(Ids(reg), id) == k
  {
    IndexOfDistinct(Ids(reg), k);
  }

  /** Subscribing an unseen id appends one entry with that id, one type and the handler, or reports a full registry. */
  lemma SubscribeUnseenId(reg: seq<Subscriber>, id: string, eventType: string, handler: Handler)
    requires id !in Ids(reg)
    ensures var step := SubscribeStep(reg, id, eventType, handler);
      if |reg| < MAX_SUBSCRIBERS then
        && step.outcome == NewSubscriber
        && |step.registry| == |reg| + 1
        && step.registry[..|reg|] == reg
        && step.registry[|reg|] == Subscriber(id, [eventType], handler)
      else step == Step(reg, RegistryFull)
  {
  }

  /** Subscribing an id to a type it already holds changes nothing. */
  lemma SubscribeHeldType(reg: seq<Subscriber>, id: string, eventType: string, handler: Handler, k: int)
    requires Distinct(Ids(reg)) && HasIdAt(reg, id, k) && eventType in reg[k].eventTypes
    ensures SubscribeStep(reg, id, eventType, handler) == Step(reg, AlreadyPresent)
  {
    FindIdAt(reg, id, k);
  }

  /**
   * Subscribing a known id to a new type appends the type to that entry's
   * list if it has room; the stored handler is kept and every other entry
   * is unchanged.
   */
  lemma SubscribeNewType(reg: seq<Subscriber>, id: string, eventType: string, handler: Handler, k: int)
    requires Distinct(Ids(reg)) && HasIdAt(reg, id, k) && eventType !in reg[k].eventTypes
    ensures var step := SubscribeStep(reg, id, eventType, handler);
      if |reg[k].eventTypes| < MAX_EVENT_TYPES then
        && step.outcome == Added
        && |step.registry| == |reg|
        && (forall m :: 0 <= m < |reg| && m != k ==> step.registry[m] == reg[m])
        && step.registry[k].id == id
        && step.registry[k].handler == reg[k].handler
        && step.registry[k].eventTypes == reg[k].eventTypes + [eventType]
      else step == Step(reg, Full)
  {
    FindIdAt(reg, id, k);
  }

  /** Subscribing twice to the same type leaves the registry as subscribing once, whatever the handlers. */
  lemma SubscribeIdempotent(reg: seq<Subscriber>, id: string, eventType: string, h1: Handler, h2: Handler)
    ensures var once := SubscribeStep(reg, id, eventType, h1).registry;
      && SubscribeStep(once, id, eventType, h2).registry == once
      && SubscribeStep(once, id, eventType, h2).outcome in {AlreadyPresent, Full, RegistryFull}
  {
    var i := IndexOf(Ids(reg), id);
    if i >= 0 {
      var merged := AddUnique(reg[i].eventTypes, eventType);
      AddUniqueIdempotent(reg[i].eventTypes, eventType);
      if merged.outcome == Added {
        IdsUpdate(reg, i, reg[i].(eventTypes := merged.list));
      }
    } else if |reg| < MAX_SUBSCRIBERS {
      var s := Subscriber(id, [eventType], handler := h1);
      IdsAppend(reg, s);
      assert (Ids(reg) + [id])[..|reg|] == Ids(reg);
      assert IndexOf(Ids(reg + [s]), id) == |reg|;
    }
  }

  /** Two subscriptions of a new id to two types make one subscriber holding both, in order. */
  lemma SubscribeMerges(reg: seq<Subscriber>, id: string, t1: string, t2: string, h1: Handler, h2: Handler)
    requires WellFormed(reg) && id !in Ids(reg) && |reg| < MAX_SUBSCRIBERS && t1 != t2
    ensures var after := SubscribeStep(SubscribeStep(reg, id, t1, h1).registry, id, t2, h2);
      && after.outcome == Added
      && after.registry == reg + [Subscriber(id, [t1, t2], h1)]
  {
    var s := Subscriber(id, [t1], h1);
    IdsAppend(reg, s);
    assert (Ids(reg) + [id])[..|reg|] == Ids(reg);
    assert IndexOf(Ids(reg + [s]), id) == |reg|;
    assert AddUnique([t1], t2).list == [t1, t2];
    assert (reg + [s])[|reg| := s.(eventTypes := [t1, t2])] == reg + [Subscriber(id, [t1, t2], h1)];
  }

  /**
   * Unsubscribing a held type removes exactly that type, keeps the order of
   * the others, and keeps the entry even when its list becomes empty.
   */
  lemma UnsubscribeHeldType(reg: seq<Subscriber>, id: string, eventType: string, k: int)
    requires WellFormed(reg) && HasIdAt(reg, id, k) && eventType in reg[k].eventTypes
    ensures var step := UnsubscribeStep(reg, id, eventType);
      && step.outcome == Removed
      && step.registry == reg[k := reg[k].(eventTypes := Without(reg[k].eventTypes, eventType))]
      && eventType !in step.registry[k].eventTypes
      && |step.registry[k].eventTypes| == |reg[k].eventTypes| - 1
  {
    FindIdAt(reg, id, k);
    RemoveFirstIsWithout(reg[k].eventTypes, eventType);
  }

  /** Unsubscribing an unknown id, or a type the subscriber does not hold, changes nothing. */
  lemma UnsubscribeNoChange(reg: seq<Subscriber>, id: string, eventType: string)
    requires Distinct(Ids(reg))
    ensures id !in Ids(reg) ==> UnsubscribeStep(reg, id, eventType) == Step(reg, NotFound)
    ensures forall k :: HasIdAt(reg, id, k) && eventType !in reg[k].eventTypes ==>
      UnsubscribeStep(reg, id, eventType) == Step(reg, NotSubscribed)
  {
    forall k | HasIdAt(reg, id, k) {
      FindIdAt(reg, id, k);
    }
  }

  /** Unsubscribing undoes subscribing a known id to a new type. */
  lemma UnsubscribeUndoesSubscribe(reg: seq<Subscriber>, id: string, eventType: string, handler: Handler, k: int)
    requires WellFormed(reg) && HasIdAt(reg, id, k) && eventType !in reg[k].eventTypes
    requires |reg[k].eventTypes| < MAX_EVENT_TYPES
    ensures var added := SubscribeStep(reg, id, eventType, handler);
      && added.outcome == Added
      && UnsubscribeStep(added.registry, id, eventType) == Step(reg, Removed)
  {
    FindIdAt(reg, id, k);
    var s := reg[k].(eventTypes := reg[k].eventTypes + [eventType]);
    IdsUpdate(reg, k, s);
    RemoveFirstUndoesAppend(reg[k].eventTypes, eventType);
    assert reg[k := s][k := reg[k]] == reg;
  }

  /** Publishing fires exactly the subscribers that hold the type; none when nobody holds it. */
  lemma {:induction false} InterestedMembers(reg: seq<Subscriber>, eventType: string, x: string)
    ensures x in Interested(reg, eventType) <==>
      exists k :: HasIdAt(reg, x, k) && eventType in reg[k].eventTypes
  {
    if reg != [] {
      var init := reg[..|reg| - 1];
      InterestedMembers(init, eventType, x);
      if x in Interested(init, eventType) {
        var k :| HasIdAt(init, x, k) && eventType in init[k].eventTypes;
        assert HasIdAt(reg, x, k);
      }
      if exists k :: HasIdAt(reg, x, k) && eventType in reg[k].eventTypes {
        var k :| HasIdAt(reg, x, k) && eventType in reg[k].eventTypes;
        if k < |init| {
          assert HasIdAt(init, x, k);
        }
      }
    }
  }

  lemma InterestedNone(reg: seq<Subscriber>, eventType: string)
    requires forall k :: 0 <= k < |reg| ==> eventType !in reg[k].eventTypes
    ensures Interested(reg, eventType) == []
  {
    if Interested(reg, eventType) != [] {
      InterestedMembers(reg, eventType, Interested(reg, eventType)[0]);
    }
  }

  /** With unique ids, every subscriber fires at most once per publish. */
  lemma {:induction false} InterestedOnce(reg: seq<Subscriber>, eventType: string)
    requires Distinct(Ids(reg))
    ensures Distinct(Interested(reg, eventType))
  {
    if reg != [] {
      var init := reg[..|reg| - 1];
      var last := reg[|reg| - 1];
      assert Ids(init) == Ids(reg)[..|reg| - 1];
      InterestedOnce(init, eventType);
      if eventType in last.eventTypes {
        InterestedMembers(init, eventType, last.id);
        forall k | 0 <= k < |init| ensures init[k].id != last.id {
          assert Ids(reg)[k] == init[k].id && Ids(reg)[|reg| - 1] == last.id;
        }
        DistinctAppend(Interested(init, eventType), last.id);
      }
    }
  }

  /** `a` is `b` with some elements left out, the rest in their original order. */
  predicate IsSubsequence<T(==)>(a: seq<T>, b: seq<T>)
    decreases |b|
  {
    if b == [] then a == []
    else
      || IsSubsequence(a, b[..|b| - 1])
      || (a != [] && a[|a| - 1] == b[|b| - 1] && IsSubsequence(a[..|a| - 1], b[..|b| - 1]))
  }

  /** Subscribers fire in registration order. */
  lemma {:induction false} InterestedInOrder(reg: seq<Subscriber>, eventType: string)
    ensures IsSubsequence(Interested(reg, eventType), Ids(reg))
  {
    if reg != [] {
      var init := reg[..|reg| - 1];
      var last := reg[|reg| - 1];
      assert Ids(init) == Ids(reg)[..|reg| - 1];
      InterestedInOrder(init, eventType);
      if eventType in last.eventTypes {
        var fired := Interested(reg, eventType);
        assert fired == Interested(init, eventType) + [last.id];
        assert fired[..|fired| - 1] == Interested(init, eventType);
        var ids := Ids(reg);
        assert fired[|fired| - 1] == ids[|ids| - 1];
        assert ids[..|ids| - 1] == Ids(init);
        assert IsSubsequence(fired[..|fired| - 1], ids[..|ids| - 1]);
      } else {
        assert Interested(reg, eventType) == Interested(init, eventType);
      }
    }
  }

  /** After a subscription that did not fail, publishing the type fires the subscriber. */
  lemma PublishAfterSubscribe(reg: seq<Subscriber>, id: string, eventType: string, handler: Handler)
    requires Distinct(Ids(reg))
    ensures var step := SubscribeStep(reg, id, eventType, handler);
      step.outcome in {NewSubscriber, Added, AlreadyPresent} ==> id in Interested(step.registry, eventType)
  {
    var step := SubscribeStep(reg, id, eventType, handler);
    var i := IndexOf(Ids(reg), id);
    var k := if i >= 0 then i else |reg|;
    if step.outcome in {NewSubscriber, Added, AlreadyPresent} {
      assert HasIdAt(step.registry, id, k) && eventType in step.registry[k].eventTypes;
      InterestedMembers(step.registry, eventType, id);
    }
  }

  /** After unsubscribing, publishing the type no longer fires the subscriber; no other subscriber is affected. */
  lemma PublishAfterUnsubscribe(reg: seq<Subscriber>, id: string, eventType: string, other: string)
    requires WellFormed(reg) && other != id
    ensures var after := UnsubscribeStep(reg, id, eventType).registry;
      && id !in Interested(after, eventType)
      && (other in Interested(after, eventType) <==> other in Interested(reg, eventType))
  {
    var after := UnsubscribeStep(reg, id, eventType).registry;
    UnsubscribeStepKeepsWellFormed(reg, id, eventType);
    InterestedMembers(after, eventType, id);
    InterestedMembers(after, eventType, other);
    InterestedMembers(reg, eventType, other);
    var i := IndexOf(Ids(reg), id);
    if i >= 0 {
      RemoveFirstIsWithout(reg[i].eventTypes, eventType);
      IdsUpdate(reg, i, after[i]);
      forall k | HasIdAt(after, id, k) ensures eventType !in after[k].eventTypes {
        FindIdAt(after, id, k);
      }
      forall k | HasIdAt(reg, other, k) ensures k != i && after[k] == reg[k] {
      }
    } else {
      forall k | 0 <= k < |reg| ensures reg[k].id != id {
        assert Ids(reg)[k] == reg[k].id;
      }
    }
  }
}
