/**
 * The news agencies and people built on the event bus: agencies own a list
 * of domains they publish in, people keep a list of domains they follow and
 * are mirrored on the bus as subscriber "Person_<id>", and an agency's news
 * reaches the bus only in a domain the agency owns.
 */
module NewsNetwork {
  import opened Limits
  import opened TopicLists
  import opened EventBus

  datatype Agency = Agency(id: string, domains: seq<string>)

  datatype Person = Person(id: string, interestedDomains: seq<string>)

  /** The payload of a news event (the timestamp is left out). */
  datatype News = News(domain: string, content: string, agency: string)

  /** The callback every person is subscribed with. */
  const PERSON_NEWS_HANDLER := Handler("personNewsHandler")

  /** The bus id of a person: "Person_" followed by the person's id. */
  function SubscriberIdOf(personId: string): string
  {
    "Person_" + personId
  }

  /** Distinct people ids give distinct bus ids, so the bus mirrors each person id separately. */
  lemma SubscriberIdOfInjective(a: string, b: string)
    ensures SubscriberIdOf(a) == SubscriberIdOf(b) <==> a == b
  {
    if SubscriberIdOf(a) == SubscriberIdOf(b) {
      assert SubscriberIdOf(a)[7..] == a && SubscriberIdOf(b)[7..] == b;
    }
  }

  predicate AgencyOk(a: Agency) {
    Fits(a.id, MAX_ID_LENGTH) && BoundedList(a.domains, MAX_DOMAIN_LENGTH)
  }

  predicate PersonOk(p: Person) {
    Fits(p.id, MAX_ID_LENGTH) && BoundedList(p.interestedDomains, MAX_DOMAIN_LENGTH)
  }

  /** Whether `publishNews` hands the news to the bus. */
  predicate Publishes(agencies: seq<Agency>, agencyIndex: int, domain: string) {
    0 <= agencyIndex < |agencies| && domain in agencies[agencyIndex].domains
  }

  class Network {
    const bus: EventBus
    const agencies: array<Agency>
    var agencyCount: nat
    const people: array<Person>
    var peopleCount: nat

    ghost predicate Valid()
      reads this, bus, bus.subscribers, agencies, people
    {
      && bus.Valid()
      && agencies.Length == MAX_NEWS_AGENCIES && agencyCount <= agencies.Length
      && people.Length == MAX_PEOPLE && peopleCount <= people.Length
      && (forall k :: 0 <= k < agencyCount ==> AgencyOk(agencies[k]))
      && (forall k :: 0 <= k < peopleCount ==> PersonOk(people[k]))
    }

    ghost function Agencies(): seq<Agency>
      reads this, agencies
      requires agencyCount <= agencies.Length
    {
      agencies[..agencyCount]
    }

    ghost function People(): seq<Person>
      reads this, people
      requires peopleCount <= people.Length
    {
      people[..peopleCount]
    }

    /** The global registries as the program starts, with `initEventBus` done. */
    constructor ()
      ensures Valid() && fresh(bus) && fresh(bus.subscribers) && fresh(agencies) && fresh(people)
      ensures bus.Registry() == [] && Agencies() == [] && People() == []
    {
      bus := new EventBus();
      agencies := new Agency[MAX_NEWS_AGENCIES];
      agencyCount := 0;
      people := new Person[MAX_PEOPLE];
      peopleCount := 0;
    }

    method RegisterNewsAgency(agencyId: string) returns (index: int)
      requires Valid() && Fits(agencyId, MAX_ID_LENGTH)
      modifies this, agencies
      ensures Valid()
      ensures old(agencyCount) < MAX_NEWS_AGENCIES ==> index == old(agencyCount)
      ensures old(agencyCount) >= MAX_NEWS_AGENCIES ==> index == -1
      ensures Agencies() == if index < 0 then old(Agencies()) else old(Agencies()) + [Agency(agencyId, [])]
      ensures People() == old(People())
    {
      if agencyCount >= MAX_NEWS_AGENCIES {
        return -1;
      }
      agencies[agencyCount] := Agency(agencyId, []);
      index := agencyCount;
      agencyCount := agencyCount + 1;
      assert agencies[..agencyCount] == old(Agencies()) + [Agency(agencyId, [])];
    }

    method AddDomainToAgency(agencyIndex: int, domain: string) returns (outcome: Outcome)
      requires Valid() && Fits(domain, MAX_DOMAIN_LENGTH)
      modifies agencies
      ensures Valid()
      ensures if 0 <= agencyIndex < old(agencyCount) then
          var a := old(Agencies())[agencyIndex];
          var merged := AddUnique(a.domains, domain);
          && outcome == merged.outcome
          && Agencies() == old(Agencies())[agencyIndex := a.(domains := merged.list)]
        else outcome == InvalidIndex && Agencies() == old(Agencies())
    {
      if agencyIndex < 0 || agencyIndex >= agencyCount {
        return InvalidIndex;
      }
      var a := agencies[agencyIndex];
      AddUniqueKeepsBounded(a.domains, domain, MAX_DOMAIN_LENGTH);
      var j := Find(a.domains, domain);
      if j >= 0 {
        assert agencies[..agencyCount] == old(Agencies())[agencyIndex := a];
        return AlreadyPresent;
      }
      if |a.domains| >= MAX_EVENT_TYPES {
        assert agencies[..agencyCount] == old(Agencies())[agencyIndex := a];
        return Full;
      }
      agencies[agencyIndex] := a.(domains := a.domains + [domain]);
      return Added;
    }

    method RegisterPerson(personId: string) returns (index: int)
      requires Valid() && Fits(personId, MAX_ID_LENGTH)
      modifies this, people
      ensures Valid()
      ensures old(peopleCount) < MAX_PEOPLE ==> index == old(peopleCount)
      ensures old(peopleCount) >= MAX_PEOPLE ==> index == -1
      ensures People() == if index < 0 then old(People()) else old(People()) + [Person(personId, [])]
      ensures Agencies() == old(Agencies())
    {
      if peopleCount >= MAX_PEOPLE {
        return -1;
      }
      people[peopleCount] := Person(personId, []);
      index := peopleCount;
      peopleCount := peopleCount + 1;
      assert people[..peopleCount] == old(People()) + [Person(personId, [])];
    }

    /**
     * Adds the domain to the person's list (same merge rule as an agency)
     * and, when it was added, subscribes "Person_<id>" to it on the bus.
     * `busOutcome` is the bus's report only when `outcome` is Added; on the
     * other paths the bus is not called and it holds a placeholder.
     */
    method PersonSubscribeToDomain(personIndex: int, domain: string) returns (outcome: Outcome, busOutcome: Outcome)
      requires Valid() && Fits(domain, MAX_DOMAIN_LENGTH)
      requires 0 <= personIndex < peopleCount ==> Fits(SubscriberIdOf(people[personIndex].id), MAX_ID_LENGTH)
      modifies people, bus, bus.subscribers
      ensures Valid()
      ensures if 0 <= personIndex < old(peopleCount) then
          var p := old(People())[personIndex];
          var merged := AddUnique(p.interestedDomains, domain);
          && outcome == merged.outcome
          && People() == old(People())[personIndex := p.(interestedDomains := merged.list)]
          && if outcome == Added then
               var step := SubscribeStep(old(bus.Registry()), SubscriberIdOf(p.id), domain, PERSON_NEWS_HANDLER);
               bus.Registry() == step.registry && busOutcome == step.outcome
             else bus.Registry() == old(bus.Registry())
        else outcome == InvalidIndex && People() == old(People()) && bus.Registry() == old(bus.Registry())
    {
      busOutcome := NotFound;
      if personIndex < 0 || personIndex >= peopleCount {
        return InvalidIndex, busOutcome;
      }
      var p := people[personIndex];
      AddUniqueKeepsBounded(p.interestedDomains, domain, MAX_DOMAIN_LENGTH);
      var j := Find(p.interestedDomains, domain);
      if j >= 0 {
        assert people[..peopleCount] == old(People())[personIndex := p];
        return AlreadyPresent, busOutcome;
      }
      if |p.interestedDomains| >= MAX_EVENT_TYPES {
        assert people[..peopleCount] == old(People())[personIndex := p];
        return Full, busOutcome;
      }
      people[personIndex] := p.(interestedDomains := p.interestedDomains + [domain]);
      busOutcome := bus.Subscribe(SubscriberIdOf(p.id), domain, PERSON_NEWS_HANDLER);
      outcome := Added;
    }

    /**
     * Removes the domain from the person's list by shifting the rest left
     * and, when it was there, unsubscribes "Person_<id>" from it on the bus.
     * `busOutcome` is the bus's report only when `outcome` is Removed; on the
     * other paths the bus is not called and it holds a placeholder.
     */
    method PersonUnsubscribeFromDomain(personIndex: int, domain: string) returns (outcome: Outcome, busOutcome: Outcome)
      requires Valid()
      modifies people, bus.subscribers
      ensures Valid()
      ensures if 0 <= personIndex < old(peopleCount) then
          var p := old(People())[personIndex];
          var removed := RemoveFirst(p.interestedDomains, domain);
          && outcome == removed.outcome
          && People() == old(People())[personIndex := p.(interestedDomains := removed.list)]
          && if outcome == Removed then
               var step := UnsubscribeStep(old(bus.Registry()), SubscriberIdOf(p.id), domain);
               bus.Registry() == step.registry && busOutcome == step.outcome
             else bus.Registry() == old(bus.Registry())
        else outcome == InvalidIndex && People() == old(People()) && bus.Registry() == old(bus.Registry())
    {
      busOutcome := NotFound;
      if personIndex < 0 || personIndex >= peopleCount {
        return InvalidIndex, busOutcome;
      }
      var p := people[personIndex];
      RemoveFirstKeepsBounded(p.interestedDomains, domain, MAX_DOMAIN_LENGTH);
      var j := Find(p.interestedDomains, domain);
      if j < 0 {
        assert people[..peopleCount] == old(People())[personIndex := p];
        return NotSubscribed, busOutcome;
      }
      var rest := ShiftOut(p.interestedDomains, j);
      people[personIndex] := p.(interestedDomains := rest);
      busOutcome := bus.Unsubscribe(SubscriberIdOf(p.id), domain);
      outcome := Removed;
    }

    /**
     * `publishNews`: publishes on the bus, with the agency's id as source,
     * only when the index names an agency that lists the domain.
     */
    method PublishNews(agencyIndex: int, domain: string, content: string)
      returns (outcome: Outcome, event: Event<News>, fired: seq<string>)
      requires Valid() && Fits(domain, MAX_DOMAIN_LENGTH) && Fits(content, MAX_NEWS_LENGTH)
      ensures outcome == Published <==> Publishes(Agencies(), agencyIndex, domain)
      ensures outcome == InvalidIndex <==> !(0 <= agencyIndex < agencyCount)
      ensures outcome in {Published, InvalidIndex, NotPublished}
      ensures outcome == Published ==>
        var a := Agencies()[agencyIndex];
        event == Event(domain, News(domain, content, a.id), a.id)
      ensures fired == if outcome == Published then Interested(bus.Registry(), domain) else []
    {
      fired := [];
      event := Event(domain, News(domain, content, ""), "");
      if agencyIndex < 0 || agencyIndex >= agencyCount {
        return InvalidIndex, event, fired;
      }
      var a := agencies[agencyIndex];
      var j := Find(a.domains, domain);
      if j < 0 {
        return NotPublished, event, fired;
      }
      var news := News(domain, content, a.id);
      event, fired := bus.Publish(domain, news, a.id);
      outcome := Published;
    }
  }
}
