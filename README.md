# Event bus and review pipeline, modelled in Dafny

This project models two C components of a small lab repository and proves properties of the model.

**The topic-based event bus (`Lab2/BasicEventBus.c`).** A global `EventBus` holds up to
`MAX_SUBSCRIBERS` (100) subscribers in registration order. Each subscriber has a unique id, a
list of at most `MAX_EVENT_TYPES` (20) event types with no duplicates, and one handler.
- `subscribe` merges. An unseen id gets a new entry if there is room. A known id gets the type
  appended if it does not hold it already and its list has room. The handler argument is then
  ignored.
- `unsubscribe` removes one type by shifting the later ones left. It never deletes the entry.
- `publish` walks the subscribers in order and calls each matching handler once.

Built on the bus are:
- news agencies, each with a list of domains it publishes in;
- people, each with a list of domains they follow, mirrored on the bus as subscriber
  `Person_<id>`;
- `publishNews`, which reaches the bus only when the agency lists the domain.

**The review library (`Lab1/lab1Library.c`).** It holds:
- the predicates `is_buyer`, `contains_profanity` and `contains_political_propaganda`;
- the in-place text transforms `resize_picture`, `remove_competitor_links` and
  `analyze_sentiment`;
- the filters and transforms over a `Review` array with a `*count`;
- `process_reviews`, which runs them in order.

Files:
- `topic_lists.dfy`: the capacity constants (module `Limits`). Module `TopicLists` holds the
  outcome codes and the bounded, duplicate-free string lists that all three registries keep.
  Their search loop (`Find`) and shift loop (`ShiftOut`) are each written once, because the C
  code repeats the same loop in several functions.
- `event_bus.dfy`: the bus. `SubscribeStep`, `UnsubscribeStep` and `Interested` are pure
  functions over the registry. They are the reference that the class `EventBus` is proved
  against. The class keeps a fixed-capacity array of `Subscriber` values and a count.
- `news_network.dfy`: class `Network` holds the bus, the agency array and the people array, each
  with its count, as the C globals do.
- `review_text.dfy`: the string functions and methods of the review library.
- `review_filters.dfy`: the array compaction filters, the transforms and the pipeline runner.

Modelling choices:
- Strings are `seq<char>`, and `strcmp(a, b) == 0` is `a == b`.
- Copying into a fixed `char[N]` buffer becomes a precondition that the string is shorter than
  `N` (`Fits`).
- A handler is an opaque token (`Handler(name)`).
- `publish` returns the event it builds and the ids of the subscribers whose handlers it calls,
  in calling order.
- The `int (*filters[])(Review *, int *)` table of `process_reviews` is a sequence of `Stage`
  values, one per library function with that signature.

Three behaviours of the C code are kept as written:
- Ids and types are not required to be non-empty.
- `publish` iterates the live array. It takes no snapshot of the matching subscribers.
- A handler cannot fail as far as the bus is concerned.

## Model

| member | source | states |
|---|---|---|
| `TopicLists.IndexOf` | Lab2/BasicEventBus.c:85-90 | the strcmp search yields the first position holding the value, or -1 exactly when the value is absent |
| `TopicLists.Find` | Lab2/BasicEventBus.c:85-90 | the search loop with early return computes exactly `IndexOf` |
| `TopicLists.ShiftOut` | Lab2/BasicEventBus.c:124-128 | the shift-left loop plus the count decrement leaves the list without position `j`, others in order |
| `TopicLists.AddUniqueOutcomes` | Lab2/BasicEventBus.c:85-99 | merging a value: AlreadyPresent iff it is held, Added (appended at the end) iff absent with room, Full iff absent without room; otherwise the list is unchanged |
| `TopicLists.AddUniqueKeepsBounded` | Lab2/BasicEventBus.c:92-96 | merging keeps a list duplicate-free, within MAX_EVENT_TYPES and within its buffer width |
| `TopicLists.AddUniqueIdempotent` | Lab2/BasicEventBus.c:85-89 | merging the same value twice equals merging it once; the second merge reports AlreadyPresent or Full |
| `TopicLists.RemoveFirstKeepsBounded` | Lab2/BasicEventBus.c:122-128 | removal keeps a list duplicate-free and bounded |
| `TopicLists.Without` | Lab2/BasicEventBus.c:122-128 | the reference removal: no occurrence of the value is left |
| `TopicLists.RemoveFirstIsWithout` | Lab2/BasicEventBus.c:122-134 | on a duplicate-free list, shifting out the first match equals dropping every occurrence, order kept; it reports Removed iff the value was held |
| `TopicLists.RemoveFirstUndoesAppend` | Lab2/BasicEventBus.c:92-96 | removing a value just appended to a list that lacked it restores the list |
| `EventBus.Interested` | Lab2/BasicEventBus.c:149-156 | publish fires no more subscribers than there are registry entries |
| `EventBus.EventBus.constructor` | Lab2/BasicEventBus.c:64 | the global bus starts with an empty registry and satisfies the invariant |
| `EventBus.EventBus.Init` | Lab2/BasicEventBus.c:71-74 | `initEventBus` empties the registry |
| `EventBus.EventBus.FindSubscriber` | Lab2/BasicEventBus.c:81-82 | the outer id search finds the first entry with the id, or -1 when none has it |
| `EventBus.EventBus.Subscribe` | Lab2/BasicEventBus.c:77-116 | keeps the invariant (unique ids, distinct types, both capacity bounds) and leaves the registry and outcome given by `SubscribeStep` |
| `EventBus.EventBus.Unsubscribe` | Lab2/BasicEventBus.c:119-138 | keeps the invariant and leaves the registry and outcome given by `UnsubscribeStep`; only the array contents change |
| `EventBus.EventBus.Publish` | Lab2/BasicEventBus.c:141-157 | builds the event from its arguments and fires exactly `Interested(Registry(), type)`; it modifies nothing |
| `EventBus.SubscribeStepKeepsWellFormed` | Lab2/BasicEventBus.c:81-115 | subscribe preserves unique ids, duplicate-free type lists, `eventTypeCount <= MAX_EVENT_TYPES` and `subscriberCount <= MAX_SUBSCRIBERS` |
| `EventBus.UnsubscribeStepKeepsWellFormed` | Lab2/BasicEventBus.c:119-138 | unsubscribe preserves the same invariant |
| `EventBus.SubscribeUnseenId` | Lab2/BasicEventBus.c:104-115 | an unseen id with room appends exactly one entry (that id, that one type, that handler) and keeps the existing entries; without room nothing changes and RegistryFull is reported |
| `EventBus.SubscribeHeldType` | Lab2/BasicEventBus.c:85-89 | subscribing an id to a type it holds changes nothing and reports AlreadyPresent |
| `EventBus.SubscribeNewType` | Lab2/BasicEventBus.c:92-99 | a known id and a new type: with room the type is appended at the end, the stored handler is kept and other entries are unchanged; without room nothing changes and Full is reported |
| `EventBus.SubscribeIdempotent` | Lab2/BasicEventBus.c:85-89 | subscribing twice to the same type, with any handlers, leaves the registry as subscribing once |
| `EventBus.SubscribeMerges` | Lab2/BasicEventBus.c:81-115 | subscribing a new id to two different types makes one entry holding both types in order, with the first handler |
| `EventBus.UnsubscribeHeldType` | Lab2/BasicEventBus.c:122-130 | unsubscribing a held type removes exactly that type, keeps the others in order and keeps the entry, whose list shrinks by one |
| `EventBus.UnsubscribeNoChange` | Lab2/BasicEventBus.c:133-137 | an unknown id reports NotFound and a type not held reports NotSubscribed; neither changes the registry |
| `EventBus.UnsubscribeUndoesSubscribe` | Lab2/BasicEventBus.c:92-130 | unsubscribing a type that subscribe just added restores the registry |
| `EventBus.InterestedMembers` | Lab2/BasicEventBus.c:149-156 | publish fires an id iff some entry with that id holds the type |
| `EventBus.InterestedNone` | Lab2/BasicEventBus.c:149-156 | when no entry holds the type, publish fires nothing |
| `EventBus.InterestedOnce` | Lab2/BasicEventBus.c:150-154 | with unique ids every subscriber fires at most once; the inner loop breaks on the first match |
| `EventBus.InterestedInOrder` | Lab2/BasicEventBus.c:149 | subscribers fire in registration order: the fired ids are a subsequence of the registry's ids |
| `EventBus.PublishAfterSubscribe` | Lab2/BasicEventBus.c:77-157 | after a subscribe that did not hit a limit, publishing the type fires that subscriber |
| `EventBus.PublishAfterUnsubscribe` | Lab2/BasicEventBus.c:119-157 | after unsubscribe, publishing the type no longer fires that subscriber and fires every other subscriber exactly as before |
| `NewsNetwork.SubscriberIdOfInjective` | Lab2/BasicEventBus.c:247-248 | two person ids give the same bus id iff they are equal, so each person id has its own bus subscriber |
| `NewsNetwork.Network.constructor` | Lab2/BasicEventBus.c:64-68 | the globals start with an empty bus, no agencies and no people |
| `NewsNetwork.Network.RegisterNewsAgency` | Lab2/BasicEventBus.c:160-171 | returns the new index or -1 when MAX_NEWS_AGENCIES are registered; on success appends an agency with no domains, otherwise nothing changes |
| `NewsNetwork.Network.AddDomainToAgency` | Lab2/BasicEventBus.c:174-196 | an invalid index changes nothing; otherwise the domain is merged deduplicated and capacity-bounded, and only that agency changes |
| `NewsNetwork.Network.RegisterPerson` | Lab2/BasicEventBus.c:199-210 | returns the new index or -1 when MAX_PEOPLE are registered; on success appends a person with no domains |
| `NewsNetwork.Network.PersonSubscribeToDomain` | Lab2/BasicEventBus.c:224-252 | an invalid index changes nothing; otherwise the domain is merged into the person's list; only when it was added is `Person_<id>` subscribed on the bus with the person handler |
| `NewsNetwork.Network.PersonUnsubscribeFromDomain` | Lab2/BasicEventBus.c:255-286 | an invalid index changes nothing; otherwise the domain is shifted out of the person's list; only when it was there is `Person_<id>` unsubscribed on the bus |
| `NewsNetwork.Network.PublishNews` | Lab2/BasicEventBus.c:292-322 | publishes iff the index names an agency and that agency lists the domain; the published event then has the domain as type, the agency's id as source and a News payload of (domain, content, agency id), and it fires exactly the bus subscribers holding the domain; otherwise it fires nothing |
| `ReviewText.ScanBuyers` | Lab1/lab1Library.c:11-18 | the table scan from row `i`, past rows that do not match, is true iff the pair is a row before the end marker |
| `ReviewText.IsBuyer` | Lab1/lab1Library.c:4-18 | `is_buyer` is true iff the pair appears in the `buyers` table before the NULL end marker |
| `ReviewText.IsBuyerExactly` | Lab1/lab1Library.c:4-9 | the buyers are exactly (John, Laptop), (Mary, Phone) and (Ann, Book) |
| `ReviewText.Search` | Lab1/lab1Library.c:21 | the strstr search from a position yields the first occurrence at or after it, or -1 when none follows |
| `ReviewText.Strstr` | Lab1/lab1Library.c:21 | strstr yields the first occurrence, or -1 exactly when the pattern does not occur |
| `ReviewText.ContainsProfanity` | Lab1/lab1Library.c:20-22 | true iff the text contains "@#$%" |
| `ReviewText.ContainsPoliticalPropaganda` | Lab1/lab1Library.c:24-26 | true iff the text contains "+++" or "---" |
| `ReviewText.ToLower` | Lab1/lab1Library.c:30 | C-locale `tolower`: a capital becomes the small letter at the same position in the alphabet, any other character is unchanged |
| `ReviewText.Lowercased` | Lab1/lab1Library.c:28-32 | the length is kept and every character is lower-cased at its own position |
| `ReviewText.ResizePicture` | Lab1/lab1Library.c:28-32 | the per-character loop computes `Lowercased` of the attachment |
| `ReviewText.LowercasedIdempotent` | Lab1/lab1Library.c:28-32 | resizing twice equals resizing once, and no capital letter is left |
| `ReviewText.StripLinks` | Lab1/lab1Library.c:34-39 | the result holds no "http", is shorter by a multiple of 4, and equals the text when the text holds no "http" |
| `ReviewText.RemoveCompetitorLinks` | Lab1/lab1Library.c:34-39 | the while/memmove loop terminates, because the text shrinks, and computes `StripLinks` |
| `ReviewText.CountUpper` | Lab1/lab1Library.c:43-44 | the capital count is at most the length |
| `ReviewText.CountLower` | Lab1/lab1Library.c:43-45 | the small-letter count is at most the length |
| `ReviewText.AnalyzeSentiment` | Lab1/lab1Library.c:41-48 | keeps the text as prefix and appends one character: '+' iff more capitals than small letters, '-' iff fewer, '=' iff equal |
| `ReviewFilters.Filter` | Lab1/lab1Library.c:58-63 | compaction never yields more reviews than it was given |
| `ReviewFilters.FilterMembers` | Lab1/lab1Library.c:67-76 | a review survives a filter iff it was present and the filter keeps it |
| `ReviewFilters.FilterIdempotent` | Lab1/lab1Library.c:67-76 | filtering twice equals filtering once |
| `ReviewFilters.FiltersCommute` | Lab1/lab1Library.c:56-76 | the buyer filter and the profanity filter, like any two filters, give the same result in either order |
| `ReviewFilters.Compact` | Lab1/lab1Library.c:57-63 | the two-index loop leaves in `reviews[0..newCount)` the kept reviews in order, with `newCount <= count`; slots from `newCount` on are untouched |
| `ReviewFilters.FilterNonBuyers` | Lab1/lab1Library.c:56-65 | `*count` does not grow, and the prefix becomes the order-preserving subsequence of buyer reviews |
| `ReviewFilters.FilterProfanities` | Lab1/lab1Library.c:67-76 | `*count` does not grow, and the prefix becomes the order-preserving subsequence of reviews without profanity |
| `ReviewFilters.TransformResizePictures` | Lab1/lab1Library.c:78-83 | `*count` is unchanged and each of the first `count` reviews has its attachment lower-cased in place |
| `ReviewFilters.TransformAnalyzeSentiment` | Lab1/lab1Library.c:85-90 | `*count` is unchanged and each of the first `count` reviews gets its sentiment marker |
| `ReviewFilters.PipelineCount` | Lab1/lab1Library.c:50-54 | a pipeline never adds reviews, and a pipeline made only of transforms keeps the count |
| `ReviewFilters.RunStage` | Lab1/lab1Library.c:52 | a call through the filter table runs exactly the chosen library function |
| `ReviewFilters.ProcessReviews` | Lab1/lab1Library.c:50-54 | applies the stages in array order, so the surviving prefix equals the `Pipeline` of the original reviews; slots past the original count are untouched ; it asks room for a sentiment marker only in the texts a sentiment stage actually reaches |
| `ReviewFilters.FilterThenSentimentFits` | Lab1/lab1Library.c:47-65 | under the buyer filter then the sentiment transform, only the reviews the filter keeps need room for the marker |

## Left out

- Sensor simulation (`generateSensorData`, `simulateSensorReading`): it uses `rand`, floats and
  `malloc`. The `srand` call in `initEventBus` is left out for the same reason.
- The display handlers and `personNewsHandler`. Their bodies only print, compare floats and keep
  static running maxima. A handler is an opaque token, and `publish` reports which handlers it
  calls, not what they do.
- Handlers that call back into the bus during dispatch. The model assumes they do not touch the
  registry, so `publish` reads a registry that does not change.
- All `printf` output. Each diagnostic is an `Outcome` value instead.
- The `malloc`'d `News` payload and its `time(NULL)` timestamp in `publishNews`. The payload is
  a `News` value without the timestamp.
- `main` in both files, and `Lab1/lab1.c`: file input with `fopen`/`fscanf`, and printing.
  `filter_propaganda`, `remove_competition_links`, `process_blackboard` and `Blackboard` are not
  part of this model. They are used in `Lab1/lab1.c` but defined in none of the modelled files.
- Buffer overflows of `strcpy`, `strcat` and `sprintf`. Each copy into a `char[N]` buffer is a
  precondition that the string fits.
- `NewsNetwork.Network.PersonSubscribeToDomain`: it requires that `Person_<id>` fits
  `MAX_ID_LENGTH`. A person id of 93 to 99 characters is accepted by `registerPerson`, but the
  `sprintf` at line 248 would then overflow.
- Embedded NUL characters. A string is the `seq<char>` up to its terminator.
- Locale-dependent `tolower`, `isupper` and `islower`. The C locale is modelled: only ASCII
  letters.
- Negative `*count` values and negative `num_filters`. Counts are natural numbers.
- The filters' constant return value 0, which `process_reviews` ignores.
- `registerPerson` and `registerNewsAgency` do not reject a repeated id, and neither does the
  model. Two people with the same id share one bus subscriber.
- `personSubscribeToDomain` records the domain even when the bus refuses the subscription
  (RegistryFull or Full). The model keeps this behaviour.
