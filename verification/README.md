# StreetJS, verified: algorithms and protocols of the dependency-free packages

A Dafny model of the parts of the StreetJS monorepo that hold state machines, heap
structures, parsers and concurrent protocols, with proofs of what they promise.
`dafny verify dfyconfig.toml` checks everything.

| component | files | main results |
|---|---|---|
| LRU cache | `Recency`, `LruCache`, `LruRuns` | the map and the intrusive list refine one recency list; stored keys are the front of the move-to-front list, and decide every answer |
| Smooth weighted round robin | `Balancer`, `BalancerFairness` | zero-sum credits, exact shares over every window of one cycle |
| Dependency container | `ContainerSpec`, `ContainerTheory`, `ContainerOrder`, `ContainerArguments`, `ContainerLifetimes`, `Container` | resolution terminates and succeeds iff nothing stuck is reachable; what every object is built from and how long it is kept; disposal is reverse topological |
| TOML values | `Toml`, `TomlReader`, `TomlKeys`, `TomlPaths`, `TomlForms`, `TomlRoundTrip`, `TomlTables`, `Whitespace` | the reader accepts exactly the texts of a grammar of written forms; which names and which values some text is read as |
| Commerce checkout | `Inventory`, `Commerce`, `CommerceSafety`, `CommerceCharges`, `CommerceOutcome`, `CommerceFaults` | no oversell and exact accounts under every interleaving; orders are exactly the charged checkouts; the exact conditions for an order, for conservation, and under faults |
| Event system | `Text`, `Matcher`, `Emitter`, `Middleware`, `Dispatch`, `DispatchSafety`, `DispatchOvertaking`, `DispatchEvents` | the matcher's meaning, two indexes equal one scan, once-only delivery under re-entrancy, and when the order of publications holds |
| Server-sent events | `Sse`, `SseRoundTrip` | chunk invariance, the exact condition for a round trip |
| Configuration | `ConfigTree`, `ConfigProvenance`, `ConfigLoader`, `ConfigSchema`, `ConfigResolution` | the in-place merge is the overlay; last definer wins; provenance by dotted name; what every path of the result holds |
| Realtime client | `Realtime`, `RealtimeSafety`, `RealtimeLink`, `RealtimeBackoff` | a four-state connection decides what becomes of every publication; nothing is lost, the wire agrees with the local channels; which delay every timer waits |
| Offline outbox | `Outbox`, `OutboxSafety`, `OutboxOverlap` | first in, first out; every crash point is recoverable; what overlapping calls lose or bring back, exactly |
| Profile matching | `Profiles` | no reciprocal like is missed under any interleaving; for which users the answer can be trusted, exactly |
| Circuit breaker | `Breaker` | the lazy timed step equals an eager timer |

Objects whose methods update their fields are classes (`LruCache`, `WeightedRoundRobin`,
`Container`, `InMemoryStore`, `Emitter`, `Runner`, `Obj` and `Loader`, `WalkContext`,
`RealtimeClient`, `MutationQueue`, `InMemoryProfileStore`, `CircuitBreaker`); each method is
proved against a function of the old state, and the lemmas are about those functions and
their runs.  Protocols whose calls overlap at awaits (checkouts, dispatches, likes) are state
machines whose events are the stretches of code between two awaits, so a theorem about
`Run(events)` covers every interleaving.  The clock, socket and timer events, the outcome of
a payment or of a sending, and the reflected constructor parameters come in as parameters.

## Model

| member | source | states |
|---|---|---|
| `LruCache.LruCache.Get` | packages/cache/src/lru.ts:60-72 | the map, the list links and the recency list stay one structure; a live hit moves to the front, an expired one is purged |
| `LruCache.LruCache.Set` | packages/cache/src/lru.ts:75-106 | an update refreshes value, expiry and recency; an insertion goes to the front and evicts exactly the last item of a full list |
| `LruCache.LruCache.Insert` | packages/cache/src/lru.ts:86-105 | splicing a new head keeps the list and the map in agreement and within capacity |
| `LruCache.LruCache.Delete` | packages/cache/src/lru.ts:109-116 | true exactly when the key was stored; only that item goes |
| `LruCache.LruCache.Has` | packages/cache/src/lru.ts:119-129 | true exactly for a live item, without touching recency; an expired one is purged |
| `LruCache.LruCache.Clear` | packages/cache/src/lru.ts:132-136 | an empty valid cache |
| `LruCache.LruCache.Detach` | packages/cache/src/lru.ts:170-183 | unlinking one entry leaves the rest linked both ways in the same order |
| `LruCache.LruCache.MoveToHead` | packages/cache/src/lru.ts:143-157 | the entry becomes the head, all others keep their order |
| `LruCache.LruCache.Remove` | packages/cache/src/lru.ts:165-168 | list and map lose the same entry |
| `LruCache.LruCache.EvictTail` | packages/cache/src/lru.ts:159-163 | the least recently used item leaves |
| `LruCache.LruCache.SweepExpired` | packages/cache/src/lru.ts:185-192 | in whatever order the map is walked, exactly the live items remain, in order |
| `LruCache.Create` | packages/cache/src/lru.ts:43-49 | a capacity below one is refused, otherwise the cache is empty and valid |
| `LruRuns.RunShape` | packages/cache/src/lru.ts:60-192 | after any run the keys are distinct and at most `maxEntries` |
| `LruRuns.StoredIsLastSet` | packages/cache/src/lru.ts:60-192 | whatever is stored is the last value set for its key since it was deleted, expiring one TTL after that set |
| `LruRuns.HitIsFresh` | packages/cache/src/lru.ts:60-72 | a hit returns the last value set, and not after its TTL |
| `LruRuns.GetHitsIff` | packages/cache/src/lru.ts:60-72 | a get returns a value iff a live item has the key and that value, wherever it stands in the list |
| `LruRuns.HasIff` | packages/cache/src/lru.ts:119-129 | `has` is true iff a live item has the key |
| `LruRuns.LookupKeeps` | packages/cache/src/lru.ts:60-72 | a lookup removes the item it finds expired and nothing else |
| `LruRuns.RunIsMoveToFront` | packages/cache/src/lru.ts:60-106 | with no expiry and no deletion, the stored keys in order are the first `maxEntries` of the move-to-front list of all touches |
| `LruRuns.StoredIffRecent` | packages/cache/src/lru.ts:60-106 | a key is stored iff it was touched and fewer than `maxEntries` distinct keys were touched since |
| `LruRuns.AnswersIffRecent` | packages/cache/src/lru.ts:60-129 | with no expiry and no deletion, `get` and `has` find a key iff it was touched and fewer than `maxEntries` distinct keys were since; a hit is the last value set |
| `LruRuns.ShortRunIsQuiet` | packages/cache/src/lru.ts:60-106 | a run of sets and gets shorter than the TTL meets no expiry, so the two results above apply to it |
| `Balancer.NormalizeWeight` | packages/gateway/src/balancer.ts:21-26 | the floor of a finite weight of at least one, and exactly one for any other |
| `Balancer.WeightedRoundRobin.Pick` | packages/gateway/src/balancer.ts:103-132 | prunes, credits, picks the first largest and charges it the total weight, as the specification function says |
| `BalancerFairness.CreditsSumToZero` | packages/gateway/src/balancer.ts:98-133 | the credits of a fixed pool always sum to zero |
| `BalancerFairness.CreditAboveMinusTotal` | packages/gateway/src/balancer.ts:98-133 | every credit stays strictly above minus the total weight |
| `BalancerFairness.NeverAPickAhead` | packages/gateway/src/balancer.ts:92-97 | after k picks no target is a full pick ahead of its share |
| `BalancerFairness.FullCycle` | packages/gateway/src/balancer.ts:92-97 | the first sum(weights) picks choose each target exactly weight times, and leave no credit |
| `BalancerFairness.Periodic` | packages/gateway/src/balancer.ts:98-133 | pick k + sum(weights) is pick k, with the same credits before it |
| `BalancerFairness.EveryWindowIsFair` | packages/gateway/src/balancer.ts:92-97 | any window of sum(weights) consecutive picks chooses each target exactly weight times |
| `BalancerFairness.ChooseTracks` | packages/gateway/src/balancer.ts:114-131 | the credit map of a pool with distinct ids is the abstract credit vector after every pick |
| `BalancerFairness.PoolIsFair` | packages/gateway/src/balancer.ts:92-97 | the window theorem for the balancer's own picks from no credits |
| `BalancerFairness.DepartedIsForgotten` | packages/gateway/src/balancer.ts:107-112 | after a pick there are credits for exactly its targets, so one that left starts from none when it comes back |
| `BalancerFairness.DepartedDoNotCount` | packages/gateway/src/balancer.ts:107-131 | credits of targets that are not in the pool make no difference to the pick |
| `ContainerSpec.Resolve` | packages/container/src/container.ts:69-143 | the search terminates on every dependency graph; what was held stays, nothing is left under construction that was not before |
| `ContainerTheory.ResolveSucceedsIff` | packages/container/src/container.ts:69-143 | resolution succeeds iff no cycle, unbound token or bad parameter is reachable without passing through a held instance, and `resolving` ends empty |
| `ContainerTheory.FailureIsStuck` | packages/container/src/container.ts:81-109 | every failure exhibits a path to a cycle or a dead end |
| `ContainerTheory.SuccessIsBuildable` | packages/container/src/container.ts:110-139 | every success is a well-founded construction |
| `ContainerTheory.BuildableIsNotStuck` | packages/container/src/container.ts:69-143 | the two descriptions exclude each other |
| `ContainerOrder.SameInstance` | packages/container/src/container.ts:72-91 | a non-transient token resolves to the same instance whatever was resolved in between |
| `ContainerOrder.ReachableIsOrdered` | packages/container/src/container.ts:110-140 | in every reachable container instances stand after everything they were built from |
| `ContainerOrder.DependentsFirst` | packages/container/src/container.ts:146-162 | disposal visits every built instance before any built instance it uses, directly or not |
| `ContainerOrder.ApplyKeeps` | packages/container/src/container.ts:42-66 | registering, scoping, resolving, resetting and disposing all keep the construction order |
| `ContainerArguments.ResolvesByLifetime` | packages/container/src/container.ts:69-143 | a token not held resolves by what binds it: a singleton bound further up is the parent's and adds nothing here, anything else is made here by its recipe and held here unless transient |
| `ContainerArguments.ArgumentsAre` | packages/container/src/container.ts:110-137 | an object is built with one argument per parameter, in order: what a kept token resolves to afterwards, and for a transient an object constructed for it alone |
| `ContainerArguments.ResolveIsRight` | packages/container/src/container.ts:69-143 | whatever a resolve returns or adds in any layer was so built, whether it succeeds or fails |
| `ContainerArguments.TransientsDiffer` | packages/container/src/container.ts:87-91 | two resolves of a transient give two objects |
| `ContainerLifetimes.HeldWereBuilt` | packages/container/src/container.ts:69-143 | over every run each instance held in any layer that `resolve` made was built during one operation by the recipe its token had then |
| `ContainerLifetimes.RegisterGives` | packages/container/src/container.ts:42-46 | a registered instance is what its token resolves to, without building anything |
| `ContainerLifetimes.FactoryReplaces` | packages/container/src/container.ts:56-60 | after a factory is registered its token resolves to a new object built by it, whatever was held |
| `ContainerLifetimes.ResetForgets` | packages/container/src/container.ts:165-169 | after a reset nothing is held and every binding stands |
| `ContainerLifetimes.DisposedRefuses` | packages/container/src/container.ts:146-162 | a disposed container refuses every resolve and its parent does not notice |
| `ContainerLifetimes.ScopeInherits` | packages/container/src/container.ts:63-66 | a new scope holds nothing, sees every binding, and resolves a singleton to its parent's instance |
| `ContainerLifetimes.RunUnique` | packages/container/src/container.ts:30-33 | over every run no layer holds a token twice |
| `Container.Container.Register` | packages/container/src/container.ts:42-53 | refused after disposal; otherwise held and bound as a singleton |
| `Container.Container.RegisterFactory` | packages/container/src/container.ts:56-60 | the binding replaces the old one and drops the held instance |
| `Container.Container.FindBindingOf` | packages/container/src/container.ts:176-178 | the nearest binding up the chain of parents |
| `Container.Container.ResolveToken` | packages/container/src/container.ts:69-143 | the in-place search over a chain of containers returns and changes exactly what the specification says, the parents included |
| `Container.Container.MakeToken` | packages/container/src/container.ts:87-94 | `resolving` is restored on success and on failure; only a non-transient instance is kept |
| `Container.Container.RunRecipe` | packages/container/src/container.ts:110-137 | a class is constructed after its dependencies, in parameter order |
| `Container.Container.ResolveDeps` | packages/container/src/container.ts:114-135 | dependencies resolve left to right up to the first failure |
| `Container.Container.Dispose` | packages/container/src/container.ts:146-162 | visits the held instances last first, once; the parent keeps its own |
| `Container.Container.ResetInstances` | packages/container/src/container.ts:165-169 | forgets instances and keeps bindings |
| `TomlReader.ReadTomlString` | packages/config/src/provider.ts:316-342 | the escape loop reads what the recursive reading of string and remainder says |
| `TomlReader.ReadValue` | packages/config/src/provider.ts:286-303 | the value and the remainder of the specification, on every input |
| `TomlReader.ReadArray` | packages/config/src/provider.ts:344-360 | the same for arrays, with the trailing comma and every error |
| `TomlReader.ReadInlineTable` | packages/config/src/provider.ts:362-380 | the same for inline tables and their dotted keys |
| `TomlReader.SplitDottedKey` | packages/config/src/provider.ts:246-268 | the index loop splits bare and quoted segments as the recursive definition does, errors included |
| `TomlReader.FindTopLevelEquals` | packages/config/src/provider.ts:270-283 | the first `=` outside quotes, or -1 |
| `TomlReader.ReadScalarEnd` | packages/config/src/provider.ts:298-300 | the end of a scalar token |
| `Toml.ParseValue` | packages/config/src/provider.ts:286-303 | every successful read consumes at least one character, which is why the readers terminate |
| `TomlReader.CutComment` | packages/config/src/provider.ts:382-395 | the loop keeps a line up to the first `#` outside quotes |
| `TomlKeys.PathSplits` | packages/config/src/provider.ts:246-268 | a dotted key as written (bare segments with white space, quoted ones with gaps, the last closing quote optional) splits into its names |
| `TomlKeys.SplitIff` | packages/config/src/provider.ts:246-268 | a text splits into a list of names iff it is one of the ways of writing them |
| `TomlKeys.KeyRead` | packages/config/src/provider.ts:362-369 | such a key that closes its quotes and keeps every `=` inside them is found before its `=` and split, whatever follows |
| `TomlKeys.KeyIsPath` | packages/config/src/provider.ts:362-369 | and every key the table reader accepts is one, with white space around it |
| `TomlPaths.KeyTextIff` | packages/config/src/provider.ts:246-283 | some text is read as a list of names iff the search for a way of writing them succeeds; a quote may open in one segment and close in a later one |
| `TomlPaths.NameableIff` | packages/config/src/provider.ts:246-283 | the same for keys that close every quoted segment |
| `TomlPaths.KeyWritableIff` | packages/config/src/provider.ts:246-283 | some text is read as the single key iff it lacks one of the quotes or can stand bare, closing every quote it opens |
| `TomlPaths.FirstKeyWritableIff` | packages/config/src/provider.ts:362-369 | the same for a table's first key, which must not look like the closing brace |
| `TomlForms.ReadBack` | packages/config/src/provider.ts:286-380 | a value as written (any escapes, underscores, keys, white space in every gap, trailing comma) reads back as its meaning with exactly the right remainder |
| `TomlForms.ItemFrom` | packages/config/src/provider.ts:286-380 | every text that is read is some value as written, then the remainder |
| `TomlForms.ReadIff` | packages/config/src/provider.ts:286-380 | the reader returns a value and a remainder iff the text is a way of writing that value, then the remainder |
| `TomlRoundTrip.RoundTrip` | packages/config/src/provider.ts:286-380 | for every writable value, reading its rendering followed by nothing or a delimiter gives the value and exactly that remainder |
| `TomlRoundTrip.DocMeans` | packages/config/src/provider.ts:362-380 | the rendering chosen for a value denotes that value, with one dotted pair for each path to a leaf |
| `TomlRoundTrip.ReadableIff` | packages/config/src/provider.ts:286-380 | a value is what some text with every quoted key closed means iff it is writable: distinct keys, every path to a leaf can be written, and no unquotable first key looks like a brace |
| `TomlRoundTrip.AssignReached` | packages/config/src/provider.ts:229-244 | adding a pair along its path keeps every path of the table one that can be written |
| `TomlTables.AssignIs` | packages/config/src/provider.ts:229-244 | adding a value at a path fails iff something on the way is no table; otherwise the path holds it, every path that parts from it is left, and the order of keys stays |
| `TomlTables.UnderscoreIsNothing` | packages/config/src/provider.ts:306-311 | an underscore anywhere in an integer does not count |
| `TomlTables.SignsAre` | packages/config/src/provider.ts:306-311 | the digits of a number are worth it bare or behind a plus, and its opposite behind a minus |
| `TomlRoundTrip.SpanningQuoteReads` | packages/config/src/provider.ts:246-283 | a table read through a quote that opens in one key and closes in the next |
| `TomlRoundTrip.MissingQuoteReads` | packages/config/src/provider.ts:250-256 | a table that is not writable, read where a closing quote is missing |
| `TomlRoundTrip.EscapedKeyReadsIff` | packages/config/src/provider.ts:250-256 | a key written as a basic string with escapes reads back iff it needs no escapes |
| `TomlRoundTrip.SurvivesIff` | packages/config/src/provider.ts:382-395 | `stripComment` leaves a line alone iff no `#` stands outside quotes, escaped quotes counting |
| `TomlRoundTrip.CommentStrippedIff` | packages/config/src/provider.ts:382-395 | it takes off just the comment behind a text iff the quotes of the text are closed |
| `TomlRoundTrip.StringSurvivesIff` | packages/config/src/provider.ts:382-395 | the rendering of a string survives iff the string, read behind an opening quote, shows no `#` outside quotes |
| `Inventory.DiscountWithinSubtotal` | packages/commerce/src/index.ts:160-184 | an accepted coupon takes between nothing and the subtotal |
| `Inventory.InMemoryStore.ReserveStock` | packages/commerce/src/store.ts:76-82 | reserves only what is available, and keeps reserved within on hand |
| `Inventory.InMemoryStore.ReleaseStock` | packages/commerce/src/store.ts:83-86 | gives units back, floored at zero |
| `Inventory.InMemoryStore.CommitStock` | packages/commerce/src/store.ts:87-93 | takes units off both counters, floored at zero |
| `Inventory.InMemoryStore.Checkout` | packages/commerce/src/index.ts:188-241 | run alone: a refusal restores every level, a sale takes exactly the lines' units and its amounts agree |
| `Inventory.InMemoryStore.ReleaseLines` | packages/commerce/src/index.ts:198-200 | compensation puts back exactly what was reserved |
| `Inventory.InMemoryStore.CommitLines` | packages/commerce/src/index.ts:220 | committing moves exactly the reserved units out |
| `Inventory.InMemoryStore.Subtotal` | packages/commerce/src/index.ts:144-153 | the subtotal is the sum of the line amounts |
| `Commerce.CheckoutEffect` | packages/commerce/src/index.ts:193-240 | one step of one checkout moves as much stock as its hold and its takings change |
| `Commerce.ApplyKeeps` | packages/commerce/src/index.ts:188-260 | every step of any process keeps all accounts balanced |
| `Commerce.Reachable` | packages/commerce/src/index.ts:188-260 | the accounts balance after every interleaving |
| `CommerceSafety.NoOversell` | packages/commerce/src/index.ts:193-203 | reserved is exactly what the checkouts in flight hold and never exceeds what is on hand |
| `CommerceSafety.FloorsNeverBind` | packages/commerce/src/store.ts:83-93 | whenever a release or commit is due, the units are there, so the floors at zero never act |
| `CommerceSafety.OrdersAreGood` | packages/commerce/src/index.ts:206-233 | every order has subtotal = sum of lines, discount within it, total = subtotal - discount |
| `CommerceSafety.FailureLeavesNoTrace` | packages/commerce/src/index.ts:197-201 | once a checkout has failed all accounts hold with it struck out, whatever else is in flight |
| `CommerceSafety.SoloFailureRestoresStock` | packages/commerce/src/index.ts:237-240 | a checkout that runs alone and fails, by stock, coupon or payment, restores every level |
| `CommerceSafety.ConservedIff` | packages/commerce/src/index.ts:251-260 | on hand + paid + being taken = supplied, exactly when no order with units of the product was cancelled to completion twice |
| `CommerceSafety.ConservedWithoutOverlap` | packages/commerce/src/index.ts:251-260 | it is conserved whenever cancellations of one order do not overlap |
| `CommerceSafety.OneAtATimeIsOnce` | packages/commerce/src/index.ts:251-260 | without overlap no order is cancelled to completion twice |
| `CommerceCharges.ChargedIff` | packages/commerce/src/index.ts:216-239 | over every run a checkout takes stock, stores its order or is placed iff its charge was answered with success; a declined one only gives its stock back |
| `CommerceCharges.OrdersAreCharged` | packages/commerce/src/index.ts:216-235 | the orders are those of charged checkouts, one each, with their lines and the discount they were priced at |
| `CommerceCharges.PricingIff` | packages/commerce/src/index.ts:206-214 | pricing goes on to the charge at a discount iff there is no coupon and it is zero, or the coupon takes off just that; else to the releases |
| `CommerceCharges.DiscountIff` | packages/commerce/src/index.ts:172-184 | a coupon takes off `d` iff it is active, the subtotal reaches its minimum, and `d` is the whole cents of the percentage, or the smaller of amount and subtotal |
| `CommerceCharges.CouponsAre` | packages/commerce/src/index.ts:157-170 | the coupon under a code is the last one accepted for it |
| `CommerceCharges.SubtotalIsUnitSum` | packages/commerce/src/index.ts:140-153 | the subtotal is the sum of the prices of all single units |
| `CommerceCharges.RefundedIff` | packages/commerce/src/index.ts:251-260 | a cancellation restocks and marks its order iff its refund was answered with success |
| `CommerceCharges.CancelledIffRefunded` | packages/commerce/src/index.ts:251-260 | an order is marked cancelled iff some refunded cancellation of it completed |
| `CommerceOutcome.OutcomeIff` | packages/commerce/src/index.ts:188-240 | a checkout left alone from any reachable state is placed, with exactly its units gone, iff all its units were available, its coupon applied and its charge succeeded; otherwise it fails and every level is as it was |
| `CommerceFaults.FaultKeepsInvIff` | packages/commerce/src/index.ts:220-240 | when a commit or insert throws, releasing all lines leaves the accounts sound iff the checkout had committed nothing |
| `CommerceFaults.HandlerAlone` | packages/commerce/src/index.ts:237-240 | that is what the handler's releases, one await each, add up to when nothing comes between |
| `CommerceFaults.ThrowKeepsInvIff` | packages/commerce/src/index.ts:220-240 | the accounts survive the throw itself, all releases still to come, iff the checkout had committed nothing |
| `CommerceFaults.AccountsHoldIff` | packages/commerce/src/index.ts:220-240 | all accounts hold all through a run, with anything between the handler's releases, iff no checkout failed in it after its first committed unit |
| `CommerceFaults.NoOversellWithEarlyFaults` | packages/commerce/src/index.ts:220-240 | in such a run reserved is what is in flight and within what is on hand |
| `CommerceSafety.OverlapBreaksConservation` | packages/commerce/src/index.ts:251-260 | a concrete run of two overlapping cancellations puts a unit back twice |
| `Text.JoinSplit` | packages/events/src/matcher.ts:27 | splitting at a separator loses nothing |
| `Matcher.MatchIffBlocks` | packages/events/src/matcher.ts:35-66 | the backtracking search succeeds iff the segments divide into one fitting block per pattern segment |
| `Matcher.FastPathAgrees` | packages/events/src/matcher.ts:23-28 | string equality agrees with the segment matcher on patterns without `*` |
| `Matcher.MatchesIff` | packages/events/src/matcher.ts:23-66 | a name matches iff its segments divide: one for `*`, one or more for `**`, itself for a literal |
| `Matcher.EmptyNameMatchesIff` | packages/events/src/matcher.ts:20-28 | of all wildcard patterns exactly `*` and `**` match the empty name, against the comment there |
| `Emitter.Emitter.Add` | packages/events/src/emitter.ts:49-72 | the one list grows at its end and both indexes still split it |
| `Emitter.Emitter.Remove` | packages/events/src/emitter.ts:75-91 | idempotent; the one list loses that subscription and emptied sets leave the map |
| `Emitter.Emitter.Resolve` | packages/events/src/emitter.ts:98-118 | exactly what a linear scan of the one list gives, in registration order |
| `Emitter.SortedScan` | packages/events/src/emitter.ts:98-118 | sorting the two partial answers by order is the scan |
| `Emitter.MatchingFacts` | packages/events/src/emitter.ts:98-118 | the scan holds all and only the matching subscriptions |
| `Emitter.AddKeepsIndexes` | packages/events/src/emitter.ts:60-69 | adding to one index is appending to the one list |
| `Emitter.RemoveKeepsIndexes` | packages/events/src/emitter.ts:79-90 | deleting from one index is deleting from the one list |
| `Emitter.Emitter.ListenerCount` | packages/events/src/emitter.ts:124-137 | the size of what `resolve` would return |
| `Emitter.Emitter.TotalCount` | packages/events/src/emitter.ts:139-148 | summing over both indexes counts every subscription once |
| `Emitter.Emitter.Clear` | packages/events/src/emitter.ts:161-172 | every subscription is inactive and both indexes are empty |
| `Middleware.Runner.Invoke` | packages/events/src/middleware.ts:45-57 | accepts, enters or delivers exactly as the trace of all calls says |
| `Middleware.EntersAPrefix` | packages/events/src/middleware.ts:38-61 | whatever the middleware do, the entered indices are a prefix of the chain, each once; delivery at most once |
| `Middleware.DeliveryIsLast` | packages/events/src/middleware.ts:51-56 | delivery comes after every middleware then in the chain was entered |
| `Middleware.RejectedIffRepeated` | packages/events/src/middleware.ts:46-48 | a call of `next` is rejected iff that `next` was called before |
| `DispatchSafety.SnapshotFacts` | packages/events/src/facade.ts:379 | a snapshot is the active matching subscriptions, once each, in registration order |
| `DispatchSafety.OnceAtMostOnce` | packages/events/src/facade.ts:380-391 | a `once` subscription is called at most once under any interleaving and nesting |
| `DispatchSafety.CancelledNeverStarts` | packages/events/src/facade.ts:380-383 | a cancelled subscription is never called afterwards, even by a dispatch that had found it |
| `DispatchSafety.InRegistrationOrder` | packages/events/src/facade.ts:378-405 | one dispatch calls its listeners in increasing registration order |
| `DispatchSafety.Served` | packages/events/src/facade.ts:378-405 | a finished dispatch called only what was active and matching when it resolved, and all of that which is still active |
| `DispatchSafety.ActiveIff` | packages/events/src/facade.ts:384-387 | active means registered, not cancelled, and not a `once` already called |
| `DispatchSafety.PendingIsUnfinished` | packages/events/src/facade.ts:225-243 | `asyncPending` counts the publications whose dispatch has not settled; at most the first of them has begun |
| `DispatchSafety.AsyncInOrder` | packages/events/src/facade.ts:225-243 | all listeners of an earlier publication whose delivery was awaited are called before any of a later one |
| `DispatchSafety.UnawaitedIsOvertaken` | packages/events/src/middleware.ts:51-56 | a run in which a middleware does not await its delivery and the next publication overtakes it |
| `DispatchOvertaking.LeftIsOvertaken` | packages/events/src/facade.ts:225-243 | from any state in which a delivery not awaited has a listener to call that can be called again, or that a publication of some name would not find first, some continuation calls a later publication's listener before it |
| `DispatchSafety.TallyHolds` | packages/events/src/facade.ts:389-403 | calls = delivered + failed + still awaited |
| `DispatchEvents.CountersAre` | packages/events/src/facade.ts:389-403 | `delivered` counts the listeners that returned and `failed` those that threw |
| `DispatchEvents.PublishedIs` | packages/events/src/facade.ts:333-345 | a publication becomes a dispatch of its own name |
| `DispatchEvents.UnsubscribeSilences` | packages/events/src/facade.ts:378-391 | after an unsubscription its listener is never called again, whatever is under way |
| `DispatchEvents.ClearSilences` | packages/events/src/facade.ts:322-330 | clearing silences every subscription there was |
| `DispatchEvents.ClearWaits` | packages/events/src/facade.ts:322-330 | subscriptions are cleared only after a close, once every publication queued by then has settled |
| `DispatchSafety.KeepInv` | packages/events/src/facade.ts:225-405 | every step keeps the whole invariant |
| `Sse.ParseSseChunk` | packages/client/src/ai.ts:9-25 | the buffering loop computes events and remainder as specified |
| `Sse.ParseResumes` | packages/client/src/ai.ts:9-25 | parsing may stop anywhere and resume from the remainder |
| `Sse.ChunkInvariant` | packages/client/src/ai.ts:56-69 | however the stream is cut, events and remainder are those of the whole |
| `Sse.StreamChat` | packages/client/src/ai.ts:56-69 | the tokens yielded are the events of the whole stream before the first `[DONE]` |
| `SseRoundTrip.FramesArrive` | packages/client/src/ai.ts:14-23 | framed events arrive in order, each line trimmed, before whatever follows |
| `SseRoundTrip.BlockArrives` | packages/client/src/ai.ts:14-23 | of any block the data lines make up the event, each trimmed, in order; every other line is passed over |
| `SseRoundTrip.RoundTripIff` | packages/client/src/ai.ts:17-22 | an event comes back unchanged iff it is not empty and has no line to trim |
| `ConfigTree.OverlayAt` | packages/config/src/loader.ts:160-180 | what one more provider does to any single path |
| `ConfigTree.LastWins` | packages/config/src/loader.ts:150-158 | a path is present iff its last definer is not followed by a non-object on a proper prefix; a leaf has its last definer's value |
| `ConfigTree.AssociativeIff` | packages/config/src/loader.ts:171-178 | merging may be regrouped iff wherever the middle tree puts a non-object under an object of the last, the last overwrites all the first had there |
| `ConfigTree.NotAssociative` | packages/config/src/loader.ts:171-178 | three trees that may not be regrouped |
| `ConfigProvenance.MarkedIffNamed` | packages/config/src/loader.ts:167-170 | a dotted path is recorded iff the source defines some keys of that name, whatever the keys hold |
| `ConfigProvenance.ProvenanceIsLastNamer` | packages/config/src/loader.ts:150-180 | the recorded source of a path is the last provider to define any keys of its name |
| `ConfigProvenance.SourceIsLastDefinerIff` | packages/config/src/loader.ts:150-180 | it is the last definer of given keys iff no later provider defines other keys of the same name |
| `ConfigProvenance.LeafAndSourceAgree` | packages/config/src/loader.ts:150-180 | a leaf's value comes from its last definer, and so does its recorded source unless a later provider defines other keys of that name |
| `ConfigProvenance.MarkedIff` | packages/config/src/loader.ts:167-170 | for keys without dots: recorded iff defined |
| `ConfigProvenance.ProvenanceIsLastDefiner` | packages/config/src/loader.ts:150-180 | for keys without dots: the recorded source is the last definer |
| `ConfigProvenance.DottedKeyMisleads` | packages/config/src/loader.ts:168-170 | a key with a dot is recorded as the source of a path it never defined |
| `ConfigLoader.Loader.DeepAssign` | packages/config/src/loader.ts:160-180 | the in-place merge of a tree of objects leaves an unshared tree that is the overlay, with the provenance marked |
| `ConfigLoader.Loader.AssignChild` | packages/config/src/loader.ts:171-175 | the nested object is merged where it stands, or into a fresh one |
| `ConfigLoader.MergeProviders` | packages/config/src/loader.ts:150-158 | all providers in order give the left fold of the overlay |
| `ConfigLoader.NavigateObj` | packages/config/src/namespace.ts:28-39 | walking the objects finds what the tree holds at the path |
| `ConfigSchema.WalkContext.ResolveField` | packages/config/src/loader.ts:75-130 | one field's effect on values, metadata, issues and secret paths, in all six cases |
| `ConfigSchema.WalkContext.Walk` | packages/config/src/loader.ts:64-73 | the nested walk visits the fields of the schema in order |
| `ConfigResolution.SetThenGet` | packages/config/src/loader.ts:207-222 | a path just set is found |
| `ConfigResolution.SetElsewhere` | packages/config/src/loader.ts:207-222 | setting one path leaves every path that diverges from it |
| `ConfigResolution.WalkIsFold` | packages/config/src/loader.ts:64-73 | the nested walk resolves the fields one after the other, each under its dotted path |
| `ConfigResolution.EveryFieldIsDelivered` | packages/config/src/loader.ts:64-130 | navigating the result to a field finds the checked value the providers give, whatever the default, or else the checked default, or nothing, unless a later field with a value crosses its path |
| `ConfigResolution.SetBelow` | packages/config/src/loader.ts:207-222 | a path that goes on from the one set finds what the value set holds there |
| `ConfigResolution.SetAbove` | packages/config/src/loader.ts:207-222 | a path that ends short of the one set finds an object with the value set in it |
| `ConfigResolution.FoundIs` | packages/config/src/loader.ts:64-130 | what is found at any path: nothing, or what the last field with a value that crosses the path holds there |
| `ConfigResolution.LeafDeliveredIff` | packages/config/src/loader.ts:64-130 | a field whose value is no object is delivered iff the last such field stands on its path or above it and holds that value there |
| `ConfigResolution.FieldsApart` | packages/config/src/loader.ts:64-73 | in a schema with distinct dot-free keys no field's path runs through another's |
| `ConfigResolution.WellFormedIsUndisturbed` | packages/config/src/loader.ts:64-73 | so in such a schema every field is delivered |
| `ConfigResolution.WellFormedDelivers` | packages/config/src/loader.ts:64-130 | and holds the checked value the providers give it, or else its checked default, or nothing |
| `ConfigResolution.RecordsAre` | packages/config/src/loader.ts:75-130 | metadata, issues and secret paths are exactly those of the fields, one record each; only a value that was given is present or has a source |
| `ConfigResolution.NoIssuesIff` | packages/config/src/loader.ts:33-53 | loading succeeds iff every field has a valid value or needs none, whatever the keys |
| `Realtime.RealtimeClient.Connect` | packages/client/src/realtime.ts:90-94 | no second socket beside a socket or a timer |
| `Realtime.RealtimeClient.OpenSocket` | packages/client/src/realtime.ts:96-115 | the three outcomes of constructing a socket |
| `Realtime.RealtimeClient.HandleOpen` | packages/client/src/realtime.ts:117-123 | one subscribe frame per channel, then the backlog in order; ignored for a stale socket |
| `Realtime.RealtimeClient.HandleClose` | packages/client/src/realtime.ts:125-138 | back to idle with a timer, or closed |
| `Realtime.RealtimeClient.ScheduleReconnect` | packages/client/src/realtime.ts:140-150 | one timer at most, with the capped exponential delay |
| `Realtime.RealtimeClient.TimerFires` | packages/client/src/realtime.ts:146-149 | the timer clears itself and reopens unless closed |
| `Realtime.RealtimeClient.Publish` | packages/client/src/realtime.ts:198-209 | sent, queued or refused, by connection state |
| `Realtime.RealtimeClient.Subscribe` | packages/client/src/realtime.ts:212-219 | only the first handler of a channel reaches the wire |
| `Realtime.RealtimeClient.Unsubscribe` | packages/client/src/realtime.ts:220-226 | the closure acts on the set object it was made for |
| `Realtime.RealtimeClient.Close` | packages/client/src/realtime.ts:246-261 | drops socket, timer, backlog and handlers |
| `RealtimeSafety.NextKeeps` | packages/client/src/realtime.ts:90-261 | every event keeps the invariant |
| `RealtimeSafety.SocketOrTimer` | packages/client/src/realtime.ts:90-150 | a socket and a reconnect timer never coexist; connected means a socket |
| `RealtimeSafety.NothingLost` | packages/client/src/realtime.ts:163-209 | publications handed to sockets, then the pending ones, are those accepted since the last close, in order |
| `RealtimeSafety.ChannelsAgree` | packages/client/src/realtime.ts:117-226 | while connected the wire's channels are the local ones |
| `RealtimeLink.LinkRefines` | packages/client/src/realtime.ts:90-150 | over every run the client is off, waiting, trying a socket or connected as a four-state machine over the events says |
| `RealtimeLink.NeverGivesUp` | packages/client/src/realtime.ts:90-150 | with reconnecting enabled it is off exactly before a connect or after a close |
| `RealtimeLink.PublicationsAre` | packages/client/src/realtime.ts:198-209 | what was handed to sockets since the last close, then what is pending, is what was published in that time while the connection was not off, in order |
| `RealtimeLink.FramesGoUp` | packages/client/src/realtime.ts:117-209 | every frame goes to the socket that is up when it is handed over |
| `RealtimeLink.SubscribeAddsOne` | packages/client/src/realtime.ts:212-219 | a subscription adds its handler to those its channel reaches, and no other channel notices |
| `RealtimeLink.UnsubscribeLeavesOthers` | packages/client/src/realtime.ts:220-226 | the function it returned, called whenever and however often, leaves the handlers of other channels alone |
| `RealtimeBackoff.TimersWithinBounds` | packages/client/src/realtime.ts:140-150 | every timer of every run waits between the initial and the maximal delay |
| `RealtimeBackoff.DelayDoubles` | packages/client/src/realtime.ts:142-144 | each delay is twice the one before, up to the maximum |
| `RealtimeBackoff.DelayGrows` | packages/client/src/realtime.ts:142-144 | delays grow strictly until they stay at the maximum |
| `RealtimeBackoff.OpenedAtIs` | packages/client/src/realtime.ts:117-138 | the opening time kept is that of the connection while it is up, zero once anything was closed, minus one before |
| `RealtimeBackoff.EveryTimerUses` | packages/client/src/realtime.ts:96-150 | every timer, after a throw or a drop before or after opening, uses the attempts made so far, or starts over after a drop of a second-old connection or of an unopened socket once anything was closed |
| `RealtimeBackoff.BackoffOfFailures` | packages/client/src/realtime.ts:125-150 | after any row of failing reconnects the timer waits for the attempts since the last that started over |
| `RealtimeBackoff.GrowsIffNoneResets` | packages/client/src/realtime.ts:125-150 | the attempts of a row keep counting up iff none of its failures starts over |
| `RealtimeBackoff.StaysAtBaseIff` | packages/client/src/realtime.ts:125-150 | they stay at the first iff every one of them starts over |
| `RealtimeSafety.GroupsExist` | packages/client/src/realtime.ts:212-226 | every channel handled has its set object, and a set object handed out stays one |
| `RealtimeSafety.UnsubscribeRemovesOneIff` | packages/client/src/realtime.ts:220-226 | an unsubscribe removes just its own handler iff it does not empty a set since replaced by one with handlers |
| `RealtimeSafety.SecondUnsubscribeSilencesAnother` | packages/client/src/realtime.ts:220-226 | a run in which calling it twice silences another handler |
| `Outbox.MutationQueue.Enqueue` | packages/client-offline/src/queue.ts:54-68 | appends once per id and returns what is stored |
| `Outbox.MutationQueue.Flush` | packages/client-offline/src/queue.ts:91-134 | the loop's counts, the list left and every persisted state are those of the specified pass |
| `OutboxSafety.PassRemovesPrefix` | packages/client-offline/src/queue.ts:91-134 | a flush removes a prefix: sent + dropped + remaining = initial length |
| `OutboxSafety.FlushIs` | packages/client-offline/src/queue.ts:91-134 | a flush stops at the first reply that asks for a retry of a mutation with tries left: those before it are gone, sent iff the reply was ok and else dropped, and it stays at the head with one more try |
| `OutboxSafety.PassKeepsShape` | packages/client-offline/src/queue.ts:117-126 | afterwards only the head was tried, fewer times than allowed |
| `OutboxSafety.EveryCrashIsRecoverable` | packages/client-offline/src/queue.ts:99-128 | at every crash point the store holds the unsettled suffix and at most the one just settled |
| `OutboxSafety.QueueShape` | packages/client-offline/src/queue.ts:54-134 | over every run ids stay distinct and only the head has tries, below the maximum |
| `OutboxSafety.FirstInFirstOut` | packages/client-offline/src/queue.ts:54-134 | over every run what left, then what is queued, is what was accepted, in order |
| `OutboxOverlap.PresentIffDescends` | packages/client-offline/src/queue.ts:54-134 | under every interleaving of reads and writes an id is stored iff the store descends from the write that enqueued it, or from the start that held it, and no flush or clearing on the way removed it |
| `OutboxOverlap.OverlappingEnqueueSurvivesIff` | packages/client-offline/src/queue.ts:54-134 | an enqueued mutation survives clearings, and flushes and enqueues that had read before it wrote, iff its write comes after the last of theirs |
| `OutboxOverlap.SettledReturnsIff` | packages/client-offline/src/queue.ts:54-127 | a settled mutation is put back by the next enqueue iff that had read before the settling write |
| `OutboxOverlap.EarlierEnqueueSurvivesIff` | packages/client-offline/src/queue.ts:54-68 | of two enqueues that write in turn the first is lost iff the second had read before it wrote |
| `OutboxOverlap.NoneBypassedIffSerial` | packages/client-offline/src/queue.ts:54-134 | no write is ever undone by a later one iff no two calls overlap |
| `OutboxOverlap.ReplyRemovesIff` | packages/client-offline/src/queue.ts:106-127 | a reply removes the head iff it is ok or drop or no try is left |
| `OutboxOverlap.SentMutationReturns` | packages/client-offline/src/queue.ts:54-127 | a run after which a mutation that was sent is stored again |
| `OutboxOverlap.ConcurrentEnqueuesLoseOne` | packages/client-offline/src/queue.ts:54-68 | a run of two enqueues that stores only one mutation |
| `OutboxOverlap.NextKeeps` | packages/client-offline/src/queue.ts:54-134 | every step keeps ids distinct and every store made as its origin says |
| `Profiles.PairKeySymmetric` | packages/dating-profiles/src/index.ts:127-135 | the key of a pair does not depend on the order |
| `Profiles.PairKeyExact` | packages/dating-profiles/src/index.ts:132-135 | two ids without NUL share their key with no other pair, whatever ids there are |
| `Profiles.PlainOwnsKey` | packages/dating-profiles/src/index.ts:132-135 | two ids without NUL have their key to themselves |
| `Profiles.KeyUniqueIff` | packages/dating-profiles/src/index.ts:132-135 | two users have their key to themselves iff no other NUL cuts it into two distinct ids in order |
| `Profiles.NulCollides` | packages/dating-profiles/src/index.ts:132-135 | with NUL in an id two pairs can share a key |
| `Profiles.InMemoryProfileStore.AddLike` | packages/dating-profiles/src/index.ts:96-103 | adds exactly that like |
| `Profiles.InMemoryProfileStore.HasLike` | packages/dating-profiles/src/index.ts:105-107 | true exactly for a recorded like |
| `Profiles.InMemoryProfileStore.Like` | packages/dating-profiles/src/index.ts:207-226 | run alone: matched iff the reciprocal like is there, and an earlier match is kept |
| `Profiles.MatchesAreMutual` | packages/dating-profiles/src/index.ts:207-226 | under every interleaving a match is recorded only between users who like each other |
| `Profiles.KeyMatchedIff` | packages/dating-profiles/src/index.ts:207-226 | whenever no call is in flight a key is matched iff two users it joins each liked the other |
| `Profiles.MatchedIffMutual` | packages/dating-profiles/src/index.ts:207-235 | whenever no call is in flight, two users with a key to themselves are a match iff each liked the other |
| `Profiles.IsMatchTrustedIff` | packages/dating-profiles/src/index.ts:229-235 | the answer is right in every such state iff the two have their key to themselves |
| `Profiles.PhantomMatch` | packages/dating-profiles/src/index.ts:126-135 | otherwise a run that reports a match of two users who never liked each other |
| `Profiles.SomeoneIsTold` | packages/dating-profiles/src/index.ts:216-225 | of two users who like each other at least one call returned `matched` |
| `Profiles.AnswerIs` | packages/dating-profiles/src/index.ts:207-226 | under every interleaving a call answers matched iff the reciprocal like was there when it looked |
| `Breaker.CircuitBreaker.ResolveEntry` | packages/gateway/src/circuit-breaker.ts:118-129 | fetches or creates the entry and takes the timed step |
| `Breaker.CircuitBreaker.CanRequest` | packages/gateway/src/circuit-breaker.ts:76-78 | false exactly while open |
| `Breaker.CircuitBreaker.OnSuccess` | packages/gateway/src/circuit-breaker.ts:81-95 | changes only its key, as specified per state |
| `Breaker.CircuitBreaker.OnFailure` | packages/gateway/src/circuit-breaker.ts:98-112 | changes only its key, as specified per state |
| `Breaker.GuardedIsLeast` | packages/gateway/src/circuit-breaker.ts:55-63 | the policy kept is the least sensible one that is at least what was asked for, field by field |
| `Breaker.LazyIsEager` | packages/gateway/src/circuit-breaker.ts:114-129 | over every run the lazily computed state is that of a countdown timer that fires on time |
| `Breaker.ShedsUntilOver` | packages/gateway/src/circuit-breaker.ts:76-129 | no request passes within `openMs` of opening, whatever is reported meanwhile |
| `Breaker.ProbesWhenOver` | packages/gateway/src/circuit-breaker.ts:114-129 | with nothing reported, a probe passes iff `openMs` is over |
| `Breaker.ClosedWhileBelow` | packages/gateway/src/circuit-breaker.ts:81-112 | closed, and counting the current streak, while no streak of failures reaches the threshold |
| `Breaker.OpensExactlyAtThreshold` | packages/gateway/src/circuit-breaker.ts:105-110 | opens on exactly the failure that completes the first full streak |
| `Breaker.KeysAreIndependent` | packages/gateway/src/circuit-breaker.ts:52-129 | the state of a key depends on its own calls and the time only |

Some results are about what the code does rather than what its names suggest: a reconnect
that drops before it opened restarts the backoff once anything was closed before, while a
throwing constructor and a connection cut short within a second let it grow
(`RealtimeBackoff.EveryTimerUses`); quoted TOML keys are read without the escapes the standard
gives them (`TomlRoundTrip.EscapedKeyReadsIff`), while a quote inside a bare key runs on over
the dots (`TomlRoundTrip.SpanningQuoteReads`); an empty event name does match `*`
(`Matcher.EmptyNameMatchesIff`); calling a realtime unsubscribe function twice can remove a
handler it does not own (`RealtimeSafety.SecondUnsubscribeSilencesAnother`); and ids that hold
NUL can be reported as a match that never was (`Profiles.PhantomMatch`).

## Left out

- LRU: the sweep timer itself, `destroy`, and `String(key)` for keys that are not strings; a sweep is an operation that may come at any time.
- Balancers: round robin, least connections and random selection, whose invariants are one-line; the credits are mathematical integers.
- Container: error messages and their chains; a factory is "resolve these tokens in order, then build"; a factory that registers or disposes while it resolves.
- Container: errors thrown by `dispose` callbacks, and which of the three callback names an instance has.
- TOML: floats and `\u` escapes, which the model reports as `NotModelled`; integers are mathematical, while the program's are exact only to 2^53.
- TOML: the line level (`parseToml` and its table headers), so the round trip is stated for values; what `stripComment` does to a line that holds one is `SurvivesIff` and `CommentStrippedIff`.
- TOML: keys that name members of `Object.prototype`; entries keep the order of insertion, while the program's objects list keys that look like integers first.
- TomlRoundTrip.ReadableIff: is about texts in which every quoted key is closed. A key whose last closing quote is missing is read too (`TomlPaths.KeyTextIff`, `TomlForms.ReadIff`), and lets some tables be read that are not writable (`MissingQuoteReads`); for those no condition on the value alone is given.
- Toml.Assign: `descend` with the final assignment is a function on an ordered list of entries, so updating nested objects in place is not captured there.
- Commerce: coupon codes are compared as they are, while the program first puts them in upper case. The cart's lines are given as one snapshot with whole quantities; a quantity or coupon percent that is not a number (`setQuantity` and `createCoupon` accept NaN, which then makes `reserved` NaN) is not modelled. Reviews, administration and the SQL store are left out.
- Events: `await` granularity is finer than the program's, since any event may come between two turns of a delivery loop; the event store, telemetry, error handlers and replay are left out.
- DispatchOvertaking.LeftIsOvertaken: says nothing of a `once` listener that a publication of any name would find first: a later publication may call it in place of the one that was left.
- Dispatch: the delivery loop is a state machine over values because dispatches overlap; subscriptions are named by registration order there, while `Emitter` has them as objects.
- Server-sent events: UTF-8 decoding across chunk boundaries is the platform decoder's; the HTTP request is left out.
- ConfigLoader.Loader.DeepAssign: leaves are opaque, so arrays shared between a source and the result are not modelled.
- Configuration: `setPath` is `SetAt` on values, rebuilding the path instead of updating objects in place; the providers' file formats, the environment provider, strict-mode unknown keys, serialisation and namespaces are left out.
- ConfigLoader.NavigateObj: objects have own keys only, while `in` (packages/config/src/namespace.ts:32) also finds inherited members such as `constructor`.
- ConfigResolution.EveryFieldIsDelivered: its condition on crossing paths is sufficient; what is found when a later field does cross is `FoundIs`, and exactly when a leaf is still delivered `LeafDeliveredIff`.
- Realtime: user handlers are not re-entrant; incoming messages and URL building are left out; a frame handed to a socket counts as sent.
- Outbox: a sender is an arbitrary sequence of replies; JSON encoding of the store is left out.
- Outbox.MutationQueue.Enqueue: run alone; overlapping calls are the subject of `OutboxOverlap`.
- Profiles: profile creation and bio encryption. Ids are sequences of Unicode characters ordered by their UTF-16 code units; ids with unpaired surrogates are not modelled.
- Breaker: the clock never runs backwards; thresholds are integers.
- Random values, ids and timestamps are opaque parameters throughout. UI, CLI, adapters and AI connectors are left out.
