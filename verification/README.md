# Verified model of the CoreDNS nextdns plugin

A Dafny model of the parts of the plugin where several queries share state, and proofs of what
holds of them in every interleaving:

- **The reverse-DNS discoverer** (`DiscoveryTable`, `DiscoveryRuns`, `DiscoverySafety`,
  `DiscoveryProgress`, `DiscoveryCaching`): a single-flight, bounded, expiring table with detached
  lookup goroutines, done-channels, held queries, a WaitGroup and a shutdown flag. A step is one lock
  region, one atomic operation, or one event of the environment. The resolver may answer, fail or
  panic at any time, and the clock is a counter that never runs back. The order of effects is that
  of the deferred calls: the normal path stores, frees the slot, closes and counts down; a panic
  frees the slot first and stores a blank entry afterwards.
- **The profile-aware cache** (`Store`, `Answers`, `CacheRuns`, `CacheSafety`, `Cache`): the sharded
  store, the identity and the hashed bytes of a question, TTL arithmetic with Go's integer widths,
  configuration reports with their double-checked locking, all for an arbitrary hash function; and
  the cache over mutable message objects, where copying is what keeps callers out of the entries.
- **The request path** (`Requests`, `Outcomes`, `Recursion`, `Routing`, `Coverage`, `Routes`): the `max_concurrent` limiter,
  the guard on the plugin's own reverse lookups through the arbitrary plugin chains of all server
  blocks, longest-prefix routing by stable sort and first hit, and the static list of reachable
  routes against the routes that can be taken.
- **The three together** (`EndToEnd`): a query consults the cache by a lookup of its own, asks the
  discoverer through its device lookup, and stores what it fetched, in every interleaving.
- **Device identity** (`Devices`, `Bindings`, `ShortIds`, `Names`, `LeaseLines`, `Leases`,
  `LeaseFiles`): merging of sources, remembered MAC bindings over any run of refreshes, the
  five-character ID, name normalisation, and the one-pass dhcpd lease parser against a specification
  by blocks, with a round trip through written files.

The classes (`Discoverer`, `Store`, `StoreShard`, `Msg`, `MsgCache`, `Client`, `Router`, `DeviceDB`)
have the fields and methods of the Go types; their contracts give the new state by the functions the
step systems are made of. A run is any sequence of enabled steps from the start, so a lemma about
runs is about every interleaving of any number of queries.

## Where the code differs from what it promises

Each is stated as an exact condition, for all inputs, with a case that fails.

- *A found name stays until it expires.* A lookup that panicked has already freed its slot when it
  stores its blank entry. A second lookup can run in between, and the blank then wipes out the name
  it found. `DiscoveryCaching.FoundNamePersists` shows the name survives if and only if no panicked
  lookup of the address is in that gap; `GapIsReachable` gives the run.
- *TTLs count down what is left of an entry.* The minimum and maximum of `cache_ttl` are accepted
  whatever their size. The TTL of a message is at most 2^32 - 1 seconds, so a large maximum alone
  does no harm, but a minimum above that does: the lifetime is raised to it and the conversion to 32
  bits wraps. `CacheSafety.HitTtlsHonestIffMinFits`: every hit of every run carries a TTL that covers
  the rest of its entry's life if and only if the minimum is at most 2^32 - 1 seconds.
  `Answers.TtlsHonestIffMinFits` says so for each single message, and
  `Answers.OverlongMinimumServesZero` that otherwise every entry is at some age served with TTL 0.
- *A query is refused when the maximum is upstream.* The counter also holds queries that are being
  refused. `Requests.RefusedIff` gives the exact condition and `RefusedWithNothingUpstream` a run in
  which a query is refused with nothing upstream at all.
- *Every `client_profile` subnet can match.* An IPv4-mapped CIDR is unwrapped but keeps its length.
  `Routing.DeadPrefixIff`: a CIDR contains no address at all if and only if it is IPv4-mapped and
  longer than 32 bits.
- *reachableRoutes is exact.* It covers every route taken (`Routes.ReachableRoutesCover`), but also
  lists the profiles of lines that no client can reach: those with a dead prefix, and those that the
  lines ahead of them cover, one by one (`Routes.ShadowedRouteIsListed`), together
  (`Coverage.HalvesCover`), or together with ::ffff:0:0/96, whose addresses no client has once it is
  unwrapped (`Routes.MappedLeftoverIsListed`). Call a line live when that block and the lines ahead
  do not cover it, coverage being a recursion over the halves of a prefix. `Routes.ListIsExactIff`:
  every listed route is taken by some query if and only if the view is mapped or every listed route
  but the default has a live line. The default counts as taken because a client address may fail to
  parse; `Routes.TakenFromAddressIff` is the version for clients whose address parses. The startup
  warning can therefore be a false alarm, never a miss; `Routes.QuestionKeyedIsSafeIffNoOtherLine`
  gives the exact condition for a question-keyed cache to be safe.
- *Later lease blocks overwrite earlier ones.* Only a block with a name or a MAC does.
  `Leases.LastBlockDecidesIff`: the table goes by the last block of an address if and only if that
  block says something or no earlier one does; `LeaseFiles.EmptyBlockKeepsLease` gives, for every
  lease, a file whose empty last block leaves the lease in place.
- *A host name is read back.* A quoted one is if and only if it holds no `#`, one without quotes if
  and only if besides it has no space around it and no quotes of its own
  (`LeaseLines.NameReadBackIff`); as text, it must not hold a newline either
  (`LeaseLines.NameTextReadBackIff`). A client name that is not empty beats a host name in either
  order, but an empty one after the host name blanks it (`LeaseFiles.ClientBeatsHost`).

The test for fewer than two fields on a lease line can never be true
(`LeaseLines.LeaseLineHasAddress`).

## Model

| member | source | states |
|---|---|---|
| `DiscoveryTable.Discoverer.Consult` | discovery.go:146-173 | one critical section, over the old fields: the slot and the WaitGroup count are taken together if and only if the entry is absent or expired, no lookup holds the slot of the address, `closing` is not set and fewer than 64 are in flight; a running lookup is joined if and only if the entry is absent or expired; the name handed on is the one on record |
| `DiscoveryTable.Discoverer.Store` | discovery.go:265-278 | the whole new table, for any entry the eviction loop picks; expiry is the clock plus the TTL |
| `DiscoveryTable.Discoverer.Release` | discovery.go:223-225 | frees exactly the slot of the address |
| `DiscoveryTable.Discoverer.Recorded` | discovery.go:207-209 | a released query is given the name on record, or none |
| `DiscoveryTable.Discoverer.Shut` | discovery.go:294-296 | sets `closing` and changes nothing else |
| `DiscoveryTable.StoredStaysBounded` | discovery.go:265-278 | with `max` at least 1 the table stays within it, the address being stored is never evicted, and at most one other entry is touched |
| `DiscoveryTable.ConsultedStaysBounded` | discovery.go:52 | admission keeps at most 64 lookups in flight and leaves the entries alone |
| `DiscoveryRuns.StepKeepsInv` | discovery.go:141-308 | every step of name, hold, lookup and drain keeps: slots owned one to one by lookups that have not cleaned up, the counter equal to the lookups not yet Done, channels closed exactly past the close, no joined drain before the count is zero, and no name on record, in hand or returned for an address it was not resolved for |
| `DiscoverySafety.EveryRunIsSafe` | discovery.go:92-106 | no run closes a channel twice, takes the WaitGroup below zero or adds to it from zero beside a pending Wait; the table and the lookups in flight stay within their limits |
| `DiscoverySafety.SingleFlight` | discovery.go:155-171 | two lookups of one address that both still hold a slot are the same lookup, so resolver calls for an address never overlap |
| `DiscoverySafety.CleanupDeletesOwnSlot` | discovery.go:222-225 | the deletion by address always removes the lookup's own slot and no other, on the panic path too |
| `DiscoverySafety.ClosedOnce` | discovery.go:219-221 | in every run each channel is closed at most once, and exactly when its lookup's close ran |
| `DiscoverySafety.NothingStartsAfterClosing` | discovery.go:165-172 | once `closing` is set no run starts a lookup or raises the counter, and a zero stays zero however often drain runs |
| `DiscoverySafety.JoinedMeansFinished` | discovery.go:298-302 | when a Wait has returned every lookup ever started has finished and closed its channel, and nothing is in flight |
| `DiscoverySafety.ReturnedNameWasResolvedForIt` | discovery.go:207-212 | a non-empty name returned for an address was given by the resolver, earlier in the run, to a lookup of that address |
| `DiscoverySafety.ReleasedMeansRecorded` | discovery.go:215-221 | a waiter is released only after its lookup, which is for the waiter's own address, has put a result on record or had none to ask for |
| `DiscoverySafety.OneResultEach` | discovery.go:217-263 | in every run a lookup comes to exactly one result: an entry stored, or nothing stored for an address without a reverse name |
| `DiscoverySafety.OnlyPanicsBlank` | discovery.go:232-236 | the cleanup's blank entry is stored by a panicked lookup only |
| `DiscoveryProgress.NeverStuck` | discovery.go:217-263 | a lookup that has not finished always has a step it can take |
| `DiscoveryProgress.StepsRunOut` | discovery.go:217-263 | in every interleaving a lookup takes at most its remaining number of steps |
| `DiscoveryProgress.HeldQueriesAreReleased` | discovery.go:191-213 | no lost wakeup: in every run from a moment at which a query is held to one at which its lookup is past the close, or has no step left it can take, the channel is closed and the query free to wake or gone |
| `DiscoveryProgress.ShutdownEnds` | discovery.go:286-302 | after `closing` only boundedly many lookup steps remain in any run, and when none is left the counter is zero |
| `DiscoveryCaching.LookupStartsIff` | discovery.go:146-179 | a query starts a lookup, with its slot and count, if and only if nothing fresh is on record, no slot is held for the address, `closing` is not set and a slot is free; otherwise nothing is touched |
| `DiscoveryCaching.ExpiredIsAskedAgain` | discovery.go:149-173 | in every run, once an entry, a blank one too, has expired and no lookup of its address holds a slot, the next query starts one unless the server is closing or full |
| `DiscoveryCaching.JoinsIff` | discovery.go:155-168 | a query that starts none waits for the lookup of its address if and only if there is one, nothing fresh and no name is on record, its caller allows it and holding is on; else it has the name on record |
| `DiscoveryCaching.StarterHoldsIff` | discovery.go:181-186 | a query that started one waits under the same conditions |
| `DiscoveryCaching.ReleasedGetsTheName` | discovery.go:207-212 | a released query is given the name on record |
| `DiscoveryCaching.GivenUpGetsNothing` | discovery.go:195-205 | one that stops waiting goes without |
| `DiscoveryCaching.NoLookupBeforeExpiry` | discovery.go:149-153 | an entry with no store pending stays as it is, and no lookup of its address is started, in every run that ends before it expires and does not evict it |
| `DiscoveryCaching.EntryLastsAsConfigured` | discovery.go:252-276 | in every run each entry on record was stored by a lookup of its own address, under the name that lookup was given or blank, and expires `ttl` after that moment for a name, `retry` after it for none |
| `DiscoveryCaching.HeldOnlyWhenAllowed` | discovery.go:136-140 | in every run a held query is one whose caller allowed it, with holding switched on |
| `DiscoveryCaching.FoundNamePersists` | discovery.go:222-237 | a name just stored survives until expiry or eviction if and only if no panicked lookup of the address has yet to store its blank |
| `DiscoveryCaching.GapIsReachable` | discovery.go:222-237 | from the start a run leads to a stored name with such a blank pending |
| `DiscoveryCaching.NameOnRecordIsNeverHeld` | discovery.go:181-185 | with a name on record, fresh or expired, the query is given that name and is never held, whatever happens afterwards |
| `DiscoveryCaching.AtMostOneLookupEach` | discovery.go:170-179 | in every run a query starts at most one lookup |
| `Store.CapacityRoundsUp` | store.go:34-47 | capacity is the least multiple of 256 that is at least the request and at least 256, and less than the larger of the two plus 256 |
| `Store.PutSize` | store.go:62-75 | an add grows a shard by one exactly when it is counted, and never past the shard's size |
| `Store.PutInKeepsSharded` | store.go:49-76 | keys stay in their own shards, no shard overflows, and the total grows exactly when the add is counted |
| `Store.SameDrops` | store.go:59-70 | what may be dropped from the plain map is exactly what may be dropped from the shards: one entry of the key's shard when that is full and does not hold the key |
| `Store.PutInFlattens` | store.go:49-76 | the sharded store refines a plain map: an add to the shards is the same add to the map, and what is dropped came from the key's shard |
| `Store.StoreShard.Add` | store.go:61-71 | the locked part of an add: the new content for any entry dropped, and whether it counts |
| `Store.Store.constructor` | store.go:34-44 | 256 distinct empty shards of the rounded-up size |
| `Store.Store.Get` | store.go:51-57 | what the key's shard holds under the key, or nothing |
| `Store.Store.Add` | store.go:59-76 | the whole new content; the counter stays the number of entries |
| `Store.Store.Len` | store.go:78 | the number of entries, never more than the capacity |
| `Answers.KeyBytesInjective` | cache.go:85-100 | the hashed bytes determine profile, name, type, class and both flags when the profile has no zero byte |
| `Routing.ValidRoutesHaveNoZero` | setup.go:93-125 | every accepted route is non-empty and has no zero byte, which the cache key relies on |
| `Answers.SameIdentIff` | cache.go:54-63 | two questions share an entry exactly when profile, type, class and flags are the same and the names differ at most in case |
| `Answers.ClampInRange` | cache.go:155-163 | the lifetime is the value within the bounds nearest to the message's TTL: the minimum below them, the maximum above |
| `Answers.TtlRoundsUp` | cache.go:124-131 | up to 2^32 - 1 s the TTL is at least 1, covers what remains, and promises less than a second more |
| `Answers.TtlNeverIncreases` | cache.go:124-131 | less remaining life never gives a larger TTL |
| `Answers.TtlsHonestIffMinFits` | setup.go:256-272 | for every message, whose own TTL is at most 2^32 - 1 s, the TTLs its entry goes out with cover its remaining life at every age if and only if the configured minimum is at most 2^32 - 1 s too |
| `Answers.OverlongMinimumServesZero` | cache.go:124-134 | with a larger minimum every entry is at some age still usable and served with all its TTLs 0 |
| `Answers.RewritingKeepsSubstance` | cache.go:133-139 | a reply handed out differs from the stored one in TTLs and question only, and its OPT records are untouched |
| `CacheRuns.StepKeepsInv` | cache.go:105-177 | for any hash, every step keeps each stored entry equal to the last accepted reply of its own identity, filed under that identity's key; lookups in progress hold entries of the identity they asked for |
| `CacheRuns.RunKeepsInv` | cache.go:105-177 | so in every interleaving of lookups, stores and reports |
| `CacheSafety.HitIsLatestAnswer` | cache.go:54-63 | for every hash, eviction choice and interleaving a hit is the last accepted reply, at its shard read, for exactly the profile, lower-cased name, type, class and flags asked, with the question echoed as asked |
| `CacheSafety.CurrentEntryIsHit` | cache.go:105-141 | in every run in which an entry is neither replaced nor evicted, has not expired and is no older than the last change, every lookup begun for what it answers is a hit on it: there is no other way to miss |
| `CacheSafety.ExpiredEntryIsMissed` | cache.go:124-127 | every lookup begun when an entry's lifetime is over is a miss |
| `CacheSafety.ServesExactlyItsLifetime` | cache.go:105-163 | an entry a run stored at t, undisturbed, is a hit for every lookup over before t plus the message's TTL brought within the bounds, and a miss for every one begun from then on |
| `CacheSafety.EntryWasBuilt` | cache.go:155-175 | in every run each entry is the reply as it came, dated when it was built, for the identity asked, with the nearest lifetime |
| `CacheSafety.StoredIff` | cache.go:145-153 | a reply is stored exactly when the question is not PTR, it is not truncated, and its rcode is NOERROR or NXDOMAIN |
| `CacheSafety.NoPtrHits` | cache.go:105-109 | no PTR question is ever answered from the cache |
| `CacheSafety.AddedIsStored` | cache.go:165-175 | an accepted reply is such an entry as soon as it is added |
| `CacheSafety.HitTtlsHonestIffMinFits` | cache.go:120-163 | every hit of every run carries an honest TTL if and only if the configured minimum is at most 2^32 - 1 s; with a larger one some run hands out a record whose TTL ends before its entry does |
| `CacheSafety.HitTtlIsHonest` | cache.go:120-134 | with such a minimum, and any maximum, every hit carries one TTL, at least 1, that lasts for the rest of the entry's life and less than a second more |
| `CacheSafety.HitTtlsCountDown` | cache.go:120-134 | of two hits on one entry the later never carries the larger TTL |
| `CacheSafety.NothingOlderThanTheChange` | cache.go:121-123 | once a change at time t has been taken in, however reports race, no lookup of that profile decided afterwards serves an entry stored before t |
| `CacheSafety.LastModOnlyAdvances` | doh.go:363-383 | under racing reports the change time of a profile never moves back and is always one that was reported |
| `CacheSafety.StoreIsConserved` | store.go:59-78 | entries over all shards equal the counter plus the adds not yet counted, in every interleaving, so the counter never exceeds the capacity |
| `Cache.Msg.Copy` | cache.go:133 | an equal message that shares no object with the original |
| `Cache.Msg.SetTtl` | cache.go:181-190 | in place, every record's TTL but OPT's, in all three sections |
| `Cache.Client.UpdateLastMod` | doh.go:363-383 | a change is taken in exactly when it is news; other profiles keep theirs |
| `Cache.MsgCache.Get` | cache.go:105-141 | hits and misses exactly as the entries as values say; the message is new, and the cache is not changed |
| `Cache.MsgCache.Put` | cache.go:145-177 | an acceptable reply enters under its key as a copy nobody else reaches, dropping what the store may drop; any other leaves the cache as it was |
| `Cache.PutThenAnswerIff` | cache.go:105-177 | right after a put the same question is answered exactly while the lifetime within the bounds lasts and no later change is reported, with the same records and the question as asked |
| `Cache.PutThenScribble` | cache.go:143-145 | whatever a caller does afterwards to the message it put, the entries are those the put left |
| `Cache.ScribbleThenGet` | cache.go:103-141 | whatever a caller does to the message of a hit, the next lookup answers as before |
| `Requests.LimiterHolds` | nextdns.go:147-157 | in every interleaving at most `max_concurrent` queries are upstream, the counter is those plus the ones being refused, never negative, and zero when every query is answered |
| `Requests.RefusedIff` | nextdns.go:150-157 | a query is refused exactly when those admitted and those still being refused number the maximum |
| `Requests.RefusedWithNothingUpstream` | nextdns.go:150-157 | a run in which a query is refused while nothing is upstream |
| `Requests.OnlyPermittedEffects` | nextdns.go:98-182 | in every interleaving: no exchange for a passthrough route, an unrouted query or a cache hit; device lookups are held only past a miss; only a matching reply is stored |
| `Outcomes.OutcomesExplained` | nextdns.go:98-182 | in every interleaving each outcome has its one cause: upstream reply, FORMERR and SERVFAIL exactly after a matching reply, another one, a failure; the cache exactly on a hit; the next plugin exactly for no route, the passthrough or its own answered lookup; NXDOMAIN exactly for its own unanswered lookup; refused exactly with the count at the maximum |
| `Outcomes.EffectsExplained` | nextdns.go:123-179 | the cache is read, NextDNS asked and the cache written under a profile exactly when the query was routed to it and, respectively, consulted it, got a slot, is answered with a matching reply with the cache on |
| `Outcomes.CallsExplained` | nextdns.go:107-126 | the next plugin is called for exactly the queries that end there |
| `Outcomes.OneDeviceLookup` | nextdns.go:128-145 | a query identifies its device exactly once if it is answered from the cache or goes on past a miss, and otherwise never |
| `Outcomes.UnansweredHasAStep` | nextdns.go:98-182 | a query that is not answered has a step it can take |
| `Requests.MarkedQueriesOnlyPassOn` | nextdns.go:107-121 | one of the plugin's own lookups reaches nothing but the next plugin |
| `Requests.AtMostOneDeviceLookup` | nextdns.go:133-145 | in every interleaving a query identifies its device at most once, on a hit or on a miss |
| `EndToEnd.AtMostOneReverseLookup` | discovery.go:141-187 | request path, cache and discoverer together: a client query starts at most one reverse lookup, and one of the plugin's own never gets into the discoverer |
| `EndToEnd.OnlyMissesAreHeld` | nextdns.go:128-145 | a query held for a name is a client's, past a cache miss and on its way upstream; none that the cache answered is ever held |
| `EndToEnd.CachedAnswerWasFetched` | nextdns.go:133-179 | what a query is answered from the cache says what some query's entry says, of the identity asked for, and that entry came of a matching reply fetched upstream for the very profile the query was routed to |
| `Requests.CachedWasFetched` | nextdns.go:159-179 | what is stored matched its question and was fetched, earlier in the run, for the profile it is filed under |
| `Recursion.NothingEnrichedBelowALookup` | discovery.go:59-67 | whatever the chains of the server's blocks, whichever block a reverse query is dispatched to and whatever neighbours do with a context they hand on, below a reverse lookup there is no device lookup, no other reverse lookup and no exchange |
| `Recursion.LookupCanComeBack` | discovery.go:33-37 | the guard is needed: a reverse lookup with internal discovery can reach this plugin again, in any block |
| `Recursion.MarkedQueryPassesOn` | nextdns.go:102-108 | a marked query stays marked and inside the plugin chains |
| `Recursion.CallDepthIsBounded` | discovery.go:310-327 | call depth is bounded by the longest chain and by how often neighbours start over; discovery adds one pass |
| `Routing.MaskedContains` | setup.go:531-541 | a parsed subnet contains exactly the addresses of its family that agree on its first bits |
| `Routing.DeadPrefixIff` | setup.go:531-534 | a CIDR matches no address at all if and only if it is IPv4-mapped and longer than 32 |
| `Routing.HostContainsItself` | setup.go:535-540 | a bare address is a subnet of that one address, unwrapped |
| `Routing.UnmapIff` | device.go:156 | unwrapping takes the IPv4-mapped form to the address and leaves every other alone |
| `Routing.ClientAddrMatches` | device.go:143-157 | whatever zone and form a client came with, a subnet contains it exactly when the unwrapped addresses agree; with its zone it would match nothing |
| `Routing.ClientAddrIsUnmapped` | device.go:151-157 | what is matched is a valid address without a zone and never an IPv4-mapped one |
| `Routing.StableSortSorts` | setup.go:494-497 | longest first, with the rules of each length in Corefile order and none lost |
| `Routing.FirstHitIsLongestMatch` | nextdns.go:228-236 | on any stable sort the first hit is the longest containing rule, the earliest of equals |
| `Routing.HitOrNoRule` | nextdns.go:228-238 | there is a hit exactly when some line contains the client, and it is the longest match |
| `Routing.ParsedIsMasked` | setup.go:531-541 | parsing leaves no host bits |
| `Routing.TiesAreOneSubnet` | setup.go:494-497 | equally long prefixes that contain one address are the same prefix |
| `Routes.Router.AddRule` | setup.go:189-201 | a line is taken, last, exactly when it is a subnet and a valid route |
| `Routes.Router.SortRules` | setup.go:494-497 | leaves a stable sort of the lines |
| `Routes.Router.ProfileFor` | nextdns.go:200-239 | a well-formed override; else the mapped view's profile; else that of the longest matching line of any order the lines were written in; else the default; an invalid override is counted every time and warned about once |
| `Routes.OverrideDecides` | nextdns.go:201-218 | a well-formed override is the route whatever the rest; with any other the query goes where it would go without |
| `Routes.Router.ReachableRoutes` | nextdns.go:278-300 | the list the lemmas below are about |
| `Routes.ReachableRoutesCover` | nextdns.go:265-300 | every query of the block without an override takes a listed route, the list has no duplicates, and a mapped view leaves one |
| `Routes.ListedIff` | nextdns.go:278-300 | listed are the mapped view's profile alone, or exactly the default and the lines' profiles |
| `Routes.RouteIsLongestMatch` | nextdns.go:228-238 | from Corefile lines to route: the longest match, or the default when none contains the client |
| `Routes.QuestionKeyedIsSafeIff` | setup.go:42-50 | a cache keyed by the question answers every run like one keyed by route and question if and only if all queries take one route |
| `Routes.SingleReachableRouteIsSafe` | README.md:312-318 | with one reachable route the stock cache is fine |
| `Routes.ShadowedRouteIsListed` | nextdns.go:265-300 | of two lines for one subnet the second is never taken, has no live line, and is listed all the same |
| `Routes.MappedLeftoverIsListed` | nextdns.go:265-300 | with ::fffe:0:0/96 for the default and the /95 around it for another profile, that profile is listed and never taken, and a question-keyed cache is safe |
| `Coverage.CoveredIff` | nextdns.go:228-236 | the recursion over halves finds a subnet covered by the lines ahead exactly when each of its addresses is in one of them |
| `Coverage.HalvesCover` | nextdns.go:228-236 | two lines for the halves of a subnet cover it although neither does alone |
| `Coverage.MappedHalfCovers` | device.go:151-157 | the /95 is covered by its one half and the IPv4-mapped block, not by the half alone |
| `Coverage.LiveIffHit` | nextdns.go:228-236 | a line is not covered by the mapped block and the lines ahead exactly when it is the first hit of some address a client can have |
| `Routes.TakenIff` | nextdns.go:200-239 | without a mapped view, the routes some query takes are the default and those with a live line |
| `Routes.TakenFromAddressIff` | nextdns.go:228-238 | those that clients with a parsed address take are those with a live line, and the default exactly when the lines leave something of 0.0.0.0/0, or of ::/0 without the mapped block |
| `Routes.ListIsExactIff` | nextdns.go:265-300 | every listed route is taken by some query if and only if the view is mapped or every listed route but the default has a live line |
| `Routes.QuestionKeyedIsSafeIffNoOtherLine` | setup.go:42-58 | a question-keyed cache is safe if and only if the view is mapped or every live line is for the default route |
| `Devices.LastSourceWins` | device.go:394-405 | the name is that of the last source with a name, the MAC, separately, of the last with a MAC |
| `Devices.MergeAll` | device.go:335-337 | the same table whatever the iteration order |
| `Devices.LearnAll` | device.go:328-346 | sources that cannot be read change nothing; the table is what the others, in order, make of each address |
| `Devices.Bind` | device.go:351-366 | in any order and with any eviction: no binding but to the newest MAC, within the limit, no fewer than before, and all of them while they fit |
| `Devices.DeviceDB.Refresh` | device.go:327-367 | a new table from the sources alone, and bindings that remember |
| `Bindings.BindingsStick` | device.go:351-366 | after any run of refreshes: at most the limit, each binding the last MAC ever seen for its address, and all of those while they fit |
| `Bindings.MacIsLastSeenOrNone` | device.go:174-180 | a lookup goes by the last MAC ever seen for the address, or by none |
| `Bindings.LastSeenIff` | device.go:348-366 | the last MAC ever seen for an address is that of the last refresh that learned one |
| `Bindings.DeviceIdIff` | device.go:207-224 | by mode, when the ID is empty, and otherwise whether it decodes to the digits of the hash with the MAC or with the address |
| `Bindings.SeenDeviceKeepsItsId` | README.md:264-268 | while the addresses ever seen with a MAC fit the limit, the ID of one of them never falls back to the IP |
| `Bindings.IdFollowsTheMac` | README.md:264-271 | a device that moves to another address keeps its ID |
| `ShortIds.SumFitsBuffer` | device.go:235 | every 64-bit sum has at most 13 base-32 digits |
| `ShortIds.ShortIdDecodes` | device.go:226-258 | five characters of 0-9 A-V that decode to the sum when it is below 32^5 and to its leading five digits otherwise |
| `ShortIds.NoKeyNoId` | device.go:231-234 | the ID is empty exactly without a key |
| `ShortIds.LeadingDivides` | device.go:248-250 | the leading digits are the sum divided by a power of 32, and five in full for a longer sum |
| `ShortIds.MakeShortId` | device.go:231-258 | padding or cutting a byte buffer and raising its case in place yields that ID |
| `ShortIds.UpperInPlace` | device.go:252-256 | the in-place case loop |
| `Names.CleanIffFixed` | device.go:260-267 | every result is at most 63 letters, digits and single inner dashes; a name is unchanged if and only if it is of that form, so normalising twice is normalising once |
| `Names.LettersSurvive` | device.go:264-296 | the letters and digits of the result are the first ones of the host label, in order, and all of them when they fit |
| `Names.SeparatorIsOneDash` | device.go:283-289 | any run of other characters between two parts of a name becomes one dash, and vanishes at the ends |
| `Names.RunIsOneWord` | device.go:281-282 | letters and digits that follow each other stay together |
| `Names.DomainIsDropped` | device.go:271-274 | whatever follows the first dot is dropped, unless the name starts with it |
| `Names.NoMoreIsCut` | device.go:291-295 | the result is all that was joined, or its first 63 characters, or 62 when the last would be a dash |
| `Names.BuiltGrows` | device.go:279-290 | the builder's step against the words of the text read so far |
| `Names.NormalizeName` | device.go:267-296 | the one pass with its early exit yields the words of the label joined by dashes, cut and trimmed |
| `LeaseLines.LeaseLineHasAddress` | sources.go:123-127 | a lease line always has a second field |
| `LeaseLines.BoundsIff` | sources.go:123-140 | only a line that starts with "lease " and ends with a brace opens a lease, only a lone brace closes one |
| `LeaseLines.NameReadBackIff` | sources.go:145-151 | a client-hostname or hostname line, quoted or not, is read back as written if and only if the name holds no `#` and, without quotes, has no space around it and no quotes of its own |
| `LeaseLines.NameTextReadBackIff` | sources.go:116-121 | as text, it is read as that one statement if and only if the name, besides, holds no newline |
| `LeaseLines.QuotedNameReadBackIff` | sources.go:163-169 | for quoted names of either kind, exactly the absence of `#` |
| `LeaseLines.QuotedTextReadBackIff` | sources.go:116-121 | as text, the absence of `#` and newline |
| `Leases.LeasesAreUnique` | sources.go:105-107 | the specification by blocks determines the table |
| `Leases.LastBlockDecidesIff` | sources.go:105-106 | the table goes by the last block of an address if and only if that block says something or no earlier block of the address does |
| `LeaseFiles.EmptyBlockKeepsLease` | sources.go:140-144 | for every lease, a file whose last block for the address is empty and whose table still has the lease |
| `Leases.NameGrows` | sources.go:145-151 | a client-hostname replaces the name, a hostname only fills in an empty one |
| `Leases.TracksOpen` | sources.go:128-135 | any lease line gives up the lease before it, and a malformed one opens none |
| `Leases.LeaseTold` | sources.go:140-144 | closing a lease tells what stands in it, if anything does, over what was told before |
| `Leases.ParseLeases` | sources.go:107-161 | for every sequence of lines: an address is known exactly when some properly closed block gives it a name or MAC, by the last such block and by nothing outside it |
| `LeaseFiles.FileReadBack` | sources.go:105-161 | round trip: the lines of a file written lease by lease are read as the last lease of each address and nothing else, whatever lines with names each lease carries |
| `LeaseFiles.ClientBeatsHost` | sources.go:145-151 | with one line of each kind, a client name that is not empty wins in either order, a host name counts without one, and an empty client name after it blanks it |
| `LeaseFiles.NothingReplaces` | sources.go:145-151 | the last client line wins if it is not empty |
| `LeaseFiles.FirstFills` | sources.go:148-151 | without client lines, the first host line with a name |
| `LeaseFiles.TextReadBack` | sources.go:105-161 | the same through one text split by the scanner, for names without newlines |

## Left out

- HTTP, TLS, dialing, bootstrap and endpoint rotation: the exchange with NextDNS is a choice of the environment.
- DNS wire format, reply typing and the minimal TTL of a message: the raw TTL is an arbitrary input from 0 to 2^32 - 1 seconds, the width of a record's TTL; a record is its type, TTL and data.
- Message objects: a section is one array of record values rather than a slice of pointers to records, so two messages sharing a single record object is not expressible.
- xxhash: an arbitrary total function of the bytes; nothing rests on its quality. That equal keys give equal IDs holds, that different ones differ does not.
- Metrics, logging, published metadata, and the reload lifecycle.
- Corefile parsing beyond what it establishes: the shape of routes, positive limits, minimum not above maximum, sorted prefixes. The text of addresses and CIDRs is parsed by the Go library, and the model starts from what it parsed to.
- Quoting and escaping in lease files beyond a pair of enclosing quotes: the parser knows no other.
- File opening, the hosts, dnsmasq and ARP line parsers: filters line by line. A lease file with a line too long for the scanner, which ends the reading early, is not modelled.
- Discovery without a resolver, or switched off, returns no name at once; that early return is not modelled.
- The panic of a lookup is modelled before and during the resolver call, not inside the plugin's own store or its metrics.
- The grace period of drain: only the goroutine that waits is modelled, so whether shutdown gives up on it is not.
- Instants are integers on one clock; the arithmetic of Go's time values beyond the 64-bit duration in the TTL computation is not modelled, and the zero time is 0.
- The 64-bit widths of the limiter's and the store's counters are not modelled; both are bounded by the number of queries in flight and by the capacity.
- The items of the message cache are the plain map that the sharded store is proved to refine, rather than the shard objects.
- Requests.OnlyPermittedEffects: cache answers, routing and the exchange are choices of the environment there. EndToEnd ties the cache answers to the cache; the profile a query is routed to stays a choice, and the reply an exchange brings is known only as matching or not.
- Device model and OUI, statically configured names, and the order of name sources in a lookup: plain selections.
- Names are sequences of characters; that an invalid byte counts as one unsupported character is taken over from the loop over runes.
