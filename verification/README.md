# Verified model of the sharded hotel-booking backend

This project models the algorithmic and protocol parts of the booking backend in Dafny and proves
what they are for: no room is promised twice and a guest keeps a booking while relocations across
shards interleave and fail; every row stays where its key routes to; buckets and ring keys move only
as far as growth demands; a session sees its own writes; a cached search is never older than an
announced change; and cross-shard queries answer as one database would.

## How it is laid out

| file | subject |
|---|---|
| `Wrappers.dfy`, `JsText.dfy`, `Counting.dfy`, `Sorting.dfy` | options and results; strings as UTF-16 code units; counting in sequences; stable sorting |
| `ShardKey.dfy`, `BucketMap.dfy`, `Routing.dfy` | FNV-1a on 32-bit words, the bucket inside an identifier, the bucket-map parser, routing of keys |
| `Rebalance.dfy`, `HashRing.dfy`, `RingNearest.dfy`, `Resharding.dfy` | redistribution of buckets, the consistent-hash ring and distances on it, the comparison of placement schemes |
| `Cluster.dfy` | the rows of one shard and the statements and transactions that run on it |
| `Rooms.dfy` | room and hotel statements under their constraints, room numbers in all runs |
| `BookingRuns.dfy` | the state machine of interleaved requests over the shards; placement of every row |
| `SagaRuns.dfy`, `RelyIsNeeded.dfy` | no double booking, one winner, the states of a saga; runs that show what goes wrong in a reservation's window |
| `BookingsService.dfy` | the booking service as methods on mutable state, tied to runs of the machine |
| `FanOut.dfy`, `Search.dfy`, `CitySearch.dfy`, `Analytics.dfy`, `CityFigures.dfy`, `GuestHistory.dfy` | scatter-gather and what is built on it, against one undivided database |
| `Guests.dfy`, `GuestRuns.dfy` | references from bookings to guests, one operation at a time and interleaved |
| `Cache.dfy`, `SearchCache.dfy` | the Redis commands and keys; searches and mutations interleaved around the search version |
| `DbRouter.dfy`, `ReadYourWrites.dfy` | the read/write router; sessions, instances and a lagging replica over time |

Code that changes state in place is a class or a method over arrays, proved equal to a function or a
run of a state machine; the properties are then lemmas about the function or over all runs.

## Reading the results

- *Runs.* A run is any sequence of events. An event that is not enabled changes nothing, so the
  theorems about runs cover every interleaving, crashes between steps and failed writes. Initial
  states may hold any placed rows in any status, because no code sets CONFIRMED or COMPLETED except
  the last saga step copying an old status.
- *The last saga step and PATCH.* T3 sets the status of the reservation without looking
  (`src/bookings/bookings.service.ts:340`), and PATCH writes dates and room without looking
  (`src/bookings/bookings.service.ts:206-216`). `SagaRuns.FreeExactlyWhenWritesFit` proves for every
  run that no room is ever promised twice exactly when each of these writes comes at a time when the
  room it books is not taken. A rely condition that suffices: no PATCH, and nobody else cancels or
  relocates a reservation between T1 and T3 (`SagaRuns.NoRoomIsPromisedTwice`).
  `RelyIsNeeded.DoubleBookingWithoutRely` is a run that ends in a double booking without it.
- *One winner.* At most one relocation of a booking ever passes T2, and the booking stays cancelled,
  exactly when no T3 takes effect on the booking after a relocation has taken it away
  (`SagaRuns.OneWinnerExactly`). A booking that is no relocation's reservation meets this in every run.
  `RelyIsNeeded.TwoWinnersInTheWindow` is a run in which a reservation is revived and won twice.
- *City search.* The one-shard search of strategy city is complete exactly when every room lies on the
  shard of its hotel's city (`CitySearch.CompleteExactly`), and stays so in a run exactly when no edit of
  a city, and no room put into a hotel, leaves a room elsewhere (`CitySearch.CitySearchExactly`).
  `CitySearch.EditLosesARoom` is an edit after which a search misses a room.
- *Cluster edges.* `Routing` keeps the routing functions as values under stated laws;
  `Routing.AppRoutingIsSound` proves that the application's own functions obey them for every bucket map.
- *Read-your-own-writes* needs each commit to be on the replica by the time its age reaches the
  sticky time to live: the entry has expired at that very millisecond. `PromiseKeptExactly` proves
  both directions.
- *Search version.* There are two ways to an old answer. A failed read of the version counts as version 0
  (`src/cache/cache.service.ts:126-134`), so an entry of generation 0 can still answer. And a load
  prefers the primary but degrades to the replica when the primary is out
  (`src/rooms/rooms.service.ts:92`, `src/database/db-router.service.ts:189-192`); what a lagging replica
  gave is cached under the current version. All answers are fresh exactly when neither may happen
  (`SearchCache.FreshExactly`); `SearchCache.OldHitExactly` and `SearchCache.OldLoadExactly` say when a
  single search gives an old answer. A search with a silent shard is cached like any other; the
  theorems speak of the shards that answered.
- *Failed T3.* When T3 fails, the original is already cancelled and the reservation exists, but the
  request ends in an error before the search version is raised (`src/bookings/bookings.service.ts:340-343`).
  `BookingsService.BookingsService.Relocate` states this outcome as it is.
- *Guest integrity* holds when operations run one after another. Interleaved, the check of a guest and
  the write of its booking are on different nodes, and a relocation copies a guest it read earlier, so
  counting the stored bookings before a removal is not enough. `GuestRuns.IntegrityExactly` proves that
  integrity holds exactly when each guest is removed at a time when no stored booking, no checked
  request and no copy under way names it; `GuestRuns.RelocationLeavesAnOrphan` is a run in which the
  counts are zero and a cancelled booking of the removed guest remains all the same.

Where documentation and code differ, the code is modelled. `docs/LAB7.md:438` lets a new shard take
the whole part of B / M buckets; in the code the first B mod M shards have one bucket more.

## Model

| member | source | states |
|---|---|---|
| ShardKey.Fnv1a | src/sharding/shard-key.ts:26-33 | the loop over signed words, made unsigned at the end, computes the unsigned FNV-1a fold modulo 2^32 |
| ShardKey.KnownHashes | src/sharding/shard-key.ts:26-33 | the published hashes of the empty text and of "a" come out |
| ShardKey.StepIsBijective | src/sharding/shard-key.ts:29-30 | one step is undone by the inverse multiplier and the code unit, and every word is reached |
| ShardKey.OneUnitApartNeverCollide | src/sharding/shard-key.ts:26-33 | two strings of one length that differ in exactly one code unit have different hashes |
| ShardKey.BucketOfInRange | src/sharding/shard-key.ts:46-48 | every string has a bucket below 64 |
| ShardKey.BucketOfExactly | src/sharding/shard-key.ts:46-48 | two leading hexadecimal digits of either case are read as a number modulo 64; any other string goes by its hash modulo 64 |
| ShardKey.BucketRoundTrip | src/sharding/shard-key.ts:46-53 | the bucket written into an identifier is read back exactly when it is below 64 |
| ShardKey.ChildKeepsBucket | src/sharding/shard-router.service.ts:141-143 | a child identifier has its parent's bucket, whatever string the parent is |
| ShardKey.LayoutKept | src/sharding/shard-key.ts:50-53 | writing a bucket into a version 4 UUID keeps the layout of section 5.4 of RFC 9562 and all characters after the first byte |
| BucketMap.FragmentGrammar | src/sharding/shard-key.ts:71-75 | a fragment parses to a range and shard exactly when its text spells them, as digits, optional hyphen and digits, colon, digits |
| JsText.TrimExactly | src/sharding/shard-key.ts:68-71 | trimming cuts off only white space, at the two ends, and leaves none there |
| JsText.DecimalIsPositional | src/sharding/shard-key.ts:73-75 | digits are read as the positional decimal number they spell |
| BucketMap.CheckedExactly | src/sharding/shard-key.ts:70-78 | a part is accepted exactly when, trimmed, it spells a range from <= to < 64 and a shard below the shard count; the error says which of the two failed |
| BucketMap.RefusedExactly | src/sharding/shard-key.ts:68-78 | a specification that is not blank is refused exactly when some comma-separated part, trimmed, spells no fragment within those bounds |
| BucketMap.RefusedForTheFirst | src/sharding/shard-key.ts:70-78 | the error names the first such part and what is wrong with it |
| BucketMap.AcceptedExactly | src/sharding/shard-key.ts:67-81 | otherwise every bucket has the shard of the last spelled fragment whose range covers it, and bucket mod shard count if none does |
| BucketMap.DefaultMap | src/sharding/shard-key.ts:67-68 | a blank or missing specification gives every bucket its number modulo the shard count |
| BucketMap.BuildBucketMap | src/sharding/shard-key.ts:66-82 | overwriting the table fragment by fragment gives the specified map, or the error of the first bad fragment; what is specified is `RefusedExactly` and `AcceptedExactly` |
| BucketMap.MapFollowsSpec | src/sharding/shard-key.ts:66-82 | a specification is refused exactly when a part is; otherwise each bucket has the shard of the last fragment covering it, else bucket mod shard count |
| BucketMap.EveryKeyRoutes | src/sharding/shard-router.service.ts:93-119 | every accepted map has 64 entries below the shard count, so every string routes to a shard |
| BucketMap.EveryMapIsSpelled | src/sharding/shard-key.ts:60-82 | every map of 64 buckets to shards is the result of some specification |
| Routing.AppRoutingIsSound | src/sharding/shard-router.service.ts:93-143 | for every accepted map and both strategies the application's routing is defined on every key and keeps children in the parent's bucket |
| Routing.RoutesAsSpelled | src/sharding/shard-router.service.ts:93-119 | a key goes to the shard that the last fragment covering its bucket spells, or to bucket mod shard count |
| Routing.NewHotelsBucket | src/sharding/shard-key.ts:56-58 | a new hotel's bucket is the hash of its trimmed lower-case city under strategy city and of its UUID otherwise, modulo 64 |
| Routing.AppCityHomes | src/sharding/shard-router.service.ts:128-138 | under strategy city a new hotel's bucket is the one the city lookup names |
| Rebalance.QuotasAddUp | src/sharding/resharding.ts:61 | the quotas of all shards sum to the number of buckets |
| Rebalance.RebalanceBuckets | src/sharding/resharding.ts:59-79 | the in-place redistribution ends with an empty stack in a map that meets every quota, moves exactly the surplus and hands it out in order |
| Rebalance.HandOut | src/sharding/resharding.ts:72-77 | the stack never runs dry while a shard is below its quota and is empty at the end |
| Rebalance.RebalancedIsUnique | src/sharding/resharding.ts:59-79 | the stated result determines the map: any two maps meeting it are equal |
| Rebalance.LowestStay | src/sharding/resharding.ts:62-71 | a shard gives up its highest buckets: below a bucket that stays, all of that shard's buckets stay |
| Rebalance.FewestChanges | src/sharding/resharding.ts:55-79 | no map that meets the quotas changes fewer buckets |
| Rebalance.GrowthOnlyMovesToNewShards | src/sharding/resharding.ts:55-79 | from a balanced map, growth moves a bucket only to a shard that did not exist, and the result is balanced |
| Rebalance.RoundRobinIsBalanced | src/sharding/shard-key.ts:67 | the default map gives every shard its quota |
| Rebalance.ChainOnlyMovesToNewShards | src/sharding/resharding.ts:59-79 | over any chain of growths a bucket is on its first shard or on one added later |
| Sorting.SortSorts | src/sharding/resharding.ts:38 | the sorted points ascend by hash |
| Sorting.StableSortIsUnique | src/sharding/resharding.ts:38 | being sorted and keeping the order of equal hashes leaves one possible result |
| HashRing.HashRing.constructor | src/sharding/resharding.ts:33-39 | the pushed and sorted points are the ring of the specification |
| HashRing.HashRing.ShardOf | src/sharding/resharding.ts:42-52 | the binary search finds the owner that a linear search clockwise with wrapping finds; that owner is the nearest by `RingNearest.OwnerExactly` |
| RingNearest.OwnerIsNearest | src/sharding/resharding.ts:42-52 | the owner of a 32-bit key is the shard of a point at least clockwise distance modulo 2^32, the first in ring order among equals |
| RingNearest.OwnerExactly | src/sharding/resharding.ts:33-52 | a shard owns a key exactly when it is the lowest-numbered shard with a virtual node at the least clockwise distance of all virtual nodes |
| HashRing.RingOwns | src/sharding/resharding.ts:33-52 | with at least one shard and one virtual node every key has an owner among the shards |
| HashRing.GrowthOnlyMovesToNewShards | src/sharding/resharding.ts:30-53 | for any label hash, collisions included, growing the ring leaves a key on its shard or moves it to a new one |
| Resharding.MakePlacement | src/sharding/resharding.ts:81-89 | the placement of a scheme is the modulo, the default or redistributed bucket map, or the ring of that size |
| Resharding.GrowthPlacements | src/sharding/resharding.ts:116-120 | under virtual buckets and consistent hashing, growth moves keys only to new shards |
| Resharding.CountMoves | src/sharding/resharding.ts:120-126 | load counts every key once on its shard and moved counts the changed keys; when keys move only to new shards, moved is the load of those |
| Resharding.RowIsExact | src/sharding/resharding.ts:116-126 | the load of a shard is the number of keys that end up on it, and moved the number that end up elsewhere than they started, for 32-bit hashes, with both places told by remainders, the bucket map's entry, or nearest virtual nodes |
| Resharding.ConsecutiveKeysFillQuotas | src/sharding/resharding.ts:81-126 | under virtual buckets as many consecutive hashes as there are buckets load every shard with exactly its quota |
| Resharding.OneBucketOneShard | src/sharding/resharding.ts:85 | under virtual buckets hashes equal modulo the number of buckets are loaded on one shard |
| Resharding.StartsOnItsBucketsNumber | src/sharding/resharding.ts:85-120 | from the default map a hash h starts on shard (h mod B) mod from: a key moves exactly when it ends on another |
| Resharding.SimulateOne | src/sharding/resharding.ts:116-126 | one row: its loads and moved are those counts, the loads sum to the number of keys, and except under modulo, moved is the load of the shards added |
| Resharding.SimulateResharding | src/sharding/resharding.ts:103-139 | every transition yields a row for each of the three schemes, each exact in that sense |
| Resharding.ModuloStaysExactly | docs/LAB7.md:422-427 | under modulo a hash stays put exactly when its remainder by lcm(N, M) is below min(N, M) |
| Resharding.StayersPerPeriod | docs/LAB7.md:422-427 | any lcm(N, M) consecutive hashes contain exactly min(N, M) that stay |
| Resharding.StayersShare | docs/LAB7.md:422-427 | every two cluster sizes have such a period, so the documented share of stayers holds for any of them |
| Cluster.NightsCoverStay | src/bookings/bookings.service.ts:147 | the charged nights are the fewest whole days that cover the stay |
| Cluster.OverlapIsSharedInstant | src/bookings/bookings.service.ts:133-141 | for proper stays the overlap test says that the half-open intervals share an instant |
| Cluster.TakenExactly | src/bookings/bookings.service.ts:133-141 | a room is not taken exactly when every other pending or confirmed booking of it ends by check-in or starts at check-out or later |
| Cluster.ReserveExactly | src/bookings/bookings.service.ts:123-161 | a reservation goes through exactly when the room is stored and so free; it adds the one row with the asked guest, dates and status at the charged price, and a refusal says why |
| Cluster.PatchExactly | src/bookings/bookings.service.ts:206-216 | PATCH sets exactly the given fields of exactly this row; status and price stay |
| Cluster.StatusExactly | src/bookings/bookings.service.ts:314-340 | setting a status, with or without a condition on the old one, changes that column of that row alone |
| Cluster.ReserveKeepsNoOverlap | src/bookings/bookings.service.ts:123-161 | the reservation transaction never promises a room twice |
| Cluster.RelocateKeepsNoOverlap | src/bookings/bookings.service.ts:281-288 | nor does reserve and cancel in one transaction, although its check looks past the old booking |
| Cluster.PatchKeepsNoOverlapExactly | src/bookings/bookings.service.ts:206-216 | PATCH keeps rooms from being promised twice exactly when the patched booking is inactive or its room is free for its dates |
| Cluster.SetStatusKeepsNoOverlapExactly | src/bookings/bookings.service.ts:340 | setting a status unseen is safe exactly when it is inactive or no other active booking takes the room for the dates |
| Rooms.InsertRoomExactly | src/rooms/rooms.service.ts:26-65 | a room is added, and nothing else changed, exactly when its hotel is there and no room of the hotel has its number |
| Rooms.PatchRoomExactly | src/rooms/rooms.service.ts:133-148 | a patch sets exactly the given fields, and goes through exactly when the room and its new hotel are there and the number is free |
| Rooms.RemovalsExactly | src/hotels/hotels.service.ts:80-86 | a room goes exactly when it has no booking, a hotel exactly when it has no room |
| Rooms.PutRoomExactly | prisma/schema.prisma:36-49 | writing one room keeps a hotel's numbers apart exactly when no other room of the hotel has the number |
| Rooms.NumbersAlwaysDiffer | prisma/schema.prisma:47 | in every run, sagas and failures included, no hotel has two rooms of one number |
| Rooms.CreateRoomExactly | src/rooms/rooms.service.ts:26-65 | in a cluster, a create request stores the room exactly when its hotel is stored and no room of that hotel on any shard has the number |
| BookingRuns.PlacedKept | src/sharding/shard-router.service.ts:114-143 | each event of hotels, rooms, bookings and sagas keeps every row on the shard its key names and beside its parent in one bucket |
| BookingRuns.OnlyInsertsAppear | src/bookings/bookings.service.ts:150-160 | a booking row appears only under an identifier that the event inserts |
| BookingRuns.RowFrame | src/bookings/bookings.service.ts:225-352 | an event leaves alone every booking outside the one or two it names |
| BookingRuns.BaseAlways | src/bookings/bookings.service.ts:58-352 | placement and the plans of relocations in flight hold after every run |
| BookingRuns.AggregatesStayTogether | src/rooms/rooms.service.ts:133-148 | in every run a booking, its room and its hotel exist on one shard and share one bucket |
| BookingRuns.NothingStrays | src/sharding/shard-router.service.ts:114-119 | in every run a row found on a shard has that shard as the route of its key |
| SagaRuns.OriginalsHaveOneWinner | src/bookings/bookings.service.ts:314-337 | in every run whatever, of the relocations of a booking that is no relocation's reservation at most one gets past T2, and the booking stays cancelled |
| SagaRuns.KnownBookingsAreOriginals | src/bookings/bookings.service.ts:273-274 | a booking known before a run is never a reservation of that run |
| SagaRuns.OneWinnerExactly | src/bookings/bookings.service.ts:314-340 | in every run and for every booking: at most one relocation ever gets past T2 and the booking stays cancelled exactly when no T3 takes effect on it after a relocation has taken it away |
| SagaRuns.AtMostOneWinner | src/bookings/bookings.service.ts:314-337 | hence one winner for every booking, a reservation included, that no T3 revives |
| RelyIsNeeded.TwoWinnersInTheWindow | src/bookings/bookings.service.ts:340 | a concrete run in which a reservation relocated away in its window is revived by T3 and relocated away again |
| SagaRuns.LosersLeaveNothing | src/bookings/bookings.service.ts:325-337 | in every run whatever, a compensated relocation leaves no active reservation |
| SagaRuns.ConfirmIsSafeExactly | src/bookings/bookings.service.ts:339-340 | T3 keeps the cluster free of double bookings exactly when the reservation's room has no other active booking for its dates |
| SagaRuns.FreeKeptExactly | src/bookings/bookings.service.ts:123-352 | an event keeps the cluster free of double bookings exactly when it is no T3 and no PATCH that books a taken room |
| SagaRuns.FreeExactlyWhenWritesFit | src/bookings/bookings.service.ts:123-352 | a run, PATCH included, is free of double bookings after every prefix exactly when each T3 and each PATCH comes while the room it books is not taken |
| SagaRuns.WindowsKept | src/bookings/bookings.service.ts:302-340 | under the rely condition each event keeps a reservation pending until its T3 |
| SagaRuns.NoRoomIsPromisedTwice | src/bookings/bookings.service.ts:123-352 | in every run under the rely condition and without PATCH, no two active bookings anywhere overlap in one room |
| SagaRuns.ShapeKept | src/bookings/bookings.service.ts:300-363 | each event that leaves a relocation's two bookings to it keeps the rows that belong to its stage |
| SagaRuns.GuestKeepsABooking | src/bookings/bookings.service.ts:300-363 | stopping anywhere, with any failed writes, at least one of the two bookings is active; success leaves exactly the new one with the old guest, dates and status, a compensated abort exactly the original |
| RelyIsNeeded.DoubleBookingWithoutRely | src/bookings/bookings.service.ts:340 | a concrete run without PATCH ends in a double booking when a reservation is cancelled between T1 and T3 |
| BookingsService.Settling | src/bookings/bookings.service.ts:106-120 | the attempt that decides is the first without a serialization conflict, or the fifth |
| BookingsService.WorksExactly | src/bookings/bookings.service.ts:106-120 | a transaction works exactly when one of the first five attempts commits and all before it conflict |
| BookingsService.TxReplyExactly | src/bookings/bookings.service.ts:106-141 | each reply has its cause: missing row, taken room or five conflicts, broken constraint, broken attempt |
| BookingsService.CreateOutcome | src/bookings/bookings.service.ts:58-161 | a reservation is accepted exactly when its transaction commits in time, some shard stores the room and on no shard a pending or confirmed booking of the room meets the stay; the row is as asked and priced |
| BookingsService.ShardDb.Serializable | src/bookings/bookings.service.ts:106-120 | the body takes effect once, on what the deciding attempt sees, or not at all, within five attempts |
| BookingsService.BookingsService.Create | src/bookings/bookings.service.ts:58-98 | accepted exactly for proper dates, a known guest, a commit in time, a stored room and no pending or confirmed booking anywhere that meets the stay; the new row is as asked and priced; the shards change as the run of the event, the reply gives the first reason for refusal, and the search version rises exactly on acceptance |
| BookingsService.BookingsService.Update | src/bookings/bookings.service.ts:206-216 | the bucket guard, the guest check and the read of the row come first, each with its reply; an accepted patch leaves the shards as `Cluster.PatchExactly` says, and one the database refuses has its own reply |
| BookingsService.BookingsService.Remove | src/bookings/bookings.service.ts:218-223 | as above for removal |
| BookingsService.BookingsService.Cancel | src/bookings/bookings.service.ts:226-242 | as above for read and cancel; it is accepted exactly when the rows change |
| BookingsService.CancelExactly | src/bookings/bookings.service.ts:226-242 | a pending or confirmed booking becomes cancelled and nothing else changes; any other booking is left alone |
| BookingsService.BookingsService.RelocateLocally | src/bookings/bookings.service.ts:281-298 | one transaction reserves and cancels, and the reply is the transaction's |
| BookingsService.BookingsService.RelocateBySaga | src/bookings/bookings.service.ts:300-352 | T1, T2, then T3 or C1, with the step log and the search version each end has |
| BookingsService.BookingsService.Relocate | src/bookings/bookings.service.ts:258-352 | a refusal names the first failed check, an unreachable shard included; otherwise the shards end as the relocation's run leaves them, and the reply and step log tell its outcome |
| BookingsService.RelocationRests | src/bookings/bookings.service.ts:258-352 | a relocation served alone always runs to an end and leaves every row placed |
| BookingsService.DeclinedExactly | src/bookings/bookings.service.ts:258-280 | a relocation is turned down exactly when its booking is missing, cancelled or completed, or in the room already, and the reply says which |
| BookingsService.RelocationEndsAsExpected | src/bookings/bookings.service.ts:258-352 | a relocation succeeds exactly when the room exists and is free for the stay and its writes work; otherwise it ends at the first step that does not |
| BookingsService.ReplyTellsTheRows | src/bookings/bookings.service.ts:258-379 | accepted means the original is cancelled and the new booking carries its status; aborted means the original stands unchanged |
| BookingsService.LogTellsTheRows | src/bookings/bookings.service.ts:300-363 | each logged step names its shard and what it says is what the two rows show; the last one names the outcome |
| FanOut.EveryShardIsAccountedFor | src/sharding/shard-router.service.ts:166-174 | each shard is in the parts with its own answer or among the silent, never both |
| FanOut.MissingIffSilent | src/sharding/shard-router.service.ts:166-177 | nothing is missing exactly when every shard answered |
| FanOut.PartsInOrder | src/sharding/shard-router.service.ts:166-174 | the parts come in the order of the shards |
| FanOut.MergeInOrder | src/sharding/shard-router.service.ts:183-186 | the merged list is the answers one after another, each in its own order |
| FanOut.Router.Gather | src/sharding/shard-router.service.ts:152-180 | without partial answers one silent shard fails the query with the first such shard's error; counters count each answer and each partial result |
| FanOut.Settle | src/sharding/shard-router.service.ts:166-174 | the loop over the settled answers sorts them into parts and silent shards in shard order |
| Search.TakenLocally | src/rooms/rooms.service.ts:110-128 | a room's availability judged from its own shard is its availability in the whole cluster |
| Search.FoundExactly | src/rooms/rooms.service.ts:110-128 | a room is found exactly when it is large enough, in the city if one is asked for, and every pending or confirmed booking of it ends by check-in or starts at check-out or later |
| Search.FanOutSearchIsWhole | src/rooms/rooms.service.ts:106-131 | the merged list has each room once and is what one database holding all rows would find, up to the silent shards |
| Search.LocalSearchExactly | src/rooms/rooms.service.ts:129-130 | a one-shard search finds exactly the found rooms that live on that shard |
| CitySearch.CompleteExactly | src/rooms/rooms.service.ts:129-130 | the one-shard search finds for every query by city what one database would exactly when every room lies on the shard of its hotel's city |
| CitySearch.EditKeepsExactly | src/hotels/hotels.service.ts:66-78 | an edit of a city keeps all rooms on the shards of their cities exactly when the hotel has no room or the new city's shard is the hotel's own |
| CitySearch.EventKeepsSearchExactly | src/rooms/rooms.service.ts:129-148 | an event leaves the one-shard search complete exactly when no edited city, and no room created or moved, leaves a room away from the shard of its hotel's city |
| CitySearch.CitySearchExactly | src/sharding/shard-router.service.ts:127-138 | a run, edits included, keeps the one-shard search complete throughout exactly when each event does |
| CitySearch.EditLosesARoom | src/hotels/hotels.service.ts:66-78 | an edit of a hotel's city after which every search for the new city misses its room |
| Search.CitySearchInRuns | src/sharding/shard-router.service.ts:127-138 | under strategy city, in runs without a city edit, the one-shard search is complete |
| Analytics.JoinLocally | src/sharding/sharding.service.ts:110-112 | a row of the join over the whole cluster is a row of the join on its hotel's shard, and the other way round |
| Analytics.EveryHotelIsJoined | src/sharding/sharding.service.ts:110-113 | the outer joins give a city a row exactly when it has a hotel |
| Analytics.CityTotalsAdd | src/sharding/sharding.service.ts:95-114 | distinct hotels, bookings and revenue of a city on the whole are the sums over the shards |
| Analytics.MergeRows | src/sharding/sharding.service.ts:116-125 | the nested loops accumulate exactly the listed cities, each with the sum of its rows |
| Analytics.MergedTableIsWhole | src/sharding/sharding.service.ts:101-133 | the merged table is GROUP BY city over one database, for any number of shards and order of rows; with silent shards, over the rest; the figures are those of `CityFigures.MergedFiguresExactly` |
| CityFigures.FiguresExactly | src/sharding/sharding.service.ts:101-114 | in one database a city's hotels are the hotels in it, its bookings all bookings of their rooms, and its revenue the sum of prices of those pending, confirmed or completed, each counted once |
| CityFigures.MergedFiguresExactly | src/sharding/sharding.service.ts:101-125 | the merged figures of a city are those, over the undivided database |
| Guests.GuestsService.Remove | src/guests/guests.service.ts:64-74 | a guest is removed exactly when known, every shard answered and none holds a booking of the guest |
| Guests.NoneCounted | src/guests/guests.service.ts:66-70 | the counts of all shards sum to zero exactly when no shard holds a booking of the guest |
| Guests.NoOrphanBookings | src/guests/guests.service.ts:64-74 | in every run of one operation at a time, cancellations and relocations stopped anywhere included, with any node failing, each stored booking names an existing guest |
| Guests.StoredKeptExactly | src/bookings/bookings.service.ts:66-94 | any event, create, PATCH or copy, keeps every stored booking's guest existing exactly when the guest it writes exists, if it goes through |
| Guests.IntactKeptExactly | src/bookings/bookings.service.ts:273-288 | the same with the copies under way: only a create or a PATCH can break it |
| Guests.IntactKept | src/bookings/bookings.service.ts:383-388 | no event but a checked create or update can bring in a guest |
| GuestRuns.NoOrphansExactly | src/guests/guests.service.ts:64-74 | an interleaved run leaves no booking without its guest exactly when each write finds its guest still there and each removal finds no stored booking of its guest |
| GuestRuns.RemovalSafeExactly | src/guests/guests.service.ts:64-74 | removing a guest keeps integrity exactly when no stored booking, no checked request and no copy under way names it; no other act can break it |
| GuestRuns.IntegrityExactly | src/bookings/bookings.service.ts:206-213 | an interleaved run keeps integrity throughout exactly when each guest is removed while nothing names it |
| GuestRuns.RemovalBeforeTheWrite | src/bookings/bookings.service.ts:66-94 | a guest removed between check or reading and write leaves an orphan exactly when the write goes through |
| GuestRuns.RelocationLeavesAnOrphan | src/bookings/bookings.service.ts:265-336 | a concrete run: original and guest are removed after a relocation read them, and its cancelled copy remains |
| GuestHistory.HistoryIsWhole | src/guests/guests.service.ts:82-94 | the sorted history has, newest first and once each, all the guest's bookings on the shards that answered |
| GuestHistory.HistoryIsUnique | src/guests/guests.service.ts:93 | newest first with the merged order within an instant leaves one possible history |
| Cache.IncrRaises | src/cache/cache.service.ts:153-162 | INCR raises the version read by one and touches no other key |
| Cache.StoredUntil | src/cache/cache.service.ts:105-183 | a text stored with a time to live is read back while less than that has passed and not after, one without always, a deleted one never; no other key is affected |
| Cache.KeysDecode | src/cache/cache-keys.ts:36-41 | equal search keys have equal versions and equal digests |
| Cache.NoKeyIsTheVersion | src/cache/cache-keys.ts:34-41 | no search key is the version key |
| Cache.CacheService.GetOrSet | src/cache/cache.service.ts:87-123 | a hit asks no loader, a miss stores what was loaded for the drawn time, no Redis means the bypass loader and nothing stored; a failed loader changes no counter |
| Cache.CacheService.GetVersion | src/cache/cache.service.ts:126-134 | the stored number, or 0 without a key or without Redis |
| Cache.CacheService.BumpVersion | src/cache/cache.service.ts:153-162 | the version rises by one exactly when Redis takes the command, and every other key is unchanged |
| Cache.CacheService.Invalidate | src/cache/cache.service.ts:137-146 | exactly the named keys are gone when Redis takes the command, and otherwise nothing changes |
| Cache.CacheService.HasFlag | src/cache/cache.service.ts:175-183 | the flag stands exactly until its time to live is over; unknown when Redis cannot tell |
| SearchCache.StepKeeps | src/rooms/rooms.service.ts:87-95 | each step of searches and mutations keeps every part loaded with current content, cached or not, at least as new as its version |
| SearchCache.SearchesAreFresh | src/rooms/rooms.service.ts:87-95 | in every interleaving, hit, miss or bypass, a search answers its own query from all its shards; it lacks an announced mutation only through a part of a lagging replica, or by a hit after a failed version read |
| SearchCache.OldHitExactly | src/cache/cache.service.ts:94-109 | a look-up gives an old answer exactly when the entry of the version the search holds is there and lacks an announced mutation, after a working version read only in a lagging replica's part |
| SearchCache.OldLoadExactly | src/database/db-router.service.ts:187-193 | a search that loads its answer gives an old one exactly when a lagging replica's part lacks an announced mutation |
| SearchCache.LaggingLoadServesOldData | src/rooms/rooms.service.ts:87-95 | for every query that can be answered, some run with every version read working caches a lagging replica's part under the new version, and a later search hits it |
| SearchCache.FailedVersionReadServesOldData | src/cache/cache.service.ts:126-134 | for every query that can be answered, on any number of shards, some run with a failed version read and no lagging replica gives an old answer |
| SearchCache.FreshExactly | src/rooms/rooms.service.ts:87-95 | all answers are fresh in all runs exactly when version reads may not fail and searches may not load from lagging replicas, or no query can be answered at all |
| DbRouter.ReadsAreOrderly | src/database/db-router.service.ts:153-202 | whatever fails, a read asks each node at most once and only nodes it may use, and a value is the last node's own answer |
| DbRouter.FirstChoiceComesFirst | src/database/db-router.service.ts:153-202 | a read turns first to the node its consistency and session ask for, is served there when that is up and answers, gives up there on an error of the query, and marks down what broke the connection, except a last-resort replica |
| DbRouter.RoutesTellTheNode | src/database/db-router.service.ts:153-202 | the replica answers only as eventual or degraded, never a strong read, and degraded only when the primary is out |
| DbRouter.RoutesNameTheReason | src/database/db-router.service.ts:153-202 | the route names why the first choice was asked when that one answered, fallback when the primary stood in, degraded when the replica did |
| DbRouter.ServedIffSomeNodeIsReady | src/database/db-router.service.ts:153-202 | while nodes fail only by losing connections, a read is served exactly when some node it may use is up |
| DbRouter.CountersAlwaysBalance | src/database/db-router.service.ts:101-109 | after any history writes equal write routes, replica reads equal eventual plus degraded, and primary reads the other read routes |
| DbRouter.CountersCount | src/database/db-router.service.ts:101-109 | after any history the counters count the reads that were answered, and the writes done and rejected |
| DbRouter.CountersBalanceFromTheStart | src/database/db-router.service.ts:101-109 | a new router's counters agree after whatever it serves |
| DbRouter.CleaningIsInvisible | src/database/db-router.service.ts:283-285 | dropping expired sessions never changes whether a session sticks |
| DbRouter.CleaningExactly | src/database/db-router.service.ts:283-285 | exactly the unexpired sessions are left, with their times |
| DbRouter.ProbedExactly | src/database/db-router.service.ts:283-305 | after a probe a node is up when it answered, down when the connection broke, and as before on any other error |
| DbRouter.SessionsDoNotShareFlags | src/database/db-router.service.ts:227-229 | two sessions have one flag key only if they are the same |
| DbRouter.QuietReadMarksTheDown | src/database/db-router.service.ts:153-202 | a read that others leave alone changes only the flags of the nodes it found down |
| DbRouter.DbRouter.Read | src/database/db-router.service.ts:153-173 | the method takes the specified path for the health flags it meets, which may change during each wait, counts its reply and marks down the nodes that broke the connection |
| DbRouter.DbRouter.Write | src/database/db-router.service.ts:132-150 | a mutation reaches the primary at most once and only while it is thought up; a done write is remembered here and in Redis before the reply |
| DbRouter.DbRouter.ProbeNodes | src/database/db-router.service.ts:283-305 | exactly the expired sessions are dropped; flags follow the answers, and other errors leave them |
| DbRouter.DbRouter.IsSticky | src/database/db-router.service.ts:239-246 | sticky exactly when this instance or a reachable Redis holds a live entry of the session |
| ReadYourWrites.ProbeKeeps | src/database/db-router.service.ts:283-285 | the clean-up drops no entry that still guards a write |
| ReadYourWrites.StepKeeps | src/database/db-router.service.ts:132-246 | each step keeps every acknowledged write on the replica or guarded by a live entry |
| ReadYourWrites.ReadYourOwnWrites | src/database/db-router.service.ts:132-246 | in every run with lag within the sticky time, a read that is not degraded shows the session's acknowledged writes: those of its instance always, others when Redis took the flag and answered |
| ReadYourWrites.PromiseKeptExactly | src/database/db-router.service.ts:87-246 | the promise holds in all runs exactly when commits reach the replica within the sticky time |
| ReadYourWrites.SettingMirrors | src/database/db-router.service.ts:232-237 | the SET of a flag in Redis is the flag step of the runs, for all sessions and times |

## Left out

- Controllers, request validation, middleware, HTTP status codes and headers, logging, timers, jitter and back-off pauses.
- PostgreSQL and Prisma internals: a Serializable transaction or a single statement is one atomic step and an error has no effect; a commit whose acknowledgement is lost is not modelled.
- Redis internals: GET, SET, INCR, DEL and EXISTS are atomic, and a key is kept until it expires. Texts other than decimal digits under the version key count as 0.
- MD5, SHA-1, random UUIDs and lower-casing are arbitrary functions: the digest is injective on normalised parameters, and new identifiers are fresh.
- BookingsService.BookingsService.Create: the services read and write shards without the read/write router in between; a node that cannot be reached is a read or a write that fails.
- BookingsService.BookingsService.RelocateBySaga: the status and message an aborted saga passes on from its failed step.
- DbRouter.DbRouter.constructor: states the initial counters; that they balance is StartsBalanced, used by CountersBalanceFromTheStart.
- ReadYourWrites.ReadYourOwnWrites: the clocks of instances and Redis agree, requests without a session have nothing to be promised, and Redis keeps a flag until it expires.
- Search.CitySearchInRuns: the cluster starts with every hotel in its city's bucket.
- Sorting.StableSortIsUnique: the library's sort is modelled by insertion, which this lemma shows is the only stable result.
- Updates of fields the theorems do not read (hotel name, address, rating, room type, guest profile).
- The freshness of the hotel card cache, which is invalidated by deletion only: a load before a commit may be stored after the deletion and stay until it expires.
- Equality of a cached search with a direct query in another spelling: keys lower-case the city, the query compares it exactly.
- The sort of cities by revenue, percentages, rounding, latencies, and the totals of the distribution report.
- The join of bookings with guest profiles, price recomputation after a PATCH, and shrinking the cluster.
- Replication diagnostics, health payloads, load tests, demo scripts and deployment files.
