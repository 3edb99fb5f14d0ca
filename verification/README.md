# transitland-lib in Dafny

A model of the parts of transitland-lib whose correctness spans many functions or a whole run, with proofs that they
do what their comments promise, or the exact condition under which they do.

- **The trip / stop_time join** (`TripJoinSpec`, `TripJoin`, `TripStream`, `TripConservation`, `JoinItems`,
  `GenericJoin`). The reader joins trips.txt and stop_times.txt in one pass if the file is grouped and in chunks if it
  is not; the copier has a third join for other readers. `Join` is one simple function of the two files. Both of the
  reader's paths equal it on every feed, except when a kept row with an empty trip_id stands in a file that passes as
  grouped, and that is the only exception. `Join` sends every trips row once, and every stop_times row once exactly if
  no trip exceeds the cap of chunkSize rows; the third join sends every trips row once, and every stop_times row once
  exactly if no group of a trip follows another of it. Without caps the two send the same joined trips. A trip carries
  a limit error exactly if the file holds more rows of it than are kept. What a chunk holds in memory is stated
  exactly.
- **Service calendars** (`ServiceCalendar`, `Service`, `ServiceLevels`, `LevelRanges`, `ServiceWindow`). `Simplify`
  keeps the active days exactly if it keeps those before the service period, and no calendar with its dates, which are
  the set ones or the least and the greatest of the period, needs fewer exceptions. The rows of `ServiceLevels` expand
  on every day to the sum of the services active that day, but for services active before their period. The ring
  buffer finds the busiest window.
- **The copier** (`EntityCopier`, `CopyTrace`, `CopyPasses`, `CopyMap`, `PassOrder`, `CopyRun`, `CopyWitness`,
  `StopPatterns`, `TripPatterns`, `Deduplication`, `JoinedTrips`). Whatever markers, filters, validators, expand
  filters and the writer answer, and they may answer differently each time: if failed references are refused
  (AllowEntityErrors and AllowReferenceErrors are not both on), and NormalizeServiceIDs is on or calendar.txt lists
  every service, every reference of every written entity is empty or names an entity written before it; over every
  feed with a service calendar.txt lacks, there is without NormalizeServiceIDs a run in which one does not. However a
  run ends, at each of its checks a reference resolves exactly if what it names was accepted before the run of one
  file that the entity is in, and it is replaced by the newest id; the passes read every file after those it refers
  to. A run that ends well has given copyEntities exactly what its passes read and what their accepted entities carry,
  in order and as often; it has checked exactly what that expands to, and written exactly what it accepted. The
  counters of a file add up to the entities checked, exactly if no after-validator refused one. Pattern tables do not
  depend on the batch size. From the stop_times that deduplication lets pass, a trip can be recovered exactly if the
  first trip of its journey was accepted and dwells equally long at the first stop.
- **Fetches** (`FetchProtocol`) as a transition system of any number of fetches, **imports** (`ImportProtocol`) as one
  of imports, crashes and unimports of a feed version. In both, a method in the order of the code is proved to be a
  run, and what it returns and stores follows from which of its operations failed.
- **Kernels** (`Polyline`, `ClosestPoint`, `Geohash`, `StopTimeSequence`).

Where the source works step by step, the model is a method with the same branches, proved against a function of its
inputs, and the promises are lemmas about that function. Files are sequences of rows, and an error return is a value.
Dates are day numbers from 0001-01-01, which is a Monday; 0 is an unset date. The order in which Go ranges over a map
is arbitrary. Go's unstable sort is any sorting function. Floats are reals.

## Where the code differs from what it says

- An empty trip_id in stop_times.txt stands for "no previous row" (`tlcsv/reader.go:351,474`), so a file holding one
  may pass as grouped and lose its rows or mix two trips: `TripStream.RunIsJoinIff`.
- The generic join drops a second group of a trip (`copier/copier.go:942-947`), which a reader over several others
  gives if two of them share a trip_id (`adapters/multireader/reader.go:61-63`):
  `GenericJoin.GenericSendsEachStopTimeIff`, `SecondGroupIsDropped`.
- The comment at `tlcsv/reader.go:281` bounds what a chunk buffers by chunkSize. A chunk may hold almost twice that,
  and holds more exactly if the trip that fills it overshoots beside others: `TripJoin.PeakWithinIff`,
  `HoldsMoreThanChunkSize`.
- `Simplify` may change days before the service period, and no others: `ServiceCalendar.SimplifyKeepsDaysIff`. With
  dated exceptions it loses base days before the first exception of a service without a start date, and only those
  (`DatedKeepsEarlyDaysIff`, `EarlyDaysAreLost`), and service levels miss them (`ServiceLevels.ServedIsActiveIff`,
  `EarlyDaysAreMissed`). An exception with a zero date (`service/service.go:184-189`) can make a day active
  (`ZeroDateBreaks`), but not as the last one (`ZeroLastKeepsDays`).
- `HasAtLeastOneDay` (`service/service.go:223-258`) is true for an added day that an earlier exception of the same day
  shadows, false for base days before the first exception of a service without a start date, and misled by flags other
  than 0 and 1; it is right in all other cases: `ServiceObject.AnswerIsRightIff`, with `ShadowedAnswer`, `EarlyAnswer`
  and `MisleadingAnswer`.
- The numbers of stop patterns clash in two ways, and no other: a fixed-route trip follows a flex trip named like its
  key and is given a flex trip's number (`TripPatterns.FlexIdClash`), or a flex trip takes over a key that is in the
  table, so that the table does not grow, and a later trip that needs a number is given the same one
  (`TakenKeyClash`): `StopPatterns.SharedNumbersIff`, `TripPatterns.SamePatternIff`.
- The journey key measures departures from the first departure, but the recorded offset is that of the first arrival
  (`copier/copier.go:1036`): departures are lost unless the first dwells agree, `TripPatterns.OffsetRestoresTripIff`,
  `DepartureIsLost`.
- A journey is registered before its first trip is accepted. If that trip is refused, neither its stop_times nor those
  of its repeats are given to copyEntities: `Deduplication.DeduplicationIsLosslessIff`, `TripIsRecoveredIff`, and
  `CopyWitness.RefusedPatternTrip` runs such a copy.
- Without NormalizeServiceIDs, services known only from calendar_dates.txt are entered in the map but not written
  (`copier/copier.go:800-812`), so dates are written with references to nothing: over every feed with such a service
  some run does so (`CopyWitness.UnlistedServiceDangles`), and over no other feed if references are checked
  (`CopyRun.Copier.Copy`).
- With AllowEntityErrors off, a failed reference counts as an entity error, never as a reference error
  (`copier/copier.go:510-518`): `CopyTrace.FailedReferenceReason`, `NoReferenceErrors`. A refusal by an
  after-validator is counted nowhere (`copier/copier.go:521-525`): `CopyRun.Copier.CountedOnceIff`. A list that expand
  filters leave empty makes `batchEntFilenames` index an empty slice (`copier/copier.go:1235`):
  `CopyRun.Copier.CopyEntities` panics exactly then.
- The comment at `fetch/static_fetch.go:183-185` counts on a unique index on sha1; `schema/sqlite/sqlite.sql:158` has
  a plain one. Without it two fetches can commit one archive twice: `FetchProtocol.TwoVersionsWithoutIndex`.
- `importer/importer.go:84` says an unimport refuses a record in progress; `importer/unimporter.go:34-68` does not
  look. An unimport during an import can leave rows that the next import shows
  (`ImportProtocol.StaleRowsBecomeVisible`) or an active feed version without data (`ActiveWithoutData`), and any
  unimport leaves rows in tables it is not told of (`UnlistedTableStays`); `RowsMatchIff` and `ActiveVisibleIff` say
  exactly when. A failed import whose last update fails returns InProgress false, where the record stays in progress
  (`importer/importer.go:88-95`): `ReturnedIsPersistedIff`, `FailedUpdateIsNotStored`.
- The rule on parent stations lets a station have a station (`rules/invalid_parent_station.go:69`), but one pass reads
  both (`copier/copier.go:599-605`), so such a reference resolves only if the two come in different batches:
  `PassOrder.ParentsReadFirst`, `CopyMap.ReferenceResolvesIff`. The tag of location_id names locations.txt
  (`gtfs/stop_time.go:15`), where the code looks in locations.geojson (`gtfs/stop_time.go:260`); `PassOrder` follows
  the code.
- A last polyline byte worth nothing is accepted, so not every code that decodes is the code of its line:
  `Polyline.EncodeOfDecodeIff`, `PaddedIsShortened`.
- `SegmentClosestPoint` returns an end within a millionth of a degree with distance 0, also where it is not the
  nearest point: `ClosestPoint.SnappedIsNearestIff`, `StartIsTaken`.
- A segment of length 0 makes `SegmentClosestPoint` and `segPos` divide by 0. `LineClosestPoint` passes over it
  without harm (`ClosestPoint.LineResult`); `CutBetweenPositions` returns a point that is not a number if the line
  begins with such a segment and the cut with its distance, and only then (`CutHasPointsIff`, `CutWithoutStart`).
- A bounding box that touches 90 or 180 degrees makes `CellsCoveringBbox` sample one cell beyond the grid:
  `Geohash.CellsInGridIff`, `PoleLeavesGrid`.
- A departure without an arrival sets back the time later stops are compared with, which may hide an early arrival:
  `StopTimeSequence.TimesInOrderIff`, `LoneDepartureSetsTimeBack`.

## Model

| member | source | states |
|---|---|---|
| TripJoinSpec.FirstSeenInFileOrder | tlcsv/reader.go:285-289 | the output order is that of each trip_id's first row in stop_times.txt |
| TripJoinSpec.CappedIsPrefix | tlcsv/reader.go:480-488 | the rows kept of a trip are its first chunkSize rows |
| TripJoin.ScanTripStopTimes | tlcsv/reader.go:341-364 | the scan counts every kept trip_id's rows, lists the ids in first-appearance order, and flags the file |
| TripJoin.GroupedIffContiguous | tlcsv/reader.go:338-352 | without empty trip_ids the flag holds exactly if every id's rows are contiguous |
| TripJoin.ChunkByCount | tlcsv/reader.go:366-384 | the chunks concatenate to the order, and each is cut by the first trip that fills the budget |
| TripJoin.ReadTripsForIds | tlcsv/reader.go:406-421 | every requested id maps to all its trips rows in file order, other ids to none |
| TripJoin.EmitJoinedTrip | tlcsv/reader.go:423-443 | a trip is sent with sorted stop_times and the limit flag it is given, duplicates follow bare, and no row makes an unflagged orphan |
| TripJoin.GatherChunk | tlcsv/reader.go:506-522 | a chunk's map holds the first chunkSize rows of each of its ids and flags exactly those with more |
| TripJoin.ChunkBufferBound | tlcsv/reader.go:495-497 | a chunk never buffers 2 * chunkSize stop_times, for any counts |
| TripJoin.ChunkTripStopTimes | tlcsv/reader.go:498-528 | the chunked path sends the join of every id in order, and its peak is exactly the most that any of its chunks holds, below 2 * chunkSize |
| TripJoin.PeakWithinIff | tlcsv/reader.go:281-284 | the peak keeps to chunkSize exactly if no chunk is filled beyond it by its last trip beside others |
| TripJoin.HoldsMoreThanChunkSize | tlcsv/reader.go:281-284 | a scattered file of four rows of which a chunk of size 2 holds 3 |
| TripStream.TripChunksParts | tlcsv/reader.go:386-404 | the trip chunks concatenate to the order, none empty and none longer than n |
| TripStream.ChunkByTrips | tlcsv/reader.go:391-404 | the loop cuts exactly these chunks, a size below 1 counting as 1 |
| TripStream.Emitter.Advance | tlcsv/reader.go:454-465 | the closure joins against the chunk at its cursor and moves the cursor, or panics past the last chunk |
| TripStream.StreamTripStopTimes | tlcsv/reader.go:445-493 | on any file the one pass sends what its groups make of the chunks, and never holds more than chunkSize rows |
| TripStream.GroupedPass | tlcsv/reader.go:469-489 | on a grouped file without empty trip_ids the pass never mixes two trips or splits one |
| TripStream.GroupedStreamIsJoin | tlcsv/reader.go:291-294 | on such a file the fast path equals the simple join, however the order is chunked |
| TripStream.TripsWithStopTimes | tlcsv/reader.go:295-336 | the entry point runs the path the flag names, then the trips without stop_times; a grouped file stays within chunkSize, and the peak of another is exact |
| TripStream.RunIsJoin | tlcsv/reader.go:281-294 | both paths send exactly the join |
| TripStream.RunIsJoinIff | tlcsv/reader.go:291-294 | for all trips files at once, exactly when stop_times.txt is not a flagged file with a kept empty trip_id |
| TripStream.EmptyIdLosesTrip | tlcsv/reader.go:351-351 | on every such file a trip with an empty id is lost |
| TripConservation.JoinSendsEachTripOnce | tlcsv/reader.go:281-289 | every kept trips row is sent as valid exactly as often as the file holds it, caps and duplicates included |
| TripConservation.JoinSendsKeptStopTimes | tlcsv/reader.go:281-289 | every stop_times row that passes the filter, orphans included, is sent as often as the capped rows of its trip hold it, and no other row is |
| TripConservation.JoinSendsEachStopTimeIff | tlcsv/reader.go:281-289 | that is as often as the file holds it, for every row, exactly if no trip_id that passes the filter has more rows than the cap |
| TripConservation.JoinKeepsTripsApart | tlcsv/reader.go:423-443 | a trip sent with stop_times has only its own, and no other item of the output has one of its trip_id, whatever ids the files repeat |
| JoinItems.JoinTells | tlcsv/reader.go:423-443 | every item of the join has sorted stop_times, and a limit error exactly if it is a trip with stop_times of which stop_times.txt holds more than chunkSize rows, counted over the file; it is the first row of its trip, an orphan that no trips row belongs to, or a row of a trip without stop_times or a repeated one |
| JoinItems.RunTells | tlcsv/reader.go:295-336 | and so has every item that the entry point sends, on either path |
| GenericJoin.CacheTrips | copier/copier.go:917-933 | the cache holds the first row of every trip_id and the duplicates the others, in file order |
| GenericJoin.StreamGroups | copier/copier.go:934-948 | each group is sent with its trip, as an orphan if the id is unknown, or dropped if the trip is gone |
| GenericJoin.GenericTripsWithStopTimes | copier/copier.go:913-958 | the output is the streamed groups, then the untaken first rows in some order, then the duplicates |
| GenericJoin.GenericSendsEachTripOnce | copier/copier.go:905-912 | every trips row is sent as valid exactly once, whatever groups the reader gives |
| GenericJoin.GenericStopTimesSent | copier/copier.go:934-948 | for any trips and groups, every row is sent as often as the groups hold it, less what the dropped groups hold |
| GenericJoin.GenericSendsEachStopTimeIff | copier/copier.go:934-948 | every row of every group is sent once, exactly if no group of a trip_id that is in trips.txt follows another of that id |
| GenericJoin.SecondGroupIsDropped | copier/copier.go:942-947 | a trip with two groups, of which the second is lost |
| GenericJoin.GenericKeepsTripsApart | copier/copier.go:934-948 | if each group is of one trip_id, a trip sent with stop_times has only its own and no other item has one of its id |
| GenericJoin.SameJoinedTrips | copier/copier.go:905-912 | the generic join and the reader's own send every joined trip equally often when none exceeds the cap |
| ServiceObject.Service.SetWeekday | service/service.go:154-178 | sets one flag to 0 or 1 and nothing else, or refuses and changes nothing |
| ServiceObject.Service.ServicePeriod | service/service.go:180-192 | the dates of the specification's widest period, on which see the two next |
| ServiceCalendar.StartIsLeast | service/service.go:184-186 | the period starts with the least of the set start and the exception dates, a zero date making the scan begin again after it |
| ServiceCalendar.EndIsGreatest | service/service.go:187-189 | and ends with the greatest of the set end and the exception dates |
| ServiceCalendar.PeriodCoversIff | service/service.go:180-192 | the period covers every exception, exactly if all have a date or the last has none |
| ServiceObject.Service.Exception | service/service.go:194-203 | the first exception entered for the day, if any |
| ServiceObject.Service.IsActive | service/service.go:205-221 | the first exception decides, else the dates and the weekday flag |
| ServiceObject.Service.HasAtLeastOneDay | service/service.go:223-258 | the answer for any flags, dates and exceptions; with flags of 0 and 1, true exactly if some day of the period is active or some exception adds one |
| ServiceObject.AnswerIsRightIff | service/service.go:223-258 | the answer is whether any day is active, exactly if not every added day is shadowed over no base day, not every base day precedes the period, and the flags do not mislead |
| ServiceObject.ActiveDayIff | service/service.go:205-221 | a service is active on some day exactly if an added day is the first entry of its day or a base day has no exception |
| ServiceObject.ShadowedAnswer | service/service.go:233-244 | a service whose added day is shadowed: true for no active day |
| ServiceObject.EarlyAnswer | service/service.go:249-257 | a service active before its period only: false for active days |
| ServiceObject.Service.CountDays | service/service.go:266-286 | the two maps count total and active days of each weekday in the range |
| ServiceObject.Service.SetMajority | service/service.go:303-313 | each weekday that occurs is set exactly if its active days are no minority |
| ServiceObject.Service.AddExceptions | service/service.go:315-336 | one exception for each day of the period on which the new base calendar is wrong |
| ServiceObject.Service.Simplify | service/service.go:260-338 | a fresh service with the dates, week and exceptions of the specification, on which see the three next |
| ServiceCalendar.SimplifyDates | service/service.go:262-265 | set dates of a service that is not generated are kept; otherwise the new dates are the least and the greatest of the period |
| ServiceCalendar.SimplifyVotes | service/service.go:303-313 | each weekday is set exactly if it occurs between those dates and at least half of its days there are active |
| ServiceCalendar.SimplifyExceptions | service/service.go:315-336 | the exceptions are in order, within the period, and each contradicts the new week on its day |
| ServiceCalendar.ExactInPeriod | service/service.go:315-336 | inside the service period the result is active on the same days, whatever the calendar |
| ServiceCalendar.SimplifyKeepsDaysIff | service/service.go:260-338 | for any calendar and exceptions, on every day exactly if the days before the service period are those that a majority of their weekday makes active |
| ServiceCalendar.DatedKeepsEarlyDaysIff | service/service.go:260-338 | with dated exceptions, exactly if no base day precedes the first exception of a service without a start date |
| ServiceCalendar.EarlyDaysAreLost | service/service.go:260-338 | a service without a start date that loses an active day |
| ServiceCalendar.UndatedKeepsDaysIff | service/service.go:260-338 | without set dates, and with any zero dates, exactly if no day before the period is active |
| ServiceCalendar.ZeroLastKeepsDays | service/service.go:184-189 | a zero date on the last exception changes no day |
| ServiceCalendar.ZeroDateBreaks | service/service.go:184-189 | an exception with a zero date can make the result active on another day |
| ServiceCalendar.WrongByWeekday | service/service.go:303-313 | the days a base week gets wrong add up weekday by weekday |
| ServiceCalendar.SimplifyIsOptimal | service/service.go:260-261 | no calendar with those dates and the same active days has fewer exceptions, whatever its week |
| ServiceLevels.ServiceTotals | stats/fvsl.go:222-230 | the seconds of each service are the sum over its trips, repeated trips multiplied |
| ServiceLevels.RepeatedTripIsManyTrips | stats/fvsl.go:224-227 | a trip repeated n times adds as much to every service as n trips like it that are not repeated |
| ServiceLevels.AddService | stats/fvsl.go:240-254 | one service adds its seconds to each of its active days in the period, and to no other day or week |
| ServiceLevels.AddServices | stats/fvsl.go:232-255 | the week map holds every day's total over the services, and only weeks that some service serves |
| ServiceLevels.ServedIsActiveIff | stats/fvsl.go:240-254 | the days counted are exactly the active days, exactly if no active day precedes the service period, or there is none if the period has no start |
| ServiceLevels.DatedVisitedIff | stats/fvsl.go:240-254 | with dated exceptions only base days of a service without a start date are missed |
| ServiceLevels.EarlyDaysAreMissed | stats/fvsl.go:240-254 | the same service runs for a minute on a day of which no second is counted |
| LevelRanges.SortedWeeks | stats/fvsl.go:256-268 | the Mondays of all weeks with one pattern, in order |
| LevelRanges.PatternRangesAreRows | stats/fvsl.go:269-281 | the run-merging loop makes maximal runs of weeks with the pattern, and covers them all |
| LevelRanges.CompressWeeks | stats/fvsl.go:256-295 | disjoint maximal runs, one set for each pattern, covering every week of the map |
| LevelRanges.ExpansionIsExact | stats/fvsl.go:51-87 | reading the rows back gives the week map on every day |
| LevelRanges.NeighboursDiffer | stats/fvsl.go:269-278 | rows run from Monday to Sunday, and two rows that meet have different patterns |
| LevelRanges.ServiceLevelRows | stats/fvsl.go:218-299 | the rows expand on every day to the sum of the totals of the services that are counted, cover exactly the weeks served, are disjoint, and differ where they meet |
| LevelRanges.RowsSumActiveServices | stats/fvsl.go:218-299 | that sum is the sum over the services active that day, short of those missed, and short of nothing if no service is active before its period |
| ServiceWindow.LeavingDay | stats/fvsl.go:31-33 | the slot about to be overwritten holds the day that leaves the window |
| ServiceWindow.RingIsTrailing | stats/fvsl.go:28-39 | the ring's sum is the sum of the trailing windowSize days, earlier days counting 0 |
| ServiceWindow.ServiceLevelDaysMaxWindow | stats/fvsl.go:19-49 | the result bounds every window, and is the latest that attains it |
| ServiceWindow.NonNegativeBusiest | stats/fvsl.go:41-46 | for non-negative levels it is always attained |
| EntityCopier.EntityMap.Set | tt/entitymap.go:41-49 | one look-up changes and no other |
| EntityCopier.EntityMap.Get | tt/entitymap.go:63-71 | returns the entry and changes no look-up, though it may add an empty file |
| EntityCopier.EntityMap.UpdateKey | tt/entitymap.go:28-39 | empty references stay, known ones are replaced, unknown ones fail and stay |
| EntityCopier.AppendKeepsIntegrity | copier/copier.go:541-551 | writing an entity whose references name written ones keeps the integrity of the output |
| EntityCopier.SoundStill | copier/copier.go:541-551 | the map still knows only what was written |
| EntityCopier.LastIsNewest | copier/copier.go:541-551 | the last entity of the log that is named by an id decides what is known of it |
| CopyMap.MapsNext | copier/copier.go:541-551 | after each written entity the map answers every look-up with the newest id that the log has for it |
| CopyMap.ReferenceResolvesIff | tt/entitymap.go:28-39 | at every check of a run, however it ends, a reference resolves exactly if what it names was accepted in a settled check: in an earlier call, or earlier in the same call in another run of one file; the one exception are services entered though not written |
| CopyMap.ReferenceIsNewest | tt/entitymap.go:28-39 | it is replaced by the id that the writer gave to the last of those entities, and a group id stays |
| CopyMap.RefusedForReferenceIff | copier/copier.go:453-518 | an entity that markers and filters let pass, without errors of its own, is refused for errors exactly if references are checked and one of its own names nothing accepted in a settled check |
| CopyTrace.OutcomeIff | copier/copier.go:423-527 | for each outcome, which answers of markers, filters, validators and look-ups give it |
| CopyTrace.ExpansionIsFlat | copier/copier.go:1146-1160 | each entity given becomes what the expand filters answer for it, in order, or stays if they have no answer |
| CopyTrace.FailedReferenceReason | copier/copier.go:510-518 | a failed reference is refused as an entity error exactly if those are not allowed, and as a reference error exactly if only those are not |
| CopyTrace.NoReferenceErrors | copier/copier.go:510-518 | with entity errors not allowed no check of a run is counted as a reference error |
| CopyTrace.OutcomesAddUp | copier/copier.go:423-527 | every check of a file has exactly one of the six outcomes |
| CopyTrace.GivenIsChecked | copier/copier.go:1142-1184 | over all calls, what is checked is what was given, expanded, in order and as often |
| CopyRun.BatchEntFilenames | copier/copier.go:1233-1263 | batches of one file each in order, changing file from one to the next |
| CopyRun.Copier.UpdateKeys | copier/copier.go:453-461 | known references are replaced and unknown ones kept, with no error exactly if all resolve |
| CopyRun.Copier.CheckEntity | copier/copier.go:423-527 | the outcome and its reason are those of the specification, and exactly that counter grows |
| CopyRun.Copier.CheckBatch | copier/copier.go:1169-1177 | every entity of the batch is checked once, in order, and the accepted ones are pending with their references resolved |
| CopyRun.Copier.WriterAddEntities | copier/copier.go:529-563 | it succeeds exactly if the writer gives every entity an id and no after-writer fails; then the batch is logged with those ids and counted, and integrity and the map hold also after an error |
| CopyRun.Copier.RecordWritten | copier/copier.go:541-551 | one entity enters the log, and the map changes by exactly its id and group id, keeping integrity |
| CopyRun.Copier.CopyEntities | copier/copier.go:1142-1184 | every entity given is expanded and checked once, in order, and what is accepted is logged and returned; it panics exactly if a list expands to nothing |
| CopyRun.Copier.BatchCopy | copier/copier.go:1187-1231 | every entity of the pass that its filter keeps is given once and in order, in full batches and a last one |
| CopyRun.Copier.CopyListedCalendars | copier/copier.go:733-770 | in full batches and a last one, each calendar is given once, the first of a service carrying all its dates, then the dates of those accepted; the other services are left over |
| CopyRun.Copier.CopyCalendars | copier/copier.go:733-829 | then each service with dates only is given a generated calendar with its dates, over the period of those dates, or without NormalizeServiceIDs its dates alone |
| CopyPasses.GeneratedCoversIff | copier/copier.go:790-794 | the period of a generated calendar covers all its dates exactly if none is a zero date, or the last is |
| CopyRun.Copier.AssignBatch | copier/copier.go:971-1043 | the trips of the batch in order, each with stop_times carrying the pattern it is given, orphans set aside |
| CopyRun.Copier.ProcessTripBatch | copier/copier.go:960-1069 | trips first, then exactly the orphans' stop_times and those of the accepted trips whose journey is not a repeat |
| CopyRun.Copier.CopyTripsAndStopTimes | copier/copier.go:858-888 | for every batch size the pattern tables are those of the trips read one by one, and every element is in one batch, all full but the last |
| CopyRun.Copier.CopyPasses | copier/copier.go:594-651 | the calls of the run are, pass by pass, those of each pass of Copy in order |
| CopyRun.Copier.Copy | copier/copier.go:569-669 | a run that ends well has given all passes and extensions, checked exactly that, logged exactly what was accepted with the ids the writer gave, and counted it; it ends otherwise only by the writer, an after-writer or a panic; and also then all references name entities written before, if references are checked and NormalizeServiceIDs is on or the feed lists all services, and no entity whose references all name something accepted in a settled check is refused for one |
| CopyRun.Copier.AllAccounted | copier/copier.go:423-563 | each counter is the number of checks with its outcome, and the five add up to the checks less those refused by an after-validator |
| CopyRun.Copier.CountedOnceIff | copier/copier.go:521-525 | they add up to the entities checked exactly if no after-validator refused one |
| CopyPasses.TripIsGiven | copier/copier.go:1045-1049 | every trip of the stream is given with its pattern, in one of the batches |
| CopyPasses.OrphanIsGiven | copier/copier.go:973-981 | so is every orphan stop_time, whatever becomes of the trips |
| CopyPasses.KeptIff | copier/copier.go:1211-1218 | of a plain file every entity is given as often as the file holds it, or not at all if its type is not listed |
| CopyPasses.DateHasOneCalendar | copier/copier.go:739-788 | every calendar date is carried by exactly one calendar, as often as the file holds it: the first of its service, or the generated one |
| PassOrder.OnePassEach | copier/copier.go:594-646 | no file is read by two passes, but the stops by three that follow each other |
| PassOrder.TargetsReadFirst | copier/copier.go:586-646 | whatever a file refers to in another is read by an earlier pass, or given before it in the same |
| PassOrder.ParentsReadFirst | copier/copier.go:599-619 | stops of every type are read by exactly one pass, after those they may have as a parent, but for the parent of a station |
| PassOrder.EarlierCallResolves | copier/copier.go:541-551 | a reference to what any earlier call of the run accepted resolves |
| Deduplication.CompletedTripsRan | copier/copier.go:1142-1184 | every check of the trip batches of a completed run is of a trip of the batch and has the outcome of the specification |
| Deduplication.TimesAreGiven | copier/copier.go:1051-1066 | whatever filters made of it, what an accepted trip that is not skipped carries stands in what the second call of its batch is given |
| Deduplication.TimesGivenIff | copier/copier.go:1051-1066 | the stop_times of a trip are given, all and in order, exactly if that very trip was accepted and deduplication is off or no trip read by then repeats a journey under its id; otherwise none of them is |
| Deduplication.DeduplicationIsLosslessIff | copier/copier.go:1028-1066 | with deduplication, the stop_times of an accepted trip or those of the first trip of its journey are given exactly if that first trip itself was accepted; if not, none of either is |
| Deduplication.PatternElement | copier/copier.go:1034-1037 | the pattern a repeat is written with names the first trip of its journey, whose stops and arrivals shifted by the recorded offset are its own |
| Deduplication.TripIsRecoveredIff | copier/copier.go:1028-1066 | from what is given and the pattern it is written with, the stops and arrivals of a trip can be recovered exactly if the first trip of its journey was accepted, and its departures by the same offset exactly if the first dwells agree too |
| JoinedTrips.JoinedTripsAreApart | tlcsv/reader.go:423-443 | the trips the reader sends to the copier have ids and stop_times of their own, as deduplication counts on |
| JoinedTrips.GenericTripsAreApart | copier/copier.go:913-958 | and so have those of the generic join, in any order of its cache |
| CopyWitness.RefusedPatternTrip | copier/copier.go:1028-1066 | a run that ends well, writes a trip, and gives no stop_times to copyEntities, because the first trip of the journey is not marked |
| CopyWitness.UnlistedServiceDangles | copier/copier.go:800-812 | without NormalizeServiceIDs, over every feed with a service that calendar.txt lacks: a run that ends well and writes a date with a reference to nothing |
| CopyWitness.UncheckedReferenceDangles | copier/copier.go:510-518 | with both kinds of error allowed, over every feed and for every entity of a plain file with a reference: a run that ends well and writes it with a reference to nothing |
| StopPatterns.SharedNumbersIff | copier/copier.go:990-1001 | all trips share numbers exactly with the fixed-route trips of their key, exactly if no fixed-route trip follows a flex trip named like its key and no trip that needs a number follows a flex trip that took over a key |
| StopPatterns.NumbersWithoutGap | copier/copier.go:990-1001 | whatever the trips, with every number all lower ones are given, and earlier |
| StopPatterns.PatternsNumberedIff | copier/copier.go:990-1001 | the table numbers its keys without gap or repeat exactly if no flex trip has taken over a key |
| TripPatterns.JoinedInjective | copier/stoppattern.go:16-20 | the NUL-joined key determines the stops, for NUL-free ids |
| TripPatterns.SameKeyIff | copier/stoppattern.go:23-62 | two trips have one journey key exactly if they agree in all ten fields of the trip and all of each stop, but for a shift of all arrivals and one of all departures |
| TripPatterns.TripStopTimeState.Number | copier/copier.go:985-1043 | one trip is given the pattern, journey and offset of the specification, and the tables follow |
| TripPatterns.TripStopTimeState.AssignPatterns | copier/copier.go:839-856 | the state is that of all trips so far, across batches |
| TripPatterns.NumberGiven | copier/copier.go:990-1001 | the stop patterns given to trips are the numbers of their keys |
| TripPatterns.SamePatternIff | copier/stoppattern.go:11-21 | for NUL-free stop ids, all trips share a stop pattern exactly with the fixed-route trips that make the same stops, exactly if no keys clash |
| TripPatterns.FlexIdClash | copier/copier.go:992-995 | the first clash: a trip that makes one stop is given the number of an earlier flex trip named like it |
| TripPatterns.TakenKeyClash | copier/copier.go:992-1001 | the second: in the other order, the next trip with other stops is given the number of the flex trip |
| TripPatterns.PatternTrip | copier/stoppattern.go:23-62 | a repeated journey is attributed to its first trip, with the stops equal and all times shifted by constants |
| TripPatterns.OffsetRestoresTripIff | copier/copier.go:1034-1037 | the recorded offset restores arrivals and departures exactly if the first dwells agree |
| TripPatterns.DepartureIsLost | copier/copier.go:1034-1037 | two trips of one journey of which the second is skipped and not restored by its offset |
| TripPatterns.SkippedIdsIff | copier/copier.go:1034-1037 | an id is skipped exactly if a trip of that id repeats an earlier journey |
| TripPatterns.SkippedIff | copier/copier.go:1034-1057 | a trip with an id of its own is skipped exactly if it repeats an earlier journey, with its own offset, however many trips follow |
| FetchProtocol.Server.GetFeedVersionBySha1 | feedmanager/db.go:88-98 | finds a row with the sha1 or sha1_dir exactly if there is one |
| FetchProtocol.LookUpFindsIff | feedmanager/db.go:88-98 | at every moment a look-up finds a version exactly if a fetch of the same sha1 or sha1_dir has committed, a missing sha1_dir being looked up as the empty one and stored as none |
| FetchProtocol.Server.UploadFile | fetch/fetch.go:103-118 | stores the file under its sha1 and nothing else, or does nothing without storage or if it fails |
| FetchProtocol.Server.WriteVersion | fetch/static_fetch.go:194-210 | version, stats and report are committed together, exactly if no part fails and the index does not refuse the sha1, and otherwise nothing is |
| FetchProtocol.Server.StaticProcess | fetch/static_fetch.go:72-212 | disturbed by any other fetches at any point, a fetch is a run of the protocol in the order of its code; what it returns and stores is decided by its operations: it fails exactly if one that it reached fails, and past its validation it has the validator's errors and is rejected, having stored nothing, exactly if it is strict and there are any |
| FetchProtocol.OutcomeIff | fetch/static_fetch.go:120-212 | of the steps of a fetch: when it fails, is rejected, or has a new version, each exactly |
| FetchProtocol.StepKeepsInv | fetch/static_fetch.go:120-212 | each step of each fetch keeps the invariant |
| FetchProtocol.EveryRunIsSafe | fetch/static_fetch.go:72-77 | in every interleaving a committed version has its file stored and its stats, each outcome names a committed matching version, and only validated feeds are uploaded |
| FetchProtocol.OneVersionPerSha1 | fetch/static_fetch.go:183-185 | with the unique index no sha1 has two versions |
| FetchProtocol.OneVersionPerSha1Iff | fetch/static_fetch.go:183-195 | with or without it, exactly if no fetch commits a sha1 committed since it looked again |
| FetchProtocol.TwoVersionsWithoutIndex | schema/sqlite/sqlite.sql:138-158 | without it a run commits one archive twice |
| ImportProtocol.CheckErrorThreshold | copier/result.go:149-230 | true exactly if every file with a threshold stays within it |
| ImportProtocol.FileOkIff | copier/result.go:203-216 | a threshold of p allows exactly p errors in every hundred |
| ImportProtocol.ThresholdsMetIff | copier/result.go:149-230 | a result passes exactly if no file has more than its own threshold of errors in every hundred, or than that of the rest if it has none |
| ImportProtocol.Importer.CheckRequiredMinEntities | copier/result.go:247-279 | true exactly if agencies and routes were written |
| ImportProtocol.Importer.CopyAndCheck | importer/importer.go:160-224 | passes exactly if the copy ends well and all checks hold |
| ImportProtocol.Importer.Finalize | importer/importer.go:83-127 | a failure is stored as no success and over, a success as such, and the record stays in progress exactly if the update fails; what is returned says so, but for a failure whose update fails |
| ImportProtocol.Importer.ImportFeedVersion | importer/importer.go:46-127 | a run of the protocol; an import that creates no record changes nothing and is an error unless a record blocks it; one that does leaves its rows and a record of its success or failure, in progress exactly if the last update fails, and returns success exactly if all went well |
| ImportProtocol.Importer.UnimportFeedVersion | importer/unimporter.go:33-68 | the rows of the listed tables, the record and the activation go, and all other rows stay as often as they were; if any statement fails nothing changes |
| ImportProtocol.EveryRunKeepsInv | importer/importer.go:46-127 | in every run of imports, failures, crashes and unimports at any point, visible data passed copy and checks, and a record an import works on is its own |
| ImportProtocol.RecordGoneIff | importer/unimporter.go:33-68 | the record of an import at work is gone exactly if an unimport was committed during that import |
| ImportProtocol.RowsMatchIff | importer/unimporter.go:33-68 | at every moment the rows are those of the record, none without one, exactly if no import writes a row after an unimport committed during it and no unimport leaves rows in a table it is not told of |
| ImportProtocol.ActiveVisibleIff | importer/importer.go:118-125 | at every moment only visible data is active, exactly if no import activates after an unimport committed during it |
| ImportProtocol.WritesUnderOwnRecordIff | importer/importer.go:63-81 | rows grow only by one row of the import at work, and its record is there, in progress, exactly if no unimport was committed during the import |
| ImportProtocol.ReturnedIsPersistedIff | importer/importer.go:87-116 | what is returned of an import with a record is what is stored, exactly if no unimport was committed during it and it is not a failed one whose last update fails |
| ImportProtocol.FailedUpdateIsNotStored | importer/importer.go:88-95 | a failed import that returns it is over, with a record that says it is in progress |
| ImportProtocol.ReturnedSuccessIsPersistedIff | importer/importer.go:99-126 | a returned success has passed, and is stored exactly if no unimport was committed during the import; without stale writes or rows left behind all rows are its own |
| ImportProtocol.ActivationFollowsSuccessIff | importer/importer.go:118-125 | only an import that has passed activates, and finds its success stored exactly if no unimport was committed during it |
| ImportProtocol.RecordBlocksImports | importer/importer.go:67-72 | a record of a success, failure or crash stops all imports from changing anything until an unimport |
| ImportProtocol.VisibleDataIsFrozen | importer/importer.go:67-72 | visible data stays as it is until an unimport, whatever runs |
| ImportProtocol.AnImportCanSucceed | importer/importer.go:51-127 | a run that imports and activates |
| ImportProtocol.StaleRowsBecomeVisible | importer/unimporter.go:33-68 | an unimport during an import lets the next one show its rows |
| ImportProtocol.UnlistedTableStays | importer/unimporter.go:33-54 | an unimport leaves the rows of a table that its caller does not list |
| ImportProtocol.ActiveWithoutData | importer/importer.go:118-125 | an unimport before the activation leaves an active feed version without data, and success is returned |
| Polyline.RoundIsNearest | tlxy/polyline.go:62-68 | a nearest integer, half away from zero, odd |
| Polyline.DecodeEncodedPair | tlxy/polyline.go:29-36 | two integers decode wherever their code stands, and the position after it |
| Polyline.EncodePolyline | tlxy/polyline.go:45-60 | the code of the differences of the rounded points |
| Polyline.DecodePolyline | tlxy/polyline.go:23-43 | the line the bytes stand for, as far as they decode, and whether all do |
| Polyline.DecodeOfEncode | tlxy/polyline.go:23-68 | decoding a code gives as many points, each its own rounding, off by at most half a unit however long the line |
| Polyline.EncodeOfDecodeOfEncode | tlxy/polyline.go:23-68 | re-encoding gives the same bytes |
| Polyline.EncodeOfDecodeIff | tlxy/polyline.go:23-60 | any bytes that decode are re-encoded to themselves exactly if no number in them is padded |
| Polyline.PaddedIsShortened | tlxy/polyline.go:23-60 | three bytes that decode and are re-encoded to other bytes |
| Polyline.CodeOfExample | tlxy/polyline_test.go:39-57 | the code of the first three points of the known line of the tests |
| ClosestPoint.SegmentResult | tlxy/cut.go:7-44 | an answer exactly if the segment has a length or an end is within epsilon: a point of the segment, nearest with its own distance, or that end with distance 0 |
| ClosestPoint.SnappedIsNearestIff | tlxy/cut.go:24-30 | a snapped end is nearest exactly if the point lies beyond it |
| ClosestPoint.StartIsTaken | tlxy/cut.go:24-30 | a point of a segment that is taken for its start, which is not nearest |
| ClosestPoint.LineClosestPoint | tlxy/cut.go:66-93 | on any line, the first segment of least distance among those with an answer, its point, and the position of that point along the line |
| ClosestPoint.LineResult | tlxy/cut.go:46-93 | the point lies on its segment, and no point of the line is closer unless it is itself within epsilon, segments of length 0 included |
| ClosestPoint.PositionGivesPoint | tlxy/cut.go:66-93 | if the distance grows evenly along each segment, the position is within its segment and the line, and cutting there gives the point back |
| ClosestPoint.SegPosPlaces | tlxy/cut.go:195-203 | the point divides its segment as the distance does, and is not a number exactly if both ends are at the distance |
| ClosestPoint.CutBetweenPositions | tlxy/cut.go:178-193 | for any distances, a cut exactly if two segments span the distances in order: the first two that do, its ends at those distances |
| ClosestPoint.CutExistsIff | tlxy/cut.go:145-176 | for distances in order, exactly if both are on the line |
| ClosestPoint.CutHasPointsIff | tlxy/cut.go:195-203 | an end is not a number exactly if the line begins with a segment of length 0 and the cut with its distance |
| ClosestPoint.CutWithoutStart | tlxy/cut.go:178-203 | a line that begins with one point twice, and its cut without a first point |
| ClosestPoint.CutKeepsBetween | tlxy/cut.go:145-176 | the cut keeps every vertex strictly between the distances and none outside |
| Geohash.CellsCoveringBbox | tlxy/geohash.go:22-71 | nil exactly on bad input or above the bound, else exactly the cells that meet the box, and never more than the cap |
| Geohash.SpanBound | tlxy/geohash.go:45-51 | the source's bound on the cells of one axis, which exceeds them by no more than two |
| Geohash.GridOfPrecision | tlxy/geohash.go:128-138 | the grid has as many cells as there are geohashes of the length, and as many columns as rows, or twice as many for an odd length |
| Geohash.CoversEveryPoint | tlxy/geohash.go:22-24 | every point of the box lies in a cell that meets it |
| Geohash.CellsInGridIff | tlxy/geohash.go:52-64 | the cells are all in the grid exactly if the box stays below 90 and 180 |
| Geohash.PoleLeavesGrid | tlxy/geohash.go:52-64 | a box, for any precision, one of whose cells is beyond the grid |
| StopTimeSequence.ValidateStopTimes | rules/stop_time_sequence.go:31-96 | the errors of each comparison with what is remembered, in order |
| StopTimeSequence.ReportedIff | rules/stop_time_sequence.go:57-93 | of each stop exactly those errors are reported that the stops before it show: a repeated sequence, an arrival before the last time left, a departure before the arrival, a distance below the last one |
| StopTimeSequence.PassesIff | rules/stop_time_sequence.go:31-96 | a trip passes exactly if it has two stops, the last is reached, no sequence is repeated by the next, scheduled stops keep to the times left before them, and all distances are in order |
| StopTimeSequence.SequencesIncreaseIff | rules/stop_time_sequence.go:59-64 | the sequences of a sorted trip that passes increase strictly, unless a missing one stands beside a 0 |
| StopTimeSequence.MissingSequencePasses | rules/stop_time_sequence.go:59-64 | a trip that passes with two equal sequences |
| StopTimeSequence.DistancesInOrder | rules/stop_time_sequence.go:86-92 | all valid distances of a trip that passes are in order, over any gaps |
| StopTimeSequence.TimesInOrderIff | rules/stop_time_sequence.go:66-84 | for every trip that passes, no scheduled stop arrives before any earlier recorded time, exactly if no departure without an arrival is before the remembered time with the next arrival before it too |
| StopTimeSequence.TimesInOrderWithArrivals | rules/stop_time_sequence.go:66-84 | in particular if every later scheduled stop with a departure has an arrival |
| StopTimeSequence.LoneDepartureSetsTimeBack | rules/stop_time_sequence.go:77-82 | a trip that passes with times out of order |

## Left out

- CopyRun.Copier.ProcessTripBatch: missing shapes are not generated and stop_times not interpolated, because they need a wall clock and a geometry cache that is not part of this model.
- CopyRun.Copier.Copy: extensions read but do not write the EntityMap, filters keep an entity's file and id, and the copying of extra files is left out.
- Deduplication.TimesGivenIff: filters keep the stop_times that a trip carries and no expand filter touches trips, as no extension of the repository does; `TimesAreGiven` holds whatever they do. Trips with stop_times have ids and stop_times of their own, as both joins give them.
- CopyMap.ReferenceResolvesIff: without NormalizeServiceIDs a reference to a service that calendar.txt lacks may resolve though nothing was written, so of those only the one direction is stated.
- JoinedTrips.GenericTripsAreApart: each group is of one trip_id, as readers group.
- CopyWitness.UnlistedServiceDangles: a calendar date has one reference, to its service.
- TripPatterns.PatternTrip: journey keys are tuples, so two journeys share a key only if all hashed fields agree; the source hashes them as text without escapes.
- FetchProtocol.EveryRunIsSafe: a crash between the commit and the return is not modelled, nor the deletion of versions and files, nor a fetch that joins a transaction already open.
- FetchProtocol.Server.StaticProcess: it begins with a feed that could be read; a feed that cannot ends before the first look-up, and copying a nested feed counts as part of its validation.
- ImportProtocol.EveryRunKeepsInv: one importer at a time works on a feed version, and an update that fails has not been stored.
- ImportProtocol.Importer.UnimportFeedVersion: it runs in a transaction, as its callers see to, and the commit is part of its last statement.
- ServiceObject.Service.HasAtLeastOneDay: civil dates are day numbers, so date arithmetic and time zones are left out.
- ServiceObject.Service.Simplify: the counters of added and removed days, which nothing reads, are left out.
- ClosestPoint.LineClosestPoint: float rounding and the haversine formula are left out, and a result that is not a number is no result.
- ClosestPoint.PositionGivesPoint: the distance grows evenly along each segment, which the haversine formula does only nearly.
- ClosestPoint.CutBetweenPositions: there are no more distances than points, which the source demands by indexing both.
- Geohash.CellsCoveringBbox: cells are rows and columns, so their spelling and sorting are left out, and with them what the encoder makes of a coordinate on the upper edges.
- Polyline.DecodePolyline: integers are unbounded, so the overflow errors of the integer decoder are left out.
- TripStream.TripsWithStopTimes: the reader's channel is its output sequence, and loading a row is abstract.
- The shapes reader (tlcsv/reader.go:540), which follows the same scheme as the join.
- Reading and writing CSV, zip, SQL, HTTP, object stores and protobuf, the command line and the server: plumbing.
- Markers that walk the graph of references (extract/marker.go) and activation inside feed states: code outside the model.
- Field rules of single entities in gtfs/: one-branch facts.
