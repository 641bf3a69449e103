# What this project proves about the OCPI module

A Dafny model of the parts of the OCPI module where numbers, streams and protocols have to fit
together, with proofs about them. Run `dafny verify dfyconfig.toml` here.

- **Charging periods and CDR totals** (`Numbers`, `MeterReadings`, `ChargingPeriods`,
  `CdrTotals`). Meter readings are merged by timestamp, closed with a start and an end reading
  and turned into charging periods with four-decimal volumes; the CDR computes its totals
  separately. The TIME volumes sum to `total_time` exactly if and only if the readings lie
  within the session on the four-decimal hour grid; otherwise they sum to more. The ENERGY
  volumes of a fully metered session sum to `total_energy` up to 0.0001 kWh, and exactly if and
  only if two rounding residues do not add up to half a unit. The comment at
  00_Base/src/mapper/SessionMapper.ts:739, which says the periods "still add up to the total",
  is right up to that unit: a `meterStart` of 0.00005 kWh and a total of 0.00005 kWh give a
  total of 0.0001 and a period of 0.
- **The session stream** (`IncrementalSessions`, `SessionStream`, `ReceivedSessions`). A PUT
  carries all charging periods, each PATCH the newest one, and the receiver appends it. No
  period but the one that closes the session changes once it has been sent, even when a late
  first energy reading makes the mapper reject `meterStart`; so, if every PATCH arrives, the
  receiver holds the sender's list if and only if every PATCH closes exactly one period. A
  closing update that brings one more reading loses a period for good, and every PATCH sent
  after the closing one without a new reading spoils the list for good, too. An update that
  comes while the PATCH of an earlier one is under way is not sent, and never made up for by
  itself; nor is a PATCH the partner failed. The lists agree after every update if and only if
  each PATCH that arrives added one period and every other update left the list as it was. A
  period that did not arrive is still carried by the next PATCH that closes none; it is lost for
  good once another one is closed. The receiver's row is the fold of the requests that address
  it.
- **The Gireve retry outbox and worker** (`RetryBackoff`, `RetryOutbox`, `RetryWorker`,
  `RetryOrder`, `RetryMethods`, `RetryDue`). Live pushes, the two halves of any number of upserts,
  the steps of a worker run and crashes interleave freely. Some row of a key always holds the path
  and the body queued last, no row of it anything newer, and that row leaves the queue only after
  the partner was given what it holds. A key has only one row if and only if no upsert that found
  nothing writes after the key has got its row. A row keeps the method it was inserted with: the
  partner has been given the push queued last if and only if its method is that one. A DELETE
  queued over a PUT goes out as a PUT and is done with. With no other write to the key between, a
  write lowers the row's attempt count by the number of retries that failed since its find. A row
  may be claimed exactly once its backoff has passed, or its lock is stale. A live push that
  succeeds takes nothing out of the outbox, so an older request may be put over a newer one:
  exactly if an older one is still queued, or claimed and not sent.
- **The credentials handshake** (`Credentials`). Two instances of the service against each
  other, with the receiver calling back in the middle and any remote exchange failing. A
  completed operation always ends in agreement, and a replaced token is never accepted again.
  If the POST or the callback of a registration fails, the side that began it can complete
  nothing any more; the other side can get both out. If only the response is lost, the other
  side can repair by rotating.
- **Broadcasting** (`ClientBroadcast`, `SessionBroadcast`, `CdrBroadcast`). A push returns
  although the partner failed, with one answer less. A session send is skipped while one is
  under way or when nothing has changed since the last push that returned; at most one is under
  way for a key if and only if no broadcast of the key falls between a clear during one of its
  sends and that send's end. A push the partner never answered is remembered like any other, so
  the same body is not sent again. A CDR is stored once for a transaction and partner and always
  POSTed under the id it was first stored with. The broadcaster never POSTs a marked CDR; the
  worker does, exactly if an earlier push of the CDR is still queued in the outbox, since a later
  success takes nothing out of it.
- **Replication loops** (`LocationTables`, `LocationsPull`, `TariffPush`, `LocationNotify`).
  Reconciling a location is exact, idempotent and can be resumed. After a pull the EVSEs and
  connectors of a location are what the last item says that stored it; but a connector that was
  once deleted stays deleted when the partner lists it again, as does a location once marked
  removed. A partial payload that leaves an EVSE out keeps the EVSE and deletes all of its
  connectors. Toggling `disableOCPI` alone is not announced by the trigger, so a listener keeps
  the old setting.

`SortedSets` holds the little about ordered sets that sorting by timestamp needs.

## How the model reads the code

- Kilowatt-hours, hours, prices and factors are exact reals, instants are milliseconds.
  Rounding is `Math.round` as the language defines it: half a unit goes up.
- `NonFinite` stands for a value that is not a number. `None` stands for both `null` and
  `undefined` wherever the code treats the two alike. A `totalKwh` that is not a number has the
  effect of a missing one.
- Database tables are maps from primary key to row. A query with `limit: 1` and no order may
  find any matching row.
- The comparison of measurand, phase and location by which readings are merged tells `null` from
  `undefined`; the model's `None` does not.
- The retry table is not known to have a unique index on its key, and the model assumes none: an
  insert always succeeds. EVSEs are unique by uid and station, connectors by id and EVSE, as the
  constraints their upserts name say (00_Base/src/graphql/queries/evse.queries.ts:12,
  00_Base/src/graphql/queries/connector.queries.ts:12).
- The backoff options are those the configuration schema lets through
  (00_Base/src/config/ocpi.types.ts:221-230): positive intervals, a multiplier of at least one.
- A remote call is a parameter saying how it ends. Generated tokens are drawn from a counter,
  generated row ids are new.
- Where a class and functions stand side by side, the methods do what the code does step by
  step, their contracts tie the new state to the functions, and the lemmas are about those.

## Model

| member | source | states |
|---|---|---|
| Numbers.RoundCharacterised | 00_Base/src/util/Util.ts:39-40 | a grid value is the rounding of exactly the numbers from half a unit below it to less than half a unit above it |
| Numbers.RoundMonotone | 00_Base/src/util/Util.ts:39-40 | rounding keeps order |
| Numbers.RoundOnGrid | 00_Base/src/util/Util.ts:39-40 | rounding leaves four-decimal numbers alone |
| Numbers.RoundDifference | 00_Base/src/util/Util.ts:42-47 | rounding a difference of two rounded numbers changes nothing, the reason why durations add up |
| Numbers.RoundSum | 00_Base/src/util/Util.ts:39-40 | the rounding of a sum is the sum of the roundings exactly when the two residues stay within half a unit |
| MeterReadings.UnitsAgree | 00_Base/src/mapper/SessionMapper.ts:777-794 | kWh, Wh and no unit give the same register three powers of ten apart; in no other unit is a sample an energy |
| MeterReadings.KwhOf | 00_Base/src/mapper/SessionMapper.ts:777-794 | a number of kWh is that number, one of Wh or without a unit a thousandth of it, each step of the multiplier a factor of ten; units in any case of letters |
| MeterReadings.PhasesAddUp | 00_Base/src/mapper/SessionMapper.ts:647-656 | the usable registers of a phase group are added up |
| MeterReadings.EnergyKwhOfPhases | 00_Base/src/mapper/SessionMapper.ts:645-657 | without a usable register for all phases, the sum over L1, L2, L3, and without one of these, over L1-N, L2-N, L3-N |
| MeterReadings.EnergyKwhKnown | 00_Base/src/mapper/SessionMapper.ts:635-657 | exactly which readings carry a register: first unphased register usable, or a usable one in either phase group |
| MeterReadings.RegistersExactly | 00_Base/src/mapper/SessionMapper.ts:635-649 | which samples are looked at: those without a measurand or of the energy register, without a phase for the total, on one of the phases for the sum |
| MeterReadings.EnergyKwhPrefersTotal | 00_Base/src/mapper/SessionMapper.ts:635-646 | the unphased register wins over the phases wherever it stands |
| MeterReadings.MergeMeterValuesByTimestamp | 00_Base/src/mapper/SessionMapper.ts:689-720 | the nested loops compute the merge the lemmas are about |
| MeterReadings.ReadingsTimes | 00_Base/src/mapper/SessionMapper.ts:683-720 | merged timestamps strictly increase and are those of the input, none gained or lost |
| MeterReadings.MergeRepresents | 00_Base/src/mapper/SessionMapper.ts:705-715 | every sample that arrived is in the merge, itself or as an earlier one of its measurand, phase and location |
| MeterReadings.SampleAddedExactly | 00_Base/src/mapper/SessionMapper.ts:705-715 | a sample of a later reading is added exactly if there is none of its measurand, phase and location |
| MeterReadings.ReadingsHoldSamples | 00_Base/src/mapper/SessionMapper.ts:689-720 | the merged readings hold every sample that arrived, itself or one of its measurand, phase and location, at its instant, and nothing that did not arrive at that instant |
| MeterReadings.ReadingsIgnoreRepeats | 00_Base/src/mapper/SessionMapper.ts:683-720 | readings sent again change nothing |
| MeterReadings.ReadingsIgnoreArrivalOrder | 00_Base/src/mapper/SessionMapper.ts:689-720 | unambiguous readings may arrive in any order, any number of times |
| MeterReadings.ArrivalOrderMatters | 00_Base/src/mapper/SessionMapper.ts:692-716 | two readings of one instant merge alike in both orders if and only if one begins with the samples of the other and goes on with new measurands, phases or locations only |
| MeterReadings.ReadingsLater | 00_Base/src/mapper/SessionMapper.ts:717-719 | later meter values only add readings at the end |
| ChargingPeriods.BoundaryEnergy | 00_Base/src/mapper/SessionMapper.ts:663-681 | a boundary reading carries exactly the register it was given |
| ChargingPeriods.GetCdrDimensions | 00_Base/src/mapper/SessionMapper.ts:722-771 | pushing dimensions one by one yields the dimensions the lemmas are about |
| ChargingPeriods.ReportsExactly | 00_Base/src/mapper/SessionMapper.ts:722-771 | exactly what a period reports: the rounded rise since meterStart, the rise of the rounded register, the rounded time, the currents on the neutral and the states of charge |
| ChargingPeriods.StartTrustedExactly | 00_Base/src/mapper/SessionMapper.ts:571-595 | exactly which meterStart is trusted: a number, not negative, at most 0.000001 kWh above the first register there is |
| ChargingPeriods.StartRegisterExactly | 00_Base/src/mapper/SessionMapper.ts:523-532 | a session that starts before its readings has meterStart in its first instant, exactly if that is trusted |
| ChargingPeriods.EndRegisterExactly | 00_Base/src/mapper/SessionMapper.ts:538-556 | one that ends after them has meterStart and the total in its last, exactly if meterStart is trusted and they are at most 0.000001 kWh below the last register; and that register if they are below it |
| ChargingPeriods.AddBoundaryReadings | 00_Base/src/mapper/SessionMapper.ts:523-556 | unshift and push yield the readings with start and end the lemmas are about |
| ChargingPeriods.GetChargingPeriods | 00_Base/src/mapper/SessionMapper.ts:515-563 | the whole method yields the periods the lemmas are about |
| ChargingPeriods.InstantsAscend | 00_Base/src/mapper/SessionMapper.ts:521-556 | the instants between which periods run strictly increase, boundaries included |
| ChargingPeriods.PeriodsAscend | 00_Base/src/mapper/SessionMapper.ts:558-562 | no two periods start together or out of order |
| ChargingPeriods.PeriodsIgnoreRepeats | 00_Base/src/mapper/SessionMapper.ts:515-563 | re-sent readings leave the charging periods unchanged |
| ChargingPeriods.PeriodsIgnoreArrivalOrder | 00_Base/src/mapper/SessionMapper.ts:515-563 | nor do they depend on the order of arrival of unambiguous readings |
| CdrTotals.TimeTelescopes | 00_Base/src/mapper/SessionMapper.ts:796-808 | TIME volumes sum to the difference of the rounded first and last instants |
| CdrTotals.EnergyTelescopes | 00_Base/src/mapper/SessionMapper.ts:737-746 | with a register at every instant, ENERGY volumes sum to the difference of the rounded first and last registers |
| CdrTotals.CdrPeriodsExactly | 00_Base/src/mapper/CdrMapper.ts:146-166 | the CDR has the periods of the session, with their start and tariff, and of each exactly the ENERGY and TIME dimensions |
| CdrTotals.CdrKeepsSums | 00_Base/src/mapper/CdrMapper.ts:146-166 | the filter drops no period of a mapped session and changes no sum of ENERGY or TIME |
| CdrTotals.CdrTotalsExactly | 00_Base/src/mapper/CdrMapper.ts:127-290 | the total energy rounded, none counting as zero; the time from the start, or else the creation, to the end, zero while there is none |
| CdrTotals.TotalTimeIsDuration | 00_Base/src/util/Util.ts:42-47 | total_time is the duration in hours, less than 0.0001 off |
| CdrTotals.ClosedWhenInactive | 00_Base/src/mapper/SessionMapper.ts:614-627 | exactly how many periods a transaction with readings has: its end closes one only if it is inactive and ends after them |
| CdrTotals.TimeConserved | 00_Base/src/mapper/CdrMapper.ts:281-290 | for every finished session the TIME volumes sum to at least total_time, and to exactly that if and only if no reading lies outside the session on the hour grid |
| CdrTotals.EnergyIsRegisterDifference | 00_Base/src/mapper/SessionMapper.ts:538-562 | a session metered from end to end, its meterStart and total within the tolerance of its first and last register: the ENERGY volumes sum to the register at the end minus meterStart, both rounded |
| CdrTotals.EnergyConserved | 00_Base/src/mapper/CdrMapper.ts:127-128 | they differ from total_energy by at most 0.0001, tolerance and adjustment included, and by nothing if and only if the residues stay within half a unit |
| CdrTotals.EnergyExactFromGridStart | 00_Base/src/mapper/CdrMapper.ts:127-128 | with a four-decimal meterStart and no adjustment at the end nothing is lost |
| CdrTotals.EnergyCanBeOneUnitOff | 00_Base/src/mapper/SessionMapper.ts:739-745 | a session whose periods are 0.0001 kWh short of its total |
| CdrTotals.CostIsPriceOfEnergy | 00_Base/src/mapper/BaseTransactionMapper.ts:184-188 | total_cost is the price of the first ENERGY component of the first tariff element times total_energy, in whole cents, the nearest number of them |
| CdrTotals.NothingBilledWithoutPrice | 00_Base/src/mapper/BaseTransactionMapper.ts:179-196 | without an ENERGY component with a price above zero nothing is billed |
| CdrTotals.BillAgreesWithPeriods | 00_Base/src/mapper/CdrMapper.ts:121-128 | total_cost and the price of the energy in the periods differ by at most 0.005 + 0.0001 times the price |
| CdrTotals.VolumesAreNotNegative | 00_Base/src/mapper/SessionMapper.ts:737-770 | with registers that never fall no volume is negative, but the first ENERGY may be -0.0001 |
| CdrTotals.EnergyReported | 00_Base/src/mapper/SessionMapper.ts:729-747 | exactly which periods carry ENERGY and ENERGY_IMPORT |
| CdrTotals.CdrEnergyNeverOverstated | 00_Base/src/mapper/SessionMapper.ts:729-747 | whichever readings carry a register, if registers never fall the ENERGY volumes of the CDR sum to at most the rounded rise from the session's lowest register to its highest, and to at least -0.0001 |
| IncrementalSessions.TrustSettlesWithFirstEnergy | 00_Base/src/mapper/SessionMapper.ts:571-595 | later readings never make a meterStart trusted, and make one rejected only while no reading carries energy |
| IncrementalSessions.PeriodsAreStable | 00_Base/src/mapper/SessionMapper.ts:515-563 | later readings and the end of the session extend the list of periods of an open session and change none of it |
| IncrementalSessions.PeriodsKeepSlots | 00_Base/src/mapper/SessionMapper.ts:529-562 | later readings, and an end that is there, new or moved forward, keep every period but the one that closed the session, and that one's place |
| IncrementalSessions.PeriodsClosed | 00_Base/src/mapper/SessionMapper.ts:529-562 | one period more for each new instant, and one for an end after all of them; the first readings of a session close one less if it did not start before all of them, and without readings there is a period exactly from a start to a later end |
| IncrementalSessions.PatchesRebuildTheList | 00_Base/src/mapper/SessionMapper.ts:208-214 | for every run in order of time, beyond the end of the session too, the receiver's list is the sender's if and only if every PATCH added exactly one period to the list as it was |
| IncrementalSessions.SpoiltForGood | 00_Base/src/mapper/SessionMapper.ts:208-214 | once the lists differ, no later PATCH makes them agree |
| IncrementalSessions.ClosesOneExactly | 00_Base/src/mapper/SessionMapper.ts:529-562 | for every open session, an update adds one period if and only if it closes one by that count: one new instant or an end after all readings, not both, once there is a reading |
| IncrementalSessions.OpenSessionExactly | 00_Base/src/mapper/SessionMapper.ts:208-214 | up to the end of every session the receiver has the sender's list if and only if every update with a period to send closed one |
| IncrementalSessions.OneInstantEachRebuilds | 00_Base/src/mapper/SessionMapper.ts:208-214 | so it is when each PATCH follows one new instant, or the closing end |
| IncrementalSessions.ClosingWithAReadingLosesAPeriod | 00_Base/src/mapper/SessionMapper.ts:208-214 | a closing update with a last reading and an end after it always loses a period, if there was a reading before it or the session started before it |
| IncrementalSessions.UpdateWithoutReadingRepeatsAPeriod | 00_Base/src/mapper/SessionMapper.ts:208-214 | an update of an open session that is sent and adds no reading always repeats one |
| IncrementalSessions.SentAfterClosingSpoils | 03_Modules/Sessions/src/index.ts:122-159 | after the closing one, every PATCH sent without a new reading spoils the list for good, whether it repeats the closing period or rewrites it |
| SessionStream.TransactionInTime | 00_Base/src/mapper/SessionMapper.ts:197-214 | the lists of every transaction, its updates in order of time, ended or not, are streams of the kind the following are about |
| SessionStream.NotSentExactly | 00_Base/src/services/SessionBroadcastDedupeService.ts:45-106 | an update is not sent if and only if the key is marked as in flight, or it has as many periods, the status, last_updated, rounded kwh and end of the last update whose push returned since the transaction was cleared; pushes end, and clears come, at any time between updates |
| SessionStream.MarkedExactly | 00_Base/src/services/SessionBroadcastDedupeService.ts:68-106 | the key is marked as in flight only while a push is under way, and, while the transaction is not cleared, exactly then |
| SessionStream.AgreesThroughoutExactly | 00_Base/src/broadcaster/SessionBroadcaster.ts:175-206 | for every run: the lists agree after each update if and only if every PATCH that arrived had added exactly one period, and every update without one had left the list as it was |
| SessionStream.ArrivedExactly | 00_Base/src/mapper/SessionMapper.ts:208-214 | at any moment of any run in order of time, whatever is skipped, sent or lost: the lists agree if and only if a four-state track, followed update by update, holds the sender's last period |
| SessionStream.LostForGood | 00_Base/src/mapper/SessionMapper.ts:208-214 | a list that is off the track never agrees again |
| SessionStream.PeriodLostWithNext | 00_Base/src/broadcaster/SessionBroadcaster.ts:175-185 | a period whose PATCH did not arrive is lost for good once the next one is closed; until then exactly a PATCH that arrives makes up for it |
| SessionStream.MissedPeriod | 00_Base/src/services/SessionBroadcastDedupeService.ts:54-57 | an update that closes a period and is not sent, as when one is under way, or does not arrive, leaves the receiver one behind |
| SessionStream.FailedPatchLosesPeriod | 00_Base/src/broadcaster/SessionBroadcaster.ts:186-205 | a PATCH the partner failed loses its period for good if nothing a fingerprint shows changes before the next one is closed, whenever its push returns |
| SessionStream.UpdateWithoutPeriod | 00_Base/src/services/SessionBroadcastDedupeService.ts:26-66 | an update that leaves the list as it was spoils the receiver's exactly if its PATCH is sent and arrives, before the end or after |
| SessionStream.RewrittenClosing | 00_Base/src/mapper/SessionMapper.ts:538-556 | an update that rewrites the closing period makes the lists differ whether it is sent or not, and for good if it is |
| ReceivedSessions.SessionStore.GetSession | 00_Base/src/services/SessionsService.ts:116-151 | GET answers with the row of session, partner and roaming partner, mapped back, if there is one |
| ReceivedSessions.RowOf | 00_Base/src/services/SessionsService.ts:123-142 | a request addresses the row of its session id, its tenant partner, and the first roaming partner with its country and party, or none |
| ReceivedSessions.SameRowExactly | 00_Base/src/services/SessionsService.ts:222-233 | two requests address the same row if and only if they agree in all three |
| ReceivedSessions.AcceptedExactly | 00_Base/src/services/SessionsService.ts:196-209 | a PUT is accepted from the tenant partner itself and for any of its roaming partners |
| ReceivedSessions.GetAnswersItsId | 00_Base/src/services/SessionsService.ts:116-151 | after any run from the empty table a GET answers with a session of the id asked for |
| ReceivedSessions.OthersLeaveTheAnswer | 00_Base/src/services/SessionsService.ts:190-341 | requests for other sessions, from other partners or for other roaming partners leave the answer alone |
| ReceivedSessions.GetAnswersPut | 00_Base/src/mapper/ReceivedSessionMapper.ts:12-72 | a GET after the first PUT answers what was put, null for what was left out |
| ReceivedSessions.PuttingBackChangesNothing | 00_Base/src/mapper/ReceivedSessionMapper.ts:51-109 | putting back what a GET answered changes nothing a GET can see |
| ReceivedSessions.SessionStore.UpsertSession | 00_Base/src/services/SessionsService.ts:190-252 | PUT refuses foreign sessions, else inserts the row or sets exactly the supplied fields; no other row changes |
| ReceivedSessions.SessionStore.PatchSession | 00_Base/src/services/SessionsService.ts:257-341 | PATCH of an unknown session is refused; else periods are appended and the other supplied fields set |
| ReceivedSessions.RunIsPerSession | 00_Base/src/services/SessionsService.ts:190-341 | after any run a row depends on the requests that address it and on nothing else |
| ReceivedSessions.IdentityIsFixed | 00_Base/src/mapper/ReceivedSessionMapper.ts:77-109 | id, country and party stay those of the first PUT |
| ReceivedSessions.LastSuppliedWins | 00_Base/src/mapper/ReceivedSessionMapper.ts:77-109 | every other field holds the value supplied last |
| ReceivedSessions.PeriodsAreLastPutAndPatches | 00_Base/src/services/SessionsService.ts:279-293 | the periods are those of the last PUT that carried any, followed by those of each later PATCH in order |
| ReceivedSessions.PatchKeepsPeriods | 00_Base/src/services/SessionsService.ts:279-297 | a PATCH without periods leaves the stored list as it is, null included |
| ReceivedSessions.ReplicaIsExact | 00_Base/src/services/SessionsService.ts:281-293 | end to end, whichever PATCHes are skipped, sent or lost: the receiver stores the sender's full list if and only if the track of SessionStream holds its last period |
| ReceivedSessions.ReplicaIfEachArrives | 00_Base/src/services/SessionsService.ts:281-293 | so when every PATCH arrives, if and only if every one closed exactly one period |
| RetryBackoff.DelayRecursion | 00_Base/src/services/gireveRetryBackoff.ts:39-47 | for a multiplier of at least one the closed form is the recursion "multiply the last delay, then cap" |
| RetryBackoff.DelayGrows | 00_Base/src/services/gireveRetryBackoff.ts:39-47 | delays never shrink as attempts grow, and never exceed the cap |
| RetryBackoff.CapIsReached | 00_Base/src/services/gireveRetryBackoff.ts:39-47 | with a multiplier above one the cap is reached after (max/base - 1)/(m - 1) attempts |
| RetryBackoff.SomeAttemptReachesCap | 00_Base/src/services/gireveRetryBackoff.ts:39-47 | so some attempt reaches it, for every positive base, multiplier above one and cap |
| RetryBackoff.DueExactly | 00_Base/src/services/gireveRetryBackoff.ts:39-58 | a retry is due once base times multiplier to the attempts, or the maximum, in seconds, have passed, to the millisecond |
| RetryOutbox.Outbox.UpsertOnFailure | 00_Base/src/services/GireveBroadcastRetryOutbox.ts:92-185 | puts the key's row, found or new, back to pending with the path and body, keeping its method, and its attempts unless it was sent |
| RetryOutbox.Outbox.ReleaseStaleLocks | 00_Base/src/services/GireveBroadcastRetryOutbox.ts:190-208 | exactly the rows locked before the limit go back to pending, and their number is returned |
| RetryOutbox.Outbox.ClaimDueRetries | 00_Base/src/services/GireveBroadcastRetryOutbox.ts:213-222 | locks distinct due rows up to the limit, all of them if they fit, and returns what they held |
| RetryOutbox.Outbox.MarkSent | 00_Base/src/services/GireveBroadcastRetryOutbox.ts:224-242 | only a row still in processing is marked |
| RetryOutbox.Outbox.Reschedule | 00_Base/src/services/GireveBroadcastRetryOutbox.ts:244-273 | only a row still in processing goes back to pending with its new count and time |
| RetryWorker.InvAlways | 00_Base/src/services/GireveBroadcastRetryOutbox.ts:86-171 | in every interleaving: some row of each key holds the path and body queued last and none anything newer, what a sent row holds was delivered, claimed rows are as claimed or refreshed |
| RetryWorker.OneRowExactly | 00_Base/src/services/GireveBroadcastRetryOutbox.ts:97-152 | for every interleaving: one row a key after every step if and only if no upsert that found nothing writes after its key has got a row |
| RetryWorker.SeparateUpsertsAreSingle | 00_Base/src/services/GireveBroadcastRetryOutbox.ts:97-152 | upserts of a key that do not overlap never insert twice |
| RetryWorker.OverlappingInsertsMakeTwoRows | 00_Base/src/services/GireveBroadcastRetryOutbox.ts:97-152 | two upserts of one key that look before either writes leave two rows |
| RetryWorker.NoLostUpdate | 00_Base/src/services/GireveBroadcastRetryOutbox.ts:154-171 | in every interleaving the path and body queued last for a key are in one of its rows, no row holds anything newer, and that row is marked sent only if what it holds was delivered; it is the key's only row if no key was inserted twice |
| RetryMethods.LastPushIsGivenExactly | 00_Base/src/graphql/queries/gireveBroadcastRetry.queries.ts:73-98 | in every interleaving: once the row with the push queued last is out of the queue, the partner has been given that push if and only if its method is the row's; else its path and body under the row's method |
| RetryMethods.RowKeepsFirstMethod | 00_Base/src/graphql/queries/gireveBroadcastRetry.queries.ts:30-98 | a row's method is that of the push it was inserted for, through any later events |
| RetryMethods.SecondGoesOutAsFirst | 00_Base/src/services/GireveBroadcastRetryWorker.ts:175-249 | for any two pushes of one key that differ in it: the second goes out under the method of the first, is marked sent, and was never given itself |
| RetryWorker.OlderRetryLeavesNewerRequest | 00_Base/src/services/GireveBroadcastRetryOutbox.ts:236-241 | in every interleaving a retry that ends after its row was refreshed leaves the row pending and untouched |
| RetryWorker.CompletedRunResolves | 00_Base/src/services/GireveBroadcastRetryWorker.ts:138-284 | each row of a completed run is sent, or pending with one attempt more and its backoff time, or refreshed |
| RetryWorker.AttemptCountStep | 00_Base/src/services/GireveBroadcastRetryOutbox.ts:155-171 | step by step: a count goes up by one at a failed retry, becomes what an upsert found at its write, and else stays; rows are never deleted or given to another key |
| RetryWorker.WriteForgetsFailedRetries | 00_Base/src/services/GireveBroadcastRetryOutbox.ts:97-171 | over any events without another write to the key: a write to a row not found sent lowers its count by exactly the number of its retries that failed since the find |
| RetryWorker.SeparateWriteForgets | 00_Base/src/services/GireveBroadcastRetryOutbox.ts:97-171 | the same for upserts of a key that do not overlap, with nothing else asked |
| RetryWorker.SecondWriteSetsCount | 00_Base/src/services/GireveBroadcastRetryOutbox.ts:97-171 | and if they overlap: of two writes to a row with none to its key between, the second puts the count from what the first found, plus the retries failed since, to what the second found |
| RetryWorker.UndisturbedUpsertKeepsAttempts | 00_Base/src/services/GireveBroadcastRetryOutbox.ts:86-91 | an upsert whose row did not change since the find keeps the count, or restarts a sent row |
| RetryWorker.StaleUpsertLosesAnAttempt | 00_Base/src/services/GireveBroadcastRetryOutbox.ts:97-171 | a run in which the count of a row that was never sent goes down |
| RetryWorker.RunOnce | 00_Base/src/services/GireveBroadcastRetryWorker.ts:65-96 | releases, claims and settles every claimed row in order; succeeded plus failed is the number claimed |
| RetryWorker.RetryOne | 00_Base/src/services/GireveBroadcastRetryWorker.ts:138-285 | which client gets which method, path and body, whether the CDR's own row is to be marked, and whether the outbox row is marked or rescheduled with one attempt more |
| RetryWorker.AnswerExactly | 00_Base/src/services/GireveBroadcastRetryWorker.ts:138-284 | from what a retry meets: exactly when it is handed to a client, settled, or fails, and when its CDR is marked |
| RetryWorker.RunIsARun | 00_Base/src/services/GireveBroadcastRetryWorker.ts:65-96 | the worker's loop is a run of the transition system, so all of the above holds of it |
| RetryDue.FailedRetryIsDueExactly | 00_Base/src/services/GireveBroadcastRetryWorker.ts:257-283 | whatever happens but a write to the row: a run may claim a row whose retry failed exactly once that time has passed since the retry began |
| RetryDue.QueuedRowIsDueExactly | 00_Base/src/services/GireveBroadcastRetryOutbox.ts:117-171 | and a row just queued exactly once it has passed since the write, for the attempts the row was found with, none if it is new or was sent |
| RetryDue.CrashedRowIsDueExactly | 00_Base/src/services/GireveBroadcastRetryOutbox.ts:190-208 | and a row left in processing exactly once it has been locked for more than the limit in seconds |
| RetryOrder.NewestIsOverwritten | 00_Base/src/trigger/BaseClientApi.ts:400-497 | when the partner has the newest request of a key, a run that brings nothing new for it puts an older one over it if and only if an older one is still queued, or claimed and not sent |
| RetryOrder.QueuedBeforeSuccess | 00_Base/src/trigger/BaseClientApi.ts:400-497 | a run in which the partner has the newest request and an older one is still queued |
| Credentials.Instance.GenerateCredentialsTokenA | 00_Base/src/services/CredentialsService.ts:443-486 | a fresh token A is accepted from then on; an existing profile is refused |
| Credentials.TokenAIsAccepted | 00_Base/src/services/CredentialsService.ts:443-486 | token A is generated exactly if there is no profile; the token handed out is the one accepted, and a second generation is refused and changes nothing |
| Credentials.TokenARegisters | 00_Base/src/services/CredentialsService.ts:178-486 | one side generates token A and the other registers with it: exactly when that completes; then both agree, and token A is accepted by neither side for good |
| Credentials.Instance.PostCredentials | 00_Base/src/services/CredentialsService.ts:82-125 | refuses a registered partner or another version; stores nothing unless the callback was answered |
| Credentials.Instance.PutCredentials | 00_Base/src/services/CredentialsService.ts:127-160 | refuses an unregistered partner; stores nothing unless the callback was answered |
| Credentials.Instance.RegisterCredentialsTokenA | 00_Base/src/services/CredentialsService.ts:178-265 | what the two instances store after a registration, for every way in which it can fail |
| Credentials.Instance.RegenerateCredentialsToken | 00_Base/src/services/CredentialsService.ts:267-344 | the same for a rotation |
| Credentials.RegistrationAgrees | 00_Base/src/services/CredentialsService.ts:178-265 | exactly when a registration succeeds; then each side sends what the other accepts, token A is gone, and the calls were two with token A and one back with the new token; at every later call the callee knows the token |
| Credentials.RotationAgrees | 00_Base/src/services/CredentialsService.ts:267-344 | exactly when a rotation succeeds; then both old tokens are gone, it returns the caller's new token, and the calls were two with the old token and one back with the new one |
| Credentials.RegistrationFails | 00_Base/src/services/CredentialsService.ts:82-264 | how a registration fails, and what it leaves: on its own side token A and a fresh token, exactly if the versions were read; on the other side nothing, unless only the response was lost |
| Credentials.ReceiverAnswers | 00_Base/src/services/CredentialsService.ts:82-160 | what the receiver of a POST or PUT answers, a fresh token or why not, and that its profile then stays as it was |
| Credentials.RotationFails | 00_Base/src/services/CredentialsService.ts:267-344 | the same for a rotation, which fails with one error |
| Credentials.CompletedOperationAgrees | 00_Base/src/services/CredentialsService.ts:82-344 | after any history, an operation that completes leaves both sides in agreement |
| Credentials.RotationAlwaysRepairs | 00_Base/src/services/CredentialsService.ts:267-344 | however operations were interrupted, of two registered sides one can rotate and restores agreement |
| Credentials.InterruptedRotation | 00_Base/src/services/CredentialsService.ts:289-335 | a failed rotation breaks agreement exactly if it got past reading the versions, and never in both directions |
| Credentials.RetiredForGood | 00_Base/src/services/CredentialsService.ts:247-251 | a replaced token, token A in particular, is never accepted again |
| Credentials.HalfRegisteredStays | 00_Base/src/services/CredentialsService.ts:197-244 | in that state nothing the starting side can do, and no rotation, ever completes |
| Credentials.InterruptedRegistration | 00_Base/src/services/CredentialsService.ts:210-264 | for every combination of failures, what an interrupted registration leaves: nothing, the dead end (exactly if the versions were read and the POST or the callback failed), or two sides of which the other can repair |
| Credentials.OtherSideCanRepair | 00_Base/src/services/CredentialsService.ts:178-335 | out of the dead end: the other side tries to register with token B, is refused, and can then rotate |
| ClientBroadcast.BroadcastToClients | 00_Base/src/trigger/BaseClientApi.ts:334-499 | a push raises only if the partners cannot be listed; else it returns the answers of the owner's requests that did not fail, and says whether a failed one was queued |
| ClientBroadcast.OneAnswerAtMost | 00_Base/src/trigger/BaseClientApi.ts:369-425 | one owner, one answer at most, and none beside a failed request |
| ClientBroadcast.OwnerIsAsked | 00_Base/src/trigger/BaseClientApi.ts:369-497 | the owner gets the request exactly if its settings let the module through; its answer is the only one, and a failure is queued exactly if it is Gireve and the outbox works |
| SessionBroadcast.KeyInjective | 00_Base/src/services/SessionBroadcastDedupeService.ts:18-24 | different transaction, partner or method, different key, colons in ids or not |
| SessionBroadcast.ClearedKeys | 00_Base/src/services/SessionBroadcastDedupeService.ts:95-106 | exactly which keys a clear removes, colons in ids or not: those of the transaction, those of ids that continue it with a colon, and those of an id and partner that together read like it |
| SessionBroadcast.ClearRemovesExactlyItsKeys | 00_Base/src/services/SessionBroadcastDedupeService.ts:95-106 | only those of the transaction when ids have no colon |
| SessionBroadcast.DedupeService.ShouldBroadcast | 00_Base/src/services/SessionBroadcastDedupeService.ts:45-66 | no send while one is in flight or when the fingerprint is that of the last push that returned |
| SessionBroadcast.DedupeService.Clear | 00_Base/src/services/SessionBroadcastDedupeService.ts:95-106 | removes the keys with the prefix from both collections and no others |
| SessionBroadcast.DedupeService.BroadcastDeduped | 00_Base/src/broadcaster/SessionBroadcaster.ts:162-206 | pushes if allowed, remembers the fingerprint exactly if the push does not raise, leaves nothing in flight |
| SessionBroadcast.OneSendExactly | 00_Base/src/broadcaster/SessionBroadcaster.ts:175-206 | for every interleaving: at most one send a key after every step if and only if no broadcast of a key falls between a clear during one of its sends and that send's end |
| SessionBroadcast.SendsAreSafe | 00_Base/src/broadcaster/SessionBroadcaster.ts:175-206 | in all those interleavings, besides, two consecutive sends of a key whose pushes returned never share a fingerprint |
| SessionBroadcast.AtMostOneSend | 00_Base/src/services/SessionBroadcastDedupeService.ts:45-74 | at most one send for a transaction, partner and method |
| SessionBroadcast.ClearDuringSendAllowsTwo | 00_Base/src/services/SessionBroadcastDedupeService.ts:95-106 | a clear during a send lets the same body be under way twice |
| SessionBroadcast.ResentExactly | 00_Base/src/broadcaster/SessionBroadcaster.ts:186-205 | the same body is sent again right after a send exactly if the push raised; if it returned, it is remembered whether or not the partner answered |
| SessionBroadcast.FailedPushIsNotResent | 00_Base/src/broadcaster/SessionBroadcaster.ts:186-205 | so a push the partner never answered, a PATCH say, is not sent again until the transaction is cleared or there is something else to say |
| SessionBroadcast.RepeatNeedsAFailureBetween | 00_Base/src/broadcaster/SessionBroadcaster.ts:200-201 | two answered sends share a fingerprint only with an unanswered one of another fingerprint between |
| SessionBroadcast.AnsweredTwice | 00_Base/src/broadcaster/SessionBroadcaster.ts:200-201 | such a run, for any two bodies |
| SessionBroadcast.SamePatchFingerprint | 00_Base/src/services/SessionBroadcastDedupeService.ts:26-43 | exactly which PATCH has the fingerprint of the one before it |
| SessionBroadcast.FingerprintsEqual | 00_Base/src/services/SessionBroadcastDedupeService.ts:26-43 | two bodies have one fingerprint exactly if they agree in status, last_updated, energy to four decimals, end, number of periods and start of the last |
| CdrBroadcast.CdrSender.InsertSentCdr | 00_Base/src/services/CdrsService.ts:268-342 | returns a matching row and changes nothing, or adds the one row |
| CdrBroadcast.CdrSender.BroadcastPostCdr | 00_Base/src/broadcaster/CdrBroadcaster.ts:39-126 | stores, skips a marked row, POSTs under the stored id if there is a request to make, leaves a queued failure in the outbox, marks after a single success |
| CdrBroadcast.CdrSender.RetryCdr | 00_Base/src/services/GireveBroadcastRetryWorker.ts:195-256 | POSTs the queued CDR without looking at its mark; a success marks a row with its id and partner, any answer may settle the entry |
| CdrBroadcast.RunKeeps | 00_Base/src/services/CdrsService.ts:280-341 | after any run of broadcasts and retries at most one row is stored for a transaction and partner, and every POST went out as stored |
| CdrBroadcast.IdIsStable | 00_Base/src/broadcaster/CdrBroadcaster.ts:90-92 | whatever ids the mapper computes, all POSTs for a transaction and partner, the worker's included, carry the stored one |
| CdrBroadcast.MarkFollowsDelivery | 00_Base/src/broadcaster/CdrBroadcaster.ts:107-116 | a row becomes marked exactly by a broadcast with a single success answer, or by a retry that was accepted and found the row; the mark is the time of that |
| CdrBroadcast.QueuedExactly | 00_Base/src/trigger/BaseClientApi.ts:400-497 | a failed push of an unmarked CDR goes into the outbox under the id it is stored with, a retry that settles takes it out, and nothing else does either |
| CdrBroadcast.PostedExactly | 00_Base/src/broadcaster/CdrBroadcaster.ts:79-106 | exactly when a CDR is POSTed, by broadcaster or worker, under which id, and what counts as delivered |
| CdrBroadcast.MarkedIsFinal | 00_Base/src/broadcaster/CdrBroadcaster.ts:84-89 | once marked, the broadcaster never POSTs the CDR again, in any run |
| CdrBroadcast.PostedAgainExactly | 00_Base/src/services/GireveBroadcastRetryWorker.ts:195-256 | any stored CDR is POSTed at some later time, by broadcaster or worker, if and only if it is queued in the outbox, or not marked and of a transaction; a marked one if and only if it is queued |
| CdrBroadcast.MarkedCdrIsRetried | 00_Base/src/trigger/BaseClientApi.ts:400-497 | a first push fails and is queued, a second is delivered and marked, and the worker POSTs the CDR again |
| CdrBroadcast.NothingFollowsDelivery | 00_Base/src/broadcaster/CdrBroadcaster.ts:84-116 | while marks go where they belong, whatever POST of a CDR follows a delivered one is the worker's |
| CdrBroadcast.OtherRowMayBeMarked | 00_Base/src/services/GireveBroadcastRetryWorker.ts:114-128 | a success of the worker may mark another CDR than it POSTed if and only if another one is stored under the same id for the partner |
| CdrBroadcast.SecondBroadcastSends | 00_Base/src/broadcaster/CdrBroadcaster.ts:84-125 | a second broadcast that gets to a request POSTs again exactly if the first was not delivered or its mark failed |
| CdrBroadcast.SameIdSentForAnotherTransaction | 00_Base/src/services/CdrsService.ts:280-300 | a partner with a marked CDR gets another of its id exactly if that one was stored for another transaction or none; the latter insertSentCdr allows, though its caller never asks for it |
| LocationTables.LastDuplicateWins | 00_Base/src/services/LocationsPullService.ts:225-231 | the last EVSE with a uid decides which connectors it has |
| LocationTables.ExaminedExactly | 00_Base/src/services/LocationsPullService.ts:233-240 | which EVSEs are looked at: those of the location with a uid and not flagged as removed |
| LocationsPull.PullService.ReconcileEvses | 00_Base/src/services/LocationsPullService.ts:233-260 | the loops end with every EVSE and connector done, or, if the database raises, each done or as before |
| LocationTables.FullModeIsExact | 00_Base/src/services/LocationsPullService.ts:240-247 | of the EVSEs with a uid and no removed flag, those live after a full reconciliation are exactly the previously live ones in the payload |
| LocationTables.ConnectorsAreExact | 00_Base/src/services/LocationsPullService.ts:248-259 | exactly which connectors remain |
| LocationTables.EvsesLeftAlone | 00_Base/src/services/LocationsPullService.ts:233-247 | a partial reconciliation removes no EVSE; EVSEs removed earlier, elsewhere or without a uid are left alone with their connectors |
| LocationTables.PartialModeStripsUnlistedEvse | 00_Base/src/services/LocationsPullService.ts:248-259 | a partial payload without an EVSE deletes all connectors of the EVSE it keeps |
| LocationTables.SecondRunChangesNothing | 00_Base/src/services/LocationsPullService.ts:240-260 | reconciling again changes nothing, times of deletion included |
| LocationTables.RepeatCompletes | 00_Base/src/services/LocationsPullService.ts:240-260 | repeating a reconciliation that broke off ends as one that went through |
| LocationTables.PulledEvsesAreExact | 00_Base/src/services/LocationsPullService.ts:233-247 | after upsert and reconciliation, in either mode, exactly which EVSEs of a location are live: those listed with a status other than REMOVED, and, after a partial pull, those live before and not listed |
| LocationTables.PulledConnectorsAreExact | 00_Base/src/graphql/queries/connector.queries.ts:7-29 | and exactly which connectors remain: never one that was deleted before |
| LocationTables.ReturningConnectorStaysDeleted | 00_Base/src/graphql/queries/connector.queries.ts:7-29 | a connector that was deleted has no live row though the partner lists it again |
| LocationsPull.PullService.UpsertEvses | 00_Base/src/services/LocationReceiverService.ts:461-468 | every EVSE and connector sent has a row; an EVSE takes on the status sent last, a connector keeps its deletion mark, nothing else changes; or so far as the database let it |
| LocationsPull.PullService.UpsertLocation | 00_Base/src/services/LocationReceiverService.ts:405-437 | finds the row or adds an unmarked one; an update takes no removal mark away |
| LocationsPull.PullService.PullItem | 00_Base/src/services/LocationsPullService.ts:361-410 | stores the location, its EVSEs and connectors unless refused, marks it only in partial mode with all EVSEs removed, and then leaves the EVSEs and connectors of the row looked up again reconciled, or as far as the work got |
| LocationsPull.PullService.PullPages | 00_Base/src/services/LocationsPullService.ts:335-419 | ids of failed upserts count as seen; processed = succeeded + failed + skipped; the EVSEs and connectors of each location are what the last item says that stored it, if that went through |
| LocationsPull.PullService.SyncDeleted | 00_Base/src/services/LocationsPullService.ts:128-160 | every known location not seen is marked or counted as failed, and nothing else changes |
| LocationsPull.PullService.PullPartnerLocations | 00_Base/src/services/LocationsPullService.ts:263-447 | the whole pull: none that appeared is marked, each that did not is marked or counted; a full pull that raises marks nothing; the EVSEs and connectors of each location are what the last item says that stored it, if that went through and it has one row |
| LocationsPull.CountsAddUp | 00_Base/src/services/LocationsPullService.ts:355-411 | every item is counted under exactly one heading |
| LocationsPull.UnmarkedAfterPulls | 00_Base/src/services/LocationsPullService.ts:421-436 | over any sequence of full pulls, which locations are left unmarked |
| LocationsPull.MarkedExactly | 00_Base/src/services/LocationsPullService.ts:70-160 | exactly which rows a full pull marks: those of the partner, or of the one roaming partner it is for, with an id the pages did not list |
| LocationsPull.ReturningLocationStaysMarked | 00_Base/src/services/LocationReceiverService.ts:378-437 | a location once marked stays marked though later pulls list it |
| TariffPush.PushPage | 00_Base/src/services/TariffsService.ts:610-643 | each row of a page is pushed once, in order, and counted by how it ended |
| TariffPush.PushTariffsToPartner | 00_Base/src/services/TariffsService.ts:594-655 | the push ends, having pushed the rows from the offset on once each in order, with counters that add up |
| TariffPush.PageIsNext | 00_Base/src/services/TariffsService.ts:644-645 | a page is what comes next, and short only if nothing follows |
| LocationNotify.Notify | migrations/20260717150000-add-disable-ocpi-to-location-notify.ts:22-51 | the branches of the trigger compute the announcement the lemmas are about |
| LocationNotify.AnnouncedExactly | migrations/20260717150000-add-disable-ocpi-to-location-notify.ts:31-39 | an update is announced exactly if a field changed that is not sent along anyway |
| LocationNotify.AnnouncementHolds | migrations/20260717150000-add-disable-ocpi-to-location-notify.ts:22-51 | an announcement holds the tenant's row, if there is one, and of the location's row all at an insert, at an update what changed and the five fields always sent along |
| LocationNotify.ReplicaFollows | migrations/20260717150000-add-disable-ocpi-to-location-notify.ts:26-48 | a listener that merges all payloads agrees with the row on all other than required fields after every update, and on all fields exactly if the required ones are those last announced |
| LocationNotify.SwitchingOffIsNotAnnounced | migrations/20260717150000-add-disable-ocpi-to-location-notify.ts:37-39 | a change of disableOCPI alone is not announced and the listener keeps the old value |

## Left out

- Floating-point error: all arithmetic is exact; infinite sampled values are not modelled.
- HTTP, GraphQL text, the message queue, delivery of database notifications, logging and caching.
- Texts: the format of dates, ids and of the fingerprint, which is modelled as the tuple of its parts, with the energy rounded to four decimals.
- Session and CDR fields that are copied, constant or looked up in an enum; tokens, roles, endpoints, URLs and the list of versions in the handshake.
- Unregistering and deleting credentials (00_Base/src/services/CredentialsService.ts:162-176 and 418-441): both clear or deactivate the profile.
- The SQL function behind a claim of due retries is not part of this model; a claim may take any due rows up to the limit.
- Overlap: two worker runs at a time; two broadcasts of one CDR, or one and a retry of it, at a time. In the session stream PATCHes that arrive do so once and in order, and start time, meterStart and tariff do not change during a session.
- RetryWorker.RetryOne: says when the CDR's own row is to be marked; which row that is, is in CdrBroadcast.
- RetryOrder.NewestIsOverwritten: requests are ordered by the moment their push succeeded or their upsert wrote.
- SessionBroadcast.DedupeService.BroadcastDeduped: describes a broadcast nothing interferes with; the interleavings are those of the transition system.
- IncrementalSessions.PatchesRebuildTheList: assumes that readings arrive in order of time, and that an end is neither withdrawn nor moved back; a reading that arrives late can change periods already sent. The PUT is of a session that has not ended.
- CdrBroadcast.CdrSender.BroadcastPostCdr: a mapping or an insert that raises leaves everything as it was and is not an event of its own.
- LocationsPull.PullService.PullItem: how far the work gets is an input; the tariffs of a connector are not followed. A location has one charging station, to which its EVSEs belong.
- LocationsPull.PullService.PullPartnerLocations: an item's outcome is an input. The pages are those the partner sends up to the one that names no next page.
- LocationsPull.PullService.ReconcileEvses: the location's row has been found; a location that is not found is left alone.
- TariffPush.PushTariffsToPartner: the table does not change while the push runs, and rows with equal creation times keep their order.
- LocationNotify.Notify: pg_notify itself and its limit on the size of a payload.
- Not modelled: pulls of sessions, tariffs and CDRs, commands, version listing, Pennylane, charging profiles.
