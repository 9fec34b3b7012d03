# Booking engine of the economics learning prototype, in Dafny

This project models the service layer of an economics learning prototype. The layer has two parts:

- **Catalogue reads.** The engine lists concepts with their learning modules, fetches one concept, and lists experts. The expert list can be filtered by a concept: the filter is stripped and lower-cased, and it is compared with each focus area lower-cased.
- **Session booking.** A request names an expert, a concept, a start time, a duration and an optional group size. It passes through these checks, in order:
  1. the concept is known;
  2. the expert is known;
  3. the concept is literally one of the expert's focus areas;
  4. some weekly availability window admits the slot;
  5. no earlier booking of that expert overlaps it.

  A request that fails a check gets no confirmation and leaves the in-memory ledger of bookings as it was. A request that passes every check is priced, appended to the ledger as one entry, and confirmed.

The modules follow the source files:

- `Collections`: the list-comprehension filter and the ordered dict lookup the code uses.
- `Strings`: `str.strip()` and `str.lower()`.
- `Clock`: naive date-times, written as whole minutes since 0001-01-01T00:00, with time of day, weekday name and calendar dates.
- `Schemas`: the record types.
- `Data`: the seed catalogue.
- `Services`: the engine.
- `Scenarios`: the service's test cases, stated over the seed catalogue and proved.

The process-wide list of bookings is the class `Services.BookingLedger`. Its `bookings` field is the list that `create_booking` appends to. The catalogue the engine reads is a `Catalog` value held by the ledger, and `Data.SEED` is the one the service ships with. The pure reads take it as a parameter.

The invariant the ledger keeps is `Services.LedgerState`:

- no two entries of one expert overlap;
- no booking id is used twice;
- every entry passed the checks it was admitted under;
- every id is below the next one to be handed out.

**Midnight crossing.** Only the times of day of the start and the end are compared with a window (app/services.py:81), so a slot that crosses midnight, or lasts 24 hours or more, can be admitted; the model follows the code. `Scenarios.PastMidnightAccepted` proves that Wednesday 17:00 to Thursday 01:00 is accepted with prof-chan, and `Scenarios.WholeDayAccepted` does the same for a whole-day slot.

**Other behaviour modelled as written:**

- `group_size or 1` maps only None and 0 to 1; a negative group size is kept.
- A non-positive duration is not rejected.
- The focus-area check of `create_booking` is exact, while `list_experts` lower-cases.

## Model

| member | source | states |
|---|---|---|
| Collections.Filter | app/services.py:22-26 | The comprehension keeps exactly the elements that pass the test, and never more than it was given. |
| Collections.FilterMultiplicity | app/services.py:22-26 | The comprehension keeps each passing value as many times as it occurs, and drops every failing value. |
| Collections.FilterIsSubsequence | app/services.py:48-52 | A comprehension with an `if` keeps the survivors in their original order. |
| Collections.FilterAppend | app/services.py:22-26 | Filtering a concatenation is the concatenation of the filtered parts. |
| Collections.FilterKeepsOne | app/services.py:48-52 | When exactly one element passes, the comprehension yields just that element. |
| Collections.Lookup | app/services.py:38 | `dict.get` is None exactly when the key is absent; otherwise the value is stored under that key. |
| Collections.LookupAt | app/services.py:108 | With distinct keys, looking up the i-th key yields the i-th value. |
| Strings.StripLeftSpec | app/services.py:47 | The left strip keeps a suffix, every character it drops is whitespace, and the first one it keeps is not. |
| Strings.StripRightSpec | app/services.py:47 | The right strip keeps a prefix, every character it drops is whitespace, and the last one it keeps is not. |
| Strings.StripIsStripped | app/services.py:47 | `strip()` leaves no whitespace at either end. |
| Strings.StripKeepsStripped | app/schemas.py:130 | A string with no whitespace at either end is unchanged by `strip()`. |
| Strings.StripOnePadding | app/services.py:47 | One space on each side of a stripped string is removed and nothing else is. |
| Strings.Strip | app/services.py:47 | `str.strip()` as the right strip of the left strip; never longer than its input (what it keeps and drops: Strings.StripLeftSpec, Strings.StripRightSpec, Strings.StripIsStripped). |
| Strings.Lower | app/services.py:51 | `lower()` keeps the length and maps each character on its own (A-Z to a-z). |
| Strings.LowerKeepsLowercase | app/services.py:51 | A string with no upper-case letter is its own lower-case form. |
| Strings.Normalize | app/services.py:47 | `value.strip().lower()`; never longer than its input (its normal form: Strings.NormalizeIsStripped, Strings.NormalizeIdempotent). |
| Strings.NormalizeIsStripped | app/schemas.py:129-130 | `strip().lower()` yields a string with no whitespace at either end. |
| Strings.NormalizeKeepsNormalForm | app/schemas.py:129-130 | A stripped string with no upper-case letter is already normalised. |
| Strings.NormalizeIdempotent | app/schemas.py:45-47 | Normalising a normalised weekday changes nothing. |
| Clock.TimeFields | app/data.py:178 | `time(hour, minute)` gives back its hour and minute. |
| Clock.TimeOfDay | app/services.py:81 | `t.time()` is a minute of the day in [0, 1440); Clock.DaySplit ties it back to the timestamp. |
| Clock.DaySplit | app/services.py:81 | A timestamp is its day times 1440 plus its time of day. |
| Clock.SplitTimestamp | app/services.py:81 | A day and a minute of that day give back that day and that time of day. |
| Clock.WeekdayName | app/services.py:61 | `strftime("%A").lower()` is one of the seven lower-case English weekday names. |
| Clock.WeekdayProgression | app/services.py:61 | The next day has the next weekday, and names repeat every seven days. |
| Clock.EpochIsMonday | app/services.py:61 | 0001-01-01, day 0 of the calendar, is a Monday, as in Python. |
| Clock.DateTime | tests/test_services.py:34 | A calendar date-time is a non-negative timestamp with the given time of day, on the day of its date. |
| Schemas.MakeAvailability | app/schemas.py:123-130 | A constructed window stores exactly the stripped, lower-cased form of the given weekday, which is in normal form and no longer than the input, and keeps its bounds. |
| Schemas.MakeAvailabilityIdempotent | app/schemas.py:45-47 | Constructing again from a stored window gives the same window. |
| Schemas.ExpertDefaults | app/schemas.py:140-141 | An expert without a discount has discount 1.0, which is in range, and no windows. |
| Schemas.DefaultRequestIsSingle | app/schemas.py:151-155 | A request without a group size has group size 1 and is not a group session. |
| Schemas.IsGroupSession | app/schemas.py:153-155 | `is_group_session`: a group size is given and exceeds 1 (tied to the discount by Services.GroupSessionIffDiscounted). |
| Data.SeedWellFormed | app/data.py:8-205 | Each concept and expert key is its record's id, and no key appears twice. |
| Data.SeedWindowsWellFormed | app/data.py:177-203 | Every seed window has both bounds, starts before it ends within one day, and names a weekday. |
| Data.SeedExpertsPriced | app/data.py:175-200 | Every seed expert has a positive rate and a discount in [0, 1]. |
| Data.SeedReferencesResolve | app/data.py:56-198 | Every focus area and every module's concept is a concept key. |
| Data.SeedScenarioFacts | app/data.py:174-192 | dr-rivera does not teach supply-demand, prof-chan does, and prof-chan's windows are on Wednesday and Friday only. |
| Services.ConceptModules | app/services.py:21-26 | The modules returned are exactly those of the concept, each as often as in the catalogue, in catalogue order. |
| Services.ListConcepts | app/services.py:29-34 | One concept per catalogue entry, in order, each with its own id and its key's modules. |
| Services.GetConcept | app/services.py:37-41 | None exactly for an unknown id; otherwise the concept of that id with its modules. |
| Services.GetConceptAgreesWithList | app/services.py:29-41 | Fetching any listed concept by its id gives that same concept, and every fetched concept is listed. |
| Services.ExpertRecords | app/services.py:45 | All expert records, in catalogue order. |
| Services.FindExpert | app/services.py:108-111 | None exactly for an unknown id; otherwise one of the expert records, whose id is the key. |
| Services.ListExperts | app/services.py:44-53 | No filter or an empty one gives every expert. Otherwise it gives exactly the experts with a lower-cased focus area equal to the stripped, lower-cased filter, each as often as in the catalogue, in catalogue order. |
| Services.SlotOverlaps | app/services.py:56-57 | `_slot_overlaps`: the existing slot starts before the new one ends and the new one starts before the existing one ends (its meaning: Services.OverlapMeansSharedMinute). |
| Services.OverlapMeansSharedMinute | app/services.py:56-57 | Two non-empty slots overlap if and only if some minute lies in both. |
| Services.SlotOverlapsSymmetric | app/services.py:56-57 | The overlap test gives the same answer with its two slots swapped. |
| Services.TouchingSlotsDoNotOverlap | app/services.py:56-57 | A slot ending where the next begins does not overlap it. |
| Services.WindowAdmits | app/services.py:77-81 | One window admits a slot: its normalised weekday is the start's weekday name, it has both bounds, and it holds the start and end times of day. |
| Services.WithinAvailability | app/services.py:60-83 | Some window of the expert admits the slot; the specification the scan Services.IsWithinAvailability is proved against. |
| Services.IsWithinAvailability | app/services.py:60-83 | The window scan answers true exactly when some window has the start's weekday and both bounds, and contains the start and end times of day. |
| Services.NotWithinExtended | app/services.py:62-83 | A window that does not admit the slot adds no admission to the windows scanned so far. |
| Services.NoWindowsNoBooking | app/schemas.py:141 | An expert with the default empty availability admits no slot. |
| Services.AdmittedSameDaySlotInsideWindow | app/services.py:60-83 | For a slot within one day, every minute of an admitted slot is on the window's weekday and inside its hours. |
| Services.Conflicts | app/services.py:86-92 | Some ledger entry of the same expert overlaps the slot; the specification the scan Services.BookingLedger.HasConflict is proved against. |
| Services.OtherExpertsNeverConflict | app/services.py:86-92 | A ledger entry for another expert never creates or removes a conflict. |
| Services.RoundCents | app/services.py:99-100 | `round(x, 2)` gives a whole number of cents, within half a cent of x, and an even number of cents on a tie. |
| Services.RoundCentsMonotone | app/services.py:99-100 | Rounding to cents keeps the order of two amounts. |
| Services.RoundCentsExact | app/services.py:99-100 | A whole number of cents is its own rounding. |
| Services.ExactPrice | app/services.py:96-98 | Rate times minutes over 60, times the group discount when more than one attends, before rounding. |
| Services.CalculatePrice | app/services.py:95-100 | The price is within half a cent of rate times hours, times the discount for a group of more than one. |
| Services.PriceNonNegative | app/services.py:95-100 | A non-negative rate, discount and duration never give a negative price. |
| Services.PriceMonotoneInDuration | app/services.py:95-100 | A longer session never costs less. |
| Services.GroupPriceAtMostSingle | app/services.py:95-100 | With a discount in [0, 1], a group never pays more than one attendee for the same session. |
| Services.GroupSizeOrOne | app/services.py:126 | The group size recorded is never 0. |
| Services.GroupSessionIffDiscounted | app/schemas.py:153-155 | A request is a group session if and only if its recorded group size exceeds 1, which is when the discount applies. |
| Services.EndTime | app/services.py:116-117 | The end of a requested slot is its start plus its duration in minutes. |
| Services.Accepts | app/services.py:103-123 | The five checks of create_booking in order: known concept, known expert, exact focus area, an admitting window, no conflict; Services.BookingLedger.CreateBooking confirms exactly when it holds. |
| Services.RejectionCases | app/services.py:103-123 | Each of the five checks rejects the request on its own. |
| Services.NewEntry | app/services.py:125-139 | The entry holds the request's expert, concept and start, ends duration minutes later, and holds the recorded group size and the computed price. |
| Services.AcceptedEntryAdmitted | app/services.py:103-123 | The entry of an accepted request passed every check and conflicts with no earlier entry. |
| Services.AppendKeepsNoDoubleBooking | app/services.py:122-139 | Appending an entry that conflicts with no entry of its expert keeps every expert free of overlapping entries. |
| Services.AppendKeepsUniqueIds | app/services.py:125-139 | Appending an entry whose id is above every id in the ledger keeps the ids distinct. |
| Services.LedgerState | app/services.py:18 | What the booking list always satisfies: no double booking per expert, distinct ids, every entry admitted, every id below the next. |
| Services.AcceptPreservesInvariant | app/services.py:122-139 | Appending an accepted request's entry under the next id keeps the ledger invariant and moves the counter on. |
| Services.BookingLedger.constructor | app/services.py:18 | The ledger starts empty and satisfies its invariant. |
| Services.BookingLedger.Clear | tests/test_services.py:9-10 | Clearing empties the ledger, keeps the invariant, and does not reuse ids. |
| Services.BookingLedger.HasConflict | app/services.py:86-92 | The ledger scan answers true exactly when some entry of the expert overlaps the slot. |
| Services.BookingLedger.CreateBooking | app/services.py:103-149 | Rejected exactly when a check fails, leaving the ledger unchanged. Otherwise it appends exactly the new entry, returns a confirmation of that entry with the expert and concept records, and keeps the invariant. |
| Scenarios.ScenarioDays | tests/test_services.py:34 | 2024-05-07 and 2024-05-08 at midnight are days 739012 and 739013. |
| Scenarios.ScenarioMinute | tests/test_services.py:45 | Every minute of those days is on a Tuesday or a Wednesday, at that time of day. |
| Scenarios.FirstConceptHasModules | tests/test_services.py:13-17 | The listing has four concepts; the first is supply-demand, with its two modules in order. |
| Scenarios.SupplyDemandModules | app/data.py:56-103 | supply-demand owns the first two modules and no other. |
| Scenarios.UnknownConceptIsAbsent | tests/test_services.py:20-21 | Fetching the concept "unknown" gives None. |
| Scenarios.PaddedSupplyDemandNormalized | app/services.py:47 | " supply-demand " normalises to "supply-demand". |
| Scenarios.OnlyProfChanTeachesSupplyDemand | app/data.py:174-198 | Of the three experts only prof-chan has supply-demand among the lower-cased focus areas. |
| Scenarios.TeachingSupplyDemand | app/services.py:48-52 | Filtering the three experts by supply-demand keeps prof-chan alone. |
| Scenarios.SeedExpertOrder | app/data.py:169-205 | The expert records come out in catalogue order. |
| Scenarios.FilterBySupplyDemand | tests/test_services.py:24-27 | Any filter that normalises to supply-demand lists prof-chan alone. |
| Scenarios.SupplyDemandExperts | tests/test_services.py:24-27 | Filtering by "supply-demand", with or without surrounding spaces, lists prof-chan alone. |
| Scenarios.MisalignedConceptRejected | tests/test_services.py:30-38 | The dr-rivera supply-demand request is rejected whatever the ledger holds. |
| Scenarios.ProfChanAccepts | app/services.py:103-123 | A prof-chan supply-demand request inside Wednesday 15:00-18:00, clear of the ledger, is accepted. |
| Scenarios.ProfChanEntry | app/services.py:129-139 | The recorded entry of a prof-chan supply-demand request has prof-chan's id, rate and discount. |
| Scenarios.ProfChanRejectsConflict | tests/test_services.py:66-73 | A prof-chan request overlapping a prof-chan entry is rejected. |
| Scenarios.TwoWindows | app/services.py:62-83 | Two windows admit a slot exactly when one of them does. |
| Scenarios.ProfChanAwayOtherDays | app/data.py:189-192 | prof-chan's windows admit nothing except on Wednesday or Friday. |
| Scenarios.ProfChanRejectsOtherDays | tests/test_services.py:76-84 | A prof-chan request on another weekday is rejected whatever the ledger holds. |
| Scenarios.GroupSessionAccepted | tests/test_services.py:41-51 | The group request of three on Wednesday 15:30 is accepted on an empty ledger, with group size 3. |
| Scenarios.GroupSessionPrice | tests/test_services.py:52 | The group hour costs 450.00, under the single rate of 500. |
| Scenarios.OverlappingRequestRejected | tests/test_services.py:56-73 | 15:30-16:30 is accepted on an empty ledger; 16:00-17:00 is then rejected. |
| Scenarios.TuesdayRequestRejected | tests/test_services.py:76-84 | The Tuesday 15:30 request to prof-chan is rejected whatever the ledger holds. |
| Scenarios.EarlySlotAccepted | app/services.py:56-57 | Wednesday 15:00-16:00 with prof-chan is accepted on an empty ledger. |
| Scenarios.NextSlotAccepted | app/services.py:56-57 | Once 15:00-16:00 is booked, 16:00-17:00 is still accepted, because touching slots do not conflict. |
| Scenarios.PastMidnightAccepted | app/services.py:81 | Wednesday 17:00 for eight hours ends on the next day and is accepted. |
| Scenarios.WholeDayAccepted | app/services.py:81 | Wednesday 15:30 for 24 hours is accepted. |
| Scenarios.ConflictDetectedOnLedger | tests/test_services.py:56-73 | On a fresh ledger the first request is confirmed, the overlapping one is refused, and one booking is stored. |
| Scenarios.GroupBookingOnLedger | tests/test_services.py:41-53 | On a fresh ledger the group of three is confirmed at a price below 500, and one booking is stored. |

## Left out

- The HTTP layer (app/api.py) is not part of this model: routing, and the mapping of a missing booking to an HTTP error, are transport.
- Booking ids: `uuid4()` is replaced by a counter of the ledger (`nextSerial`), so ids are naturals that are distinct by the ledger invariant rather than random strings.
- Services.RoundCents: prices are exact reals rounded half-to-even to cents. The binary floating-point error of `rate * minutes / 60` and of `round` is not modelled.
- Concurrency: the code has no locking around the ledger, and the model is sequential.
- The optional pydantic import and the dataclass fallback are merged. So is the `getattr`/dict duck typing of windows (app/services.py:63-75). A window is one record whose bounds are Options, so the "missing bound is skipped" branch is kept. A dict window whose weekday is missing compares "", and one whose weekday is None compares "none". Neither is a weekday name, so both behave like a model window with a non-weekday name.
- In the dataclass branch, `list_experts` passes availability windows through as raw dicts. The model does not distinguish raw from constructed windows; the engine normalises the weekday either way.
- Date-times are whole minutes since 0001-01-01T00:00. Seconds, microseconds and time zones are not modelled. Neither is the `OverflowError` that `start_time + timedelta(...)` (app/services.py:117) raises past year 9999 or before year 1: the model computes the end timestamp anyway (negative before year 1), and `Services.Accepts` may admit such a slot.
- Strings.LowerChar: only ASCII A-Z is lower-cased; Python's full Unicode case mapping is not modelled.
- Text fields (titles, summaries, objectives, resources, names, credentials, client name semantics) carry nothing the engine decides on and are not kept.
- `if not concept_info` / `if not expert_dict` treat an empty record as missing. Every seed record is non-empty, so the model treats only an absent key as missing.
- Services.BookingLedger.Clear: requires the catalogue to be well formed, which the ledger constructor already demands.
- Scenarios.SupplyDemandExperts: a mixed-case filter such as "Supply-Demand" is not stated as a scenario. `Services.ListExperts` covers it for every filter.
- The validating schema's bound of [0, 1] on the group discount is a predicate (`Schemas.DiscountInRange`) that the price lemmas assume. Construction does not enforce it, as in the dataclass branch.
