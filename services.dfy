// The booking engine: catalogue reads, the availability and conflict checks,
// pricing, and create_booking, which appends to the process-wide ledger of
// bookings. The ledger is the one piece of state; it is a class whose
// `bookings` field is the list the engine appends to.

module Services {
  import opened Collections
  import opened Strings
  import opened Clock
  import opened Schemas
  import opened Data

  // ---------------------------------------------------------------- catalogue reads

  /** The modules whose concept is `conceptId`, in catalogue order. */
  function ConceptModules(catalog: Catalog, conceptId: string): (ms: seq<LearningModule>)
    ensures forall m :: m in ms <==> m in catalog.modules && m.conceptId == conceptId
    ensures forall m :: multiset(ms)[m] == if m.conceptId == conceptId then multiset(catalog.modules)[m] else 0
    ensures IsSubsequence(ms, catalog.modules)
  {
    var belongs := (m: LearningModule) => m.conceptId == conceptId;
    FilterIsSubsequence(catalog.modules, belongs);
    FilterMultiplicity(catalog.modules, belongs);
    Filter(catalog.modules, belongs)
  }

  /** Every concept of the catalogue, in catalogue order, each with the modules of its key. */
  function ListConcepts(catalog: Catalog): (cs: seq<Concept>)
    ensures |cs| == |catalog.concepts|
    ensures WellFormed(catalog) ==> forall i :: 0 <= i < |cs| ==> cs[i].id == catalog.concepts[i].0
    ensures forall i :: 0 <= i < |cs| ==> cs[i].modules == ConceptModules(catalog, catalog.concepts[i].0)
  {
    seq(|catalog.concepts|, i requires 0 <= i < |catalog.concepts| =>
      Concept(catalog.concepts[i].1.id, ConceptModules(catalog, catalog.concepts[i].0)))
  }

  /** The concept stored under `conceptId` with its modules, or None for an unknown id. */
  function GetConcept(catalog: Catalog, conceptId: string): (r: Option<Concept>)
    ensures r.None? <==> conceptId !in Keys(catalog.concepts)
    ensures r.Some? ==> r.value.modules == ConceptModules(catalog, conceptId)
    ensures r.Some? && WellFormed(catalog) ==> r.value.id == conceptId
  {
    match Lookup(catalog.concepts, conceptId)
    case None => None
    case Some(info) => Some(Concept(info.id, ConceptModules(catalog, conceptId)))
  }

  /** The single-concept read and the full listing agree, concept by concept. */
  lemma {:induction false} GetConceptAgreesWithList(catalog: Catalog, conceptId: string)
    requires WellFormed(catalog)
    ensures forall i :: 0 <= i < |ListConcepts(catalog)| ==>
      GetConcept(catalog, ListConcepts(catalog)[i].id) == Some(ListConcepts(catalog)[i])
    ensures GetConcept(catalog, conceptId).Some? ==> GetConcept(catalog, conceptId).value in ListConcepts(catalog)
  {
    var cs := ListConcepts(catalog);
    forall i | 0 <= i < |cs| ensures GetConcept(catalog, cs[i].id) == Some(cs[i]) {
      LookupAt(catalog.concepts, i);
    }
    if GetConcept(catalog, conceptId).Some? {
      var i :| 0 <= i < |catalog.concepts| && catalog.concepts[i].0 == conceptId;
      assert cs[i].id == conceptId;
    }
  }

  /** The expert records of the catalogue, in catalogue order. */
  function ExpertRecords(catalog: Catalog): (es: seq<Expert>)
    ensures |es| == |catalog.experts|
    ensures forall i :: 0 <= i < |es| ==> es[i] == catalog.experts[i].1
  {
    seq(|catalog.experts|, i requires 0 <= i < |catalog.experts| => catalog.experts[i].1)
  }

  /** The expert stored under `expertId`, or None for an unknown id. */
  function FindExpert(catalog: Catalog, expertId: string): (r: Option<Expert>)
    ensures r.None? <==> expertId !in Keys(catalog.experts)
    ensures r.Some? ==> r.value in ExpertRecords(catalog)
    ensures r.Some? && WellFormed(catalog) ==> r.value.id == expertId
  {
    var r := Lookup(catalog.experts, expertId);
    if r.Some? then
      StoredExpertIsRecord(catalog, expertId, r.value);
      r
    else
      r
  }

  /** A value stored in the experts dict is one of the expert records. */
  lemma StoredExpertIsRecord(catalog: Catalog, key: string, e: Expert)
    requires (key, e) in catalog.experts
    ensures e in ExpertRecords(catalog)
  {
    var i :| 0 <= i < |catalog.experts| && catalog.experts[i] == (key, e);
    assert ExpertRecords(catalog)[i] == e;
  }

  /** Some focus area of `e`, lower-cased, equals `key`. */
  predicate TeachesNormalized(e: Expert, key: string) {
    exists area :: area in e.focusAreas && Lower(area) == key
  }

  /** The test list_experts keeps an expert by: some focus area lower-cases to the key. */
  function Teaching(key: string): Expert -> bool {
    (e: Expert) => TeachesNormalized(e, key)
  }

  /**
   * The experts to show for an optional concept filter. A missing or empty
   * filter shows every expert; otherwise the filter is stripped and
   * lower-cased and compared with each lower-cased focus area.
   */
  function ListExperts(catalog: Catalog, conceptId: Option<string>): (es: seq<Expert>)
    ensures conceptId.None? || conceptId.value == [] ==> es == ExpertRecords(catalog)
    ensures conceptId.Some? && conceptId.value != [] ==>
      forall e :: e in es <==> e in ExpertRecords(catalog) && TeachesNormalized(e, Normalize(conceptId.value))
    ensures conceptId.Some? && conceptId.value != [] ==>
      forall e :: multiset(es)[e] ==
        if TeachesNormalized(e, Normalize(conceptId.value)) then multiset(ExpertRecords(catalog))[e] else 0
    ensures IsSubsequence(es, ExpertRecords(catalog))
  {
    var all := ExpertRecords(catalog);
    if conceptId.None? || conceptId.value == [] then
      SubsequenceOfItself(all);
      all
    else
      var key := Normalize(conceptId.value);
      FilterIsSubsequence(all, Teaching(key));
      FilterMultiplicity(all, Teaching(key));
      Filter(all, Teaching(key))
  }

  // ---------------------------------------------------------------- time slots

  /** Half-open intervals [existingStart, existingEnd) and [start, end) overlap. */
  predicate SlotOverlaps(existingStart: Timestamp, existingEnd: Timestamp, start: Timestamp, end: Timestamp) {
    existingStart < end && start < existingEnd
  }

  /** Minute t lies in the half-open interval [start, end). */
  predicate InSlot(t: Timestamp, start: Timestamp, end: Timestamp) {
    start <= t < end
  }

  /** Two non-empty slots overlap exactly when some minute lies in both. */
  lemma OverlapMeansSharedMinute(existingStart: Timestamp, existingEnd: Timestamp, start: Timestamp, end: Timestamp)
    requires existingStart < existingEnd && start < end
    ensures SlotOverlaps(existingStart, existingEnd, start, end) <==>
      exists t :: InSlot(t, existingStart, existingEnd) && InSlot(t, start, end)
  {
    if SlotOverlaps(existingStart, existingEnd, start, end) {
      var t := if existingStart < start then start else existingStart;
      assert InSlot(t, existingStart, existingEnd) && InSlot(t, start, end);
    }
  }

  /** The overlap test does not depend on which slot is the existing one. */
  lemma SlotOverlapsSymmetric(aStart: Timestamp, aEnd: Timestamp, bStart: Timestamp, bEnd: Timestamp)
    ensures SlotOverlaps(aStart, aEnd, bStart, bEnd) == SlotOverlaps(bStart, bEnd, aStart, aEnd)
  {
  }

  /** Slots that only touch, one ending where the next begins, do not overlap. */
  lemma TouchingSlotsDoNotOverlap(a: Timestamp, b: Timestamp, c: Timestamp)
    ensures !SlotOverlaps(a, b, b, c)
  {
  }

  // ---------------------------------------------------------------- availability

  /**
   * Window `w` admits the slot: its normalised weekday is the weekday of
   * `start`, it has both bounds, it starts no later than the time of day of
   * `start`, and the time of day of `end` is no later than its end. Only times
   * of day are compared, so a slot may run past midnight.
   */
  predicate WindowAdmits(w: ExpertAvailability, start: Timestamp, end: Timestamp) {
    && Normalize(w.weekday) == WeekdayName(start)
    && w.start.Some? && w.end.Some?
    && w.start.value <= TimeOfDay(start)
    && TimeOfDay(end) <= w.end.value
  }

  /** Some window of `windows` admits the slot. */
  predicate WithinAvailability(windows: seq<ExpertAvailability>, start: Timestamp, end: Timestamp) {
    exists i :: 0 <= i < |windows| && WindowAdmits(windows[i], start, end)
  }

  /** Scans the expert's windows in order and answers at the first that admits the slot. */
  method IsWithinAvailability(expert: Expert, start: Timestamp, end: Timestamp) returns (available: bool)
    ensures available == WithinAvailability(expert.availability, start, end)
  {
    var weekdayName := WeekdayName(start);
    var windows := expert.availability;
    for i := 0 to |windows|
      invariant !WithinAvailability(windows[..i], start, end)
    {
      var window := windows[i];
      assert windows[..i + 1] == windows[..i] + [window];
      var windowWeekday := Normalize(window.weekday);
      if windowWeekday != weekdayName {
        NotWithinExtended(windows[..i], window, start, end);
        continue;
      }
      if window.start.None? || window.end.None? {
        NotWithinExtended(windows[..i], window, start, end);
        continue;
      }
      if window.start.value <= TimeOfDay(start) && TimeOfDay(end) <= window.end.value {
        assert WindowAdmits(windows[i], start, end);
        return true;
      }
      NotWithinExtended(windows[..i], window, start, end);
    }
    assert windows[..|windows|] == windows;
    return false;
  }

  /** No window of `windows + [w]` admits the slot when none of `windows` does and `w` does not. */
  lemma NotWithinExtended(windows: seq<ExpertAvailability>, w: ExpertAvailability, start: Timestamp, end: Timestamp)
    requires !WithinAvailability(windows, start, end) && !WindowAdmits(w, start, end)
    ensures !WithinAvailability(windows + [w], start, end)
  {
    var extended := windows + [w];
    forall i | 0 <= i < |extended| ensures !WindowAdmits(extended[i], start, end) {
      if i < |windows| {
        assert extended[i] == windows[i];
      }
    }
  }

  /** An expert with no windows (the default) can never be booked. */
  lemma NoWindowsNoBooking(start: Timestamp, end: Timestamp)
    ensures !WithinAvailability([], start, end)
  {
  }

  /**
   * When the slot starts and ends on the same day, every minute of it lies on
   * the window's weekday and inside the window's hours.
   */
  lemma {:induction false} AdmittedSameDaySlotInsideWindow(w: ExpertAvailability, start: Timestamp, end: Timestamp, t: Timestamp)
    requires WindowAdmits(w, start, end)
    requires Day(start) == Day(end)
    requires InSlot(t, start, end)
    ensures WeekdayName(t) == Normalize(w.weekday)
    ensures w.start.value <= TimeOfDay(t) < w.end.value
  {
    var d := Day(start);
    DaySplit(start);
    DaySplit(end);
    SplitTimestamp(d, t - d * MinutesPerDay);
  }

  // ---------------------------------------------------------------- ledger entries and conflicts

  /** One entry of the booking ledger. */
  datatype Booking = Booking(
    bookingId: nat,
    expertId: string,
    conceptId: string,
    start: Timestamp,
    end: Timestamp,
    groupSize: int,
    price: real)

  /** Some ledger entry of `expertId` overlaps [start, end). */
  predicate Conflicts(bookings: seq<Booking>, expertId: string, start: Timestamp, end: Timestamp) {
    exists i :: 0 <= i < |bookings| && bookings[i].expertId == expertId
      && SlotOverlaps(bookings[i].start, bookings[i].end, start, end)
  }

  /** An entry for another expert never causes a conflict. */
  lemma {:induction false} OtherExpertsNeverConflict(bookings: seq<Booking>, b: Booking, expertId: string, start: Timestamp, end: Timestamp)
    requires b.expertId != expertId
    ensures Conflicts(bookings + [b], expertId, start, end) == Conflicts(bookings, expertId, start, end)
  {
    var all := bookings + [b];
    if Conflicts(all, expertId, start, end) {
      var i :| 0 <= i < |all| && all[i].expertId == expertId && SlotOverlaps(all[i].start, all[i].end, start, end);
      assert i < |bookings| && all[i] == bookings[i];
    }
    if Conflicts(bookings, expertId, start, end) {
      var i :| 0 <= i < |bookings| && bookings[i].expertId == expertId
        && SlotOverlaps(bookings[i].start, bookings[i].end, start, end);
      assert all[i] == bookings[i];
    }
  }

  // ---------------------------------------------------------------- pricing

  /**
   * `round(x, 2)` on the exact value: the nearest whole number of cents, a
   * tie going to the even number of cents.
   */
  function RoundCents(x: real): (r: real)
    ensures (r * 100.0).Floor as real == r * 100.0
    ensures x - 0.005 <= r <= x + 0.005
    ensures (x * 100.0 - (x * 100.0).Floor as real == 0.5) ==> (r * 100.0).Floor % 2 == 0
  {
    var scaled := x * 100.0;
    var k := scaled.Floor;
    var fraction := scaled - k as real;
    var cents := if fraction > 0.5 || (fraction == 0.5 && k % 2 == 1) then k + 1 else k;
    var r := cents as real / 100.0;
    assert r * 100.0 == cents as real;
    assert (r * 100.0).Floor == cents;
    r
  }

  /** Rounding to cents never reverses an order. */
  lemma RoundCentsMonotone(x: real, y: real)
    requires x <= y
    ensures RoundCents(x) <= RoundCents(y)
  {
    var kx, ky := (x * 100.0).Floor, (y * 100.0).Floor;
    assert kx <= ky;
  }

  /** A whole number of cents is already rounded. */
  lemma RoundCentsExact(cents: int)
    ensures RoundCents(cents as real / 100.0) == cents as real / 100.0
  {
    assert (cents as real / 100.0) * 100.0 == cents as real;
  }

  /**
   * The exact amount of a session before rounding: the hourly rate times the
   * hours booked, multiplied by the expert's group discount when more than
   * one attends.
   */
  function ExactPrice(expert: Expert, durationMinutes: int, groupSize: int): real {
    var hours := durationMinutes as real / 60.0;
    var base := expert.ratePerHour * hours;
    if groupSize > 1 then base * expert.groupDiscount else base
  }

  /** `_calculate_price`: the exact amount rounded to cents, in either branch. */
  function CalculatePrice(expert: Expert, durationMinutes: int, groupSize: int): (price: real)
    ensures ExactPrice(expert, durationMinutes, groupSize) - 0.005 <= price <= ExactPrice(expert, durationMinutes, groupSize) + 0.005
  {
    RoundCents(ExactPrice(expert, durationMinutes, groupSize))
  }

  /** Scaling by a non-negative factor keeps an order. */
  lemma MulMonotone(factor: real, x: real, y: real)
    requires factor >= 0.0 && x <= y
    ensures factor * x <= factor * y && x * factor <= y * factor
  {
  }

  /** With a non-negative rate and discount, a session of non-negative length costs nothing negative. */
  lemma PriceNonNegative(expert: Expert, durationMinutes: int, groupSize: int)
    requires expert.ratePerHour >= 0.0 && expert.groupDiscount >= 0.0
    requires durationMinutes >= 0
    ensures CalculatePrice(expert, durationMinutes, groupSize) >= 0.0
  {
    var base := expert.ratePerHour * (durationMinutes as real / 60.0);
    MulMonotone(expert.ratePerHour, 0.0, durationMinutes as real / 60.0);
    MulMonotone(expert.groupDiscount, 0.0, base);
    assert ExactPrice(expert, durationMinutes, groupSize) >= 0.0;
    RoundCentsExact(0);
    RoundCentsMonotone(0.0, ExactPrice(expert, durationMinutes, groupSize));
  }

  /** A longer session never costs less, for a fixed expert and group size. */
  lemma PriceMonotoneInDuration(expert: Expert, shorter: int, longer: int, groupSize: int)
    requires expert.ratePerHour >= 0.0 && expert.groupDiscount >= 0.0
    requires shorter <= longer
    ensures CalculatePrice(expert, shorter, groupSize) <= CalculatePrice(expert, longer, groupSize)
  {
    var b1 := expert.ratePerHour * (shorter as real / 60.0);
    var b2 := expert.ratePerHour * (longer as real / 60.0);
    MulMonotone(expert.ratePerHour, shorter as real / 60.0, longer as real / 60.0);
    MulMonotone(expert.groupDiscount, b1, b2);
    assert ExactPrice(expert, shorter, groupSize) <= ExactPrice(expert, longer, groupSize);
    RoundCentsMonotone(ExactPrice(expert, shorter, groupSize), ExactPrice(expert, longer, groupSize));
  }

  /** With a discount in [0, 1], a group session never costs more than the same session for one. */
  lemma GroupPriceAtMostSingle(expert: Expert, durationMinutes: int, groupSize: int)
    requires expert.ratePerHour >= 0.0 && DiscountInRange(expert)
    requires durationMinutes >= 0
    ensures CalculatePrice(expert, durationMinutes, groupSize) <= CalculatePrice(expert, durationMinutes, 1)
  {
    var base := expert.ratePerHour * (durationMinutes as real / 60.0);
    MulMonotone(expert.ratePerHour, 0.0, durationMinutes as real / 60.0);
    MulMonotone(base, expert.groupDiscount, 1.0);
    assert ExactPrice(expert, durationMinutes, groupSize) <= ExactPrice(expert, durationMinutes, 1);
    RoundCentsMonotone(ExactPrice(expert, durationMinutes, groupSize), ExactPrice(expert, durationMinutes, 1));
  }

  // ---------------------------------------------------------------- create_booking

  /** `group_size or 1`: None and 0 become 1, every other value, negatives included, is kept. */
  function GroupSizeOrOne(groupSize: Option<int>): (n: int)
    ensures n != 0
  {
    if groupSize.None? || groupSize.value == 0 then 1 else groupSize.value
  }

  /** The discount applies to a request exactly when it is a group session. */
  lemma GroupSessionIffDiscounted(request: BookingRequest)
    ensures IsGroupSession(request) <==> GroupSizeOrOne(request.groupSize) > 1
    ensures !IsGroupSession(request) ==> GroupSizeOrOne(request.groupSize) <= 1
  {
  }

  /** The end of the requested slot: its start plus its duration. */
  function EndTime(request: BookingRequest): Timestamp {
    request.startTime + request.durationMinutes
  }

  /**
   * Every check of create_booking passes against `bookings`: the concept is
   * known, the expert is known, the concept is literally one of the expert's
   * focus areas, some window admits the slot, and no entry of that expert
   * overlaps it.
   */
  predicate Accepts(catalog: Catalog, bookings: seq<Booking>, request: BookingRequest) {
    && GetConcept(catalog, request.conceptId).Some?
    && FindExpert(catalog, request.expertId).Some?
    && var expert := FindExpert(catalog, request.expertId).value;
    && request.conceptId in expert.focusAreas
    && WithinAvailability(expert.availability, request.startTime, EndTime(request))
    && !Conflicts(bookings, expert.id, request.startTime, EndTime(request))
  }

  /**
   * Each check of create_booking rejects on its own: an unknown concept, an
   * unknown expert, a concept not literally among the expert's focus areas,
   * no admitting window, or a conflicting entry of that expert.
   */
  lemma RejectionCases(catalog: Catalog, bookings: seq<Booking>, request: BookingRequest)
    ensures GetConcept(catalog, request.conceptId).None? ==> !Accepts(catalog, bookings, request)
    ensures FindExpert(catalog, request.expertId).None? ==> !Accepts(catalog, bookings, request)
    ensures FindExpert(catalog, request.expertId).Some? ==>
      var expert := FindExpert(catalog, request.expertId).value;
      && (request.conceptId !in expert.focusAreas ==> !Accepts(catalog, bookings, request))
      && (!WithinAvailability(expert.availability, request.startTime, EndTime(request)) ==> !Accepts(catalog, bookings, request))
      && (Conflicts(bookings, expert.id, request.startTime, EndTime(request)) ==> !Accepts(catalog, bookings, request))
  {
  }

  /** The ledger entry create_booking records for an accepted request. */
  function NewEntry(catalog: Catalog, request: BookingRequest, bookingId: nat): (b: Booking)
    requires WellFormed(catalog)
    requires GetConcept(catalog, request.conceptId).Some? && FindExpert(catalog, request.expertId).Some?
    ensures b.bookingId == bookingId
    ensures b.expertId == request.expertId && b.conceptId == request.conceptId
    ensures b.start == request.startTime && b.end == b.start + request.durationMinutes
    ensures b.groupSize == GroupSizeOrOne(request.groupSize)
    ensures b.price == CalculatePrice(FindExpert(catalog, request.expertId).value, request.durationMinutes, b.groupSize)
  {
    var expert := FindExpert(catalog, request.expertId).value;
    var concept := GetConcept(catalog, request.conceptId).value;
    var groupSize := GroupSizeOrOne(request.groupSize);
    Booking(bookingId, expert.id, concept.id, request.startTime, EndTime(request), groupSize,
      CalculatePrice(expert, request.durationMinutes, groupSize))
  }

  /** A confirmation reports exactly the entry it was built with. */
  predicate Confirms(c: BookingConfirmation, b: Booking) {
    && c.bookingId == b.bookingId
    && c.expert.id == b.expertId
    && c.concept.id == b.conceptId
    && c.startTime == b.start
    && c.endTime == b.end
    && c.groupSize == b.groupSize
    && c.price == b.price
  }

  /** No two entries of one expert overlap. */
  predicate NoDoubleBooking(bookings: seq<Booking>) {
    forall i, j :: 0 <= i < j < |bookings| && bookings[i].expertId == bookings[j].expertId ==>
      !SlotOverlaps(bookings[i].start, bookings[i].end, bookings[j].start, bookings[j].end)
  }

  /** No booking id is used twice. */
  predicate UniqueIds(bookings: seq<Booking>) {
    forall i, j :: 0 <= i < j < |bookings| ==> bookings[i].bookingId != bookings[j].bookingId
  }

  /** The entry passed the checks it was admitted under: known concept and expert, a focus area, a window. */
  predicate Admitted(catalog: Catalog, b: Booking) {
    && GetConcept(catalog, b.conceptId).Some?
    && FindExpert(catalog, b.expertId).Some?
    && b.conceptId in FindExpert(catalog, b.expertId).value.focusAreas
    && WithinAvailability(FindExpert(catalog, b.expertId).value.availability, b.start, b.end)
  }

  /** What every state of the ledger satisfies. */
  predicate LedgerInvariant(catalog: Catalog, bookings: seq<Booking>) {
    && NoDoubleBooking(bookings)
    && UniqueIds(bookings)
    && forall i :: 0 <= i < |bookings| ==> Admitted(catalog, bookings[i])
  }

  /** Appending an entry that conflicts with no entry of its expert keeps the ledger free of double bookings. */
  lemma {:induction false} AppendKeepsNoDoubleBooking(bookings: seq<Booking>, b: Booking)
    requires NoDoubleBooking(bookings)
    requires !Conflicts(bookings, b.expertId, b.start, b.end)
    ensures NoDoubleBooking(bookings + [b])
  {
    var all := bookings + [b];
    forall i, j | 0 <= i < j < |all| && all[i].expertId == all[j].expertId
      ensures !SlotOverlaps(all[i].start, all[i].end, all[j].start, all[j].end)
    {
      assert all[i] == bookings[i];
      if j < |bookings| {
        assert all[j] == bookings[j];
      }
    }
  }

  /** Appending an entry whose id exceeds every id in the ledger keeps the ids unique. */
  lemma {:induction false} AppendKeepsUniqueIds(bookings: seq<Booking>, b: Booking)
    requires UniqueIds(bookings)
    requires forall i :: 0 <= i < |bookings| ==> bookings[i].bookingId < b.bookingId
    ensures UniqueIds(bookings + [b])
  {
    var all := bookings + [b];
    forall i, j | 0 <= i < j < |all| ensures all[i].bookingId != all[j].bookingId {
      assert all[i] == bookings[i];
      if j < |bookings| {
        assert all[j] == bookings[j];
      }
    }
  }

  /** The entry of an accepted request passed every check it is recorded under. */
  lemma AcceptedEntryAdmitted(catalog: Catalog, bookings: seq<Booking>, request: BookingRequest, bookingId: nat)
    requires WellFormed(catalog)
    requires Accepts(catalog, bookings, request)
    ensures Admitted(catalog, NewEntry(catalog, request, bookingId))
    ensures !Conflicts(bookings, request.expertId, request.startTime, EndTime(request))
  {
  }

  /** The invariant of the ledger object: a well-formed catalogue, the ledger invariant, and every id below the next one. */
  predicate LedgerState(catalog: Catalog, bookings: seq<Booking>, nextSerial: nat) {
    && WellFormed(catalog)
    && LedgerInvariant(catalog, bookings)
    && forall i :: 0 <= i < |bookings| ==> bookings[i].bookingId < nextSerial
  }

  /** Appending the entry of an accepted request under the next id keeps the ledger state, with the counter moved on. */
  lemma {:induction false} AcceptPreservesInvariant(catalog: Catalog, bookings: seq<Booking>, request: BookingRequest, bookingId: nat)
    requires LedgerState(catalog, bookings, bookingId)
    requires Accepts(catalog, bookings, request)
    ensures LedgerState(catalog, bookings + [NewEntry(catalog, request, bookingId)], bookingId + 1)
  {
    var b := NewEntry(catalog, request, bookingId);
    var all := bookings + [b];
    AcceptedEntryAdmitted(catalog, bookings, request, bookingId);
    AppendKeepsNoDoubleBooking(bookings, b);
    AppendKeepsUniqueIds(bookings, b);
    forall i | 0 <= i < |all| ensures Admitted(catalog, all[i]) && all[i].bookingId < bookingId + 1 {
      if i < |bookings| {
        assert all[i] == bookings[i];
      }
    }
  }

  /** The booking ledger: every committed booking, oldest first, and the source of fresh ids. */
  class BookingLedger {
    /** The catalogue the engine reads; it never changes. */
    const catalog: Catalog
    var bookings: seq<Booking>
    /** The next booking id to hand out; it stands for the random identifier the service draws. */
    var nextSerial: nat

    ghost predicate Valid()
      reads this
    {
      LedgerState(catalog, bookings, nextSerial)
    }

    /** The ledger starts empty. */
    constructor (catalog: Catalog)
      requires WellFormed(catalog)
      ensures Valid()
      ensures this.catalog == catalog && bookings == [] && nextSerial == 0
    {
      this.catalog := catalog;
      bookings := [];
      nextSerial := 0;
    }

    /** Empties the ledger between tests; ids already handed out are not reused. */
    method Clear()
      requires WellFormed(catalog)
      modifies this
      ensures Valid()
      ensures bookings == [] && nextSerial == old(nextSerial)
    {
      bookings := [];
    }

    /** Scans the ledger in order and answers at the first entry of `expertId` that overlaps [start, end). */
    method HasConflict(expertId: string, start: Timestamp, end: Timestamp) returns (conflict: bool)
      ensures conflict == Conflicts(bookings, expertId, start, end)
    {
      for i := 0 to |bookings|
        invariant forall j :: 0 <= j < i && bookings[j].expertId == expertId ==>
          !SlotOverlaps(bookings[j].start, bookings[j].end, start, end)
      {
        var booking := bookings[i];
        if booking.expertId != expertId {
          continue;
        }
        if SlotOverlaps(booking.start, booking.end, start, end) {
          return true;
        }
      }
      return false;
    }

    /**
     * Validates the request, stopping at the first failed check, and on
     * success appends one entry and returns its confirmation. A rejection
     * leaves the ledger as it was.
     */
    method CreateBooking(request: BookingRequest) returns (confirmation: Option<BookingConfirmation>)
      requires Valid()
      modifies this
      ensures Valid()
      ensures confirmation.None? <==> !Accepts(catalog, old(bookings), request)
      ensures confirmation.None? ==> bookings == old(bookings) && nextSerial == old(nextSerial)
      ensures confirmation.Some? ==>
        && bookings == old(bookings) + [NewEntry(catalog, request, old(nextSerial))]
        && nextSerial == old(nextSerial) + 1
        && Confirms(confirmation.value, bookings[|bookings| - 1])
        && confirmation.value.expert == FindExpert(catalog, request.expertId).value
        && confirmation.value.concept == GetConcept(catalog, request.conceptId).value
    {
      var concept := GetConcept(catalog, request.conceptId);
      if concept.None? {
        return None;
      }
      var expert := FindExpert(catalog, request.expertId);
      if expert.None? {
        return None;
      }
      if request.conceptId !in expert.value.focusAreas {
        return None;
      }
      var startTime := request.startTime;
      var endTime := startTime + request.durationMinutes;
      assert endTime == EndTime(request);
      var available := IsWithinAvailability(expert.value, startTime, endTime);
      if !available {
        return None;
      }
      var conflict := HasConflict(expert.value.id, startTime, endTime);
      if conflict {
        return None;
      }
      assert Accepts(catalog, bookings, request);
      var bookingId := nextSerial;
      var groupSize := GroupSizeOrOne(request.groupSize);
      var price := CalculatePrice(expert.value, request.durationMinutes, groupSize);
      var entry := Booking(bookingId, expert.value.id, concept.value.id, startTime, endTime, groupSize, price);
      assert entry == NewEntry(catalog, request, bookingId);
      AcceptPreservesInvariant(catalog, bookings, request, bookingId);
      bookings := bookings + [entry];
      nextSerial := nextSerial + 1;
      confirmation := Some(BookingConfirmation(bookingId, expert.value, concept.value, startTime, endTime, groupSize, price));
    }
  }
}
