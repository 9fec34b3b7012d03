// The service's test cases, stated over the seed catalogue and proved, plus
// two requests that show what comparing only times of day lets through.

module Scenarios {
  import opened Collections
  import opened Strings
  import opened Clock
  import opened Schemas
  import opened Data
  import opened Services

  /**
   * Midnight at the start of Tuesday 2024-05-07 and of Wednesday 2024-05-08,
   * as day counts; ScenarioDays ties them to the calendar.
   */
  const Tuesday: Timestamp := 739012 * MinutesPerDay
  const Wednesday: Timestamp := 739013 * MinutesPerDay

  const MisalignedConcept: BookingRequest :=
    BookingRequest("dr-rivera", "supply-demand", Tuesday + Time(13, 30), 60, "Test Learner")

  const GroupSession: BookingRequest :=
    BookingRequest("prof-chan", "supply-demand", Wednesday + Time(15, 30), 60, "Test Learner", Some(3))

  const FirstLearner: BookingRequest :=
    BookingRequest("prof-chan", "supply-demand", Wednesday + Time(15, 30), 60, "Learner One")

  const OverlappingLearner: BookingRequest :=
    BookingRequest("prof-chan", "supply-demand", Wednesday + Time(16, 0), 60, "Learner Two")

  const TuesdayLearner: BookingRequest :=
    BookingRequest("prof-chan", "supply-demand", Tuesday + Time(15, 30), 60, "Learner Late")

  const EarlySlot: BookingRequest :=
    BookingRequest("prof-chan", "supply-demand", Wednesday + Time(15, 0), 60, "Learner Early")

  const NextSlot: BookingRequest :=
    BookingRequest("prof-chan", "supply-demand", Wednesday + Time(16, 0), 60, "Learner Next")

  /** Wednesday 17:00 for eight hours: ends at 01:00 on Thursday. */
  const PastMidnight: BookingRequest :=
    BookingRequest("prof-chan", "supply-demand", Wednesday + Time(17, 0), 8 * 60, "Night Owl")

  /** Wednesday 15:30 for a whole day: ends at 15:30 on Thursday. */
  const WholeDay: BookingRequest :=
    BookingRequest("prof-chan", "supply-demand", Wednesday + Time(15, 30), 24 * 60, "Marathon")

  /** The scenario days are 2024-05-07 and 2024-05-08 at midnight. */
  lemma ScenarioDays()
    ensures DateTime(2024, 5, 7, 0, 0) == Tuesday && DateTime(2024, 5, 8, 0, 0) == Wednesday
  {
    assert DaysBeforeYear(2024) == 738885;
    assert DaysBeforeMonth(2024, 5) == 121;
    var tuesday, wednesday := DateTime(2024, 5, 7, 0, 0), DateTime(2024, 5, 8, 0, 0);
    assert Day(tuesday) == 739012 && TimeOfDay(tuesday) == 0;
    assert Day(wednesday) == 739013 && TimeOfDay(wednesday) == 0;
    DaySplit(tuesday);
    DaySplit(wednesday);
  }

  /** A minute of the scenario days: its weekday name and its time of day. */
  lemma ScenarioMinute(minute: int)
    requires 0 <= minute < MinutesPerDay
    ensures WeekdayName(Tuesday + minute) == "tuesday" && TimeOfDay(Tuesday + minute) == minute
    ensures WeekdayName(Wednesday + minute) == "wednesday" && TimeOfDay(Wednesday + minute) == minute
  {
    SplitTimestamp(739012, minute);
    SplitTimestamp(739013, minute);
  }

  /** The two weekday names prof-chan's windows carry are already in normal form. */
  lemma WednesdayIsNormalized()
    ensures Normalize("wednesday") == "wednesday"
  {
    NormalizeKeepsNormalForm("wednesday");
  }

  /** Friday, the day of prof-chan's other window. */
  lemma FridayIsNormalized()
    ensures Normalize("friday") == "friday"
  {
    NormalizeKeepsNormalForm("friday");
  }

  /** prof-chan is the second entry of the expert table. */
  lemma ProfChanFound()
    ensures FindExpert(SEED, "prof-chan") == Some(ProfChan)
  {
    SeedWellFormed();
    LookupAt(EXPERTS, 1);
  }

  /** dr-rivera is the first entry of the expert table. */
  lemma DrRiveraFound()
    ensures FindExpert(SEED, "dr-rivera") == Some(DrRivera)
  {
    SeedWellFormed();
    LookupAt(EXPERTS, 0);
  }

  /** supply-demand is the first entry of the concept table. */
  lemma SupplyDemandFound()
    ensures GetConcept(SEED, "supply-demand").Some?
  {
    assert CONCEPTS[0].0 == "supply-demand";
  }

  /** The first concept, supply-demand, carries its two modules in catalogue order. */
  lemma FirstConceptHasModules()
    ensures |ListConcepts(SEED)| == 4
    ensures ListConcepts(SEED)[0].id == "supply-demand"
    ensures ListConcepts(SEED)[0].modules == [MODULES[0], MODULES[1]]
  {
    SeedWellFormed();
    SupplyDemandModules();
    assert CONCEPTS[0].0 == "supply-demand";
  }

  /** supply-demand owns the first two modules of the catalogue and no other. */
  lemma SupplyDemandModules()
    ensures ConceptModules(SEED, "supply-demand") == [MODULES[0], MODULES[1]]
  {
    var belongs := (m: LearningModule) => m.conceptId == "supply-demand";
    FilterKeepsFirstTwo(MODULES, belongs);
  }

  /** An unknown concept id has no concept. */
  lemma UnknownConceptIsAbsent()
    ensures GetConcept(SEED, "unknown") == None
  {
  }

  /** The concept key supply-demand is already in normal form. */
  lemma SupplyDemandIsNormalized()
    ensures Normalize("supply-demand") == "supply-demand"
  {
    NormalizeKeepsNormalForm("supply-demand");
  }

  /** Surrounding spaces are stripped off a concept filter. */
  lemma PaddedSupplyDemandNormalized()
    ensures Normalize(" supply-demand ") == "supply-demand"
  {
    var padded := " supply-demand ";
    var inner := "supply-demand";
    assert padded[1..|padded| - 1] == inner;
    assert IsStripped(inner) by { assert inner[0] == 's' && inner[|inner| - 1] == 'd'; }
    StripOnePadding(padded);
    LowerKeepsLowercase(inner);
  }

  /** Of the three experts, only prof-chan teaches supply-demand. */
  lemma OnlyProfChanTeachesSupplyDemand()
    ensures !TeachesNormalized(DrRivera, "supply-demand")
    ensures TeachesNormalized(ProfChan, "supply-demand")
    ensures !TeachesNormalized(DrSaito, "supply-demand")
  {
    assert forall area :: area in DrRivera.focusAreas ==> |Lower(area)| == 15;
    assert forall area :: area in DrSaito.focusAreas ==> |Lower(area)| == 15;
    LowerKeepsLowercase("supply-demand");
    assert ProfChan.focusAreas[0] == "supply-demand";
  }

  /** Keeping the experts who teach supply-demand keeps prof-chan alone. */
  lemma TeachingSupplyDemand()
    ensures Filter([DrRivera, ProfChan, DrSaito], Teaching("supply-demand")) == [ProfChan]
  {
    OnlyProfChanTeachesSupplyDemand();
    var teaches := Teaching("supply-demand");
    assert !teaches(DrRivera) && teaches(ProfChan) && !teaches(DrSaito);
    KeepsMiddle(DrRivera, ProfChan, DrSaito, teaches);
  }

  /** Of three values, a test that holds for the middle one alone keeps the middle one alone. */
  lemma KeepsMiddle<T(!new)>(a: T, b: T, c: T, p: T -> bool)
    requires !p(a) && p(b) && !p(c)
    ensures Filter([a, b, c], p) == [b]
  {
    var all := [a, b, c];
    forall i | 0 <= i < |all| && i != 1 ensures !p(all[i]) {
      assert i == 0 || i == 2;
    }
    FilterKeepsOne(all, p, 1);
  }

  /** The experts in catalogue order. */
  lemma SeedExpertOrder()
    ensures ExpertRecords(SEED) == [DrRivera, ProfChan, DrSaito]
  {
  }

  /** Any filter that normalises to supply-demand shows prof-chan alone. */
  lemma FilterBySupplyDemand(filter: string)
    requires filter != [] && Normalize(filter) == "supply-demand"
    ensures ListExperts(SEED, Some(filter)) == [ProfChan]
  {
    SeedExpertOrder();
    TeachingSupplyDemand();
  }

  /** Filtering experts by supply-demand, with or without surrounding spaces, shows prof-chan alone. */
  lemma SupplyDemandExperts()
    ensures ListExperts(SEED, Some("supply-demand")) == [ProfChan]
    ensures ListExperts(SEED, Some(" supply-demand ")) == [ProfChan]
  {
    SupplyDemandIsNormalized();
    FilterBySupplyDemand("supply-demand");
    PaddedSupplyDemandNormalized();
    FilterBySupplyDemand(" supply-demand ");
  }

  /** dr-rivera does not teach supply-demand, so the request is rejected whatever the ledger holds. */
  lemma MisalignedConceptRejected(bookings: seq<Booking>)
    ensures !Accepts(SEED, bookings, MisalignedConcept)
  {
    DrRiveraFound();
    SeedScenarioFacts();
    RejectionCases(SEED, bookings, MisalignedConcept);
  }

  /** A prof-chan supply-demand request inside the Wednesday 15:00-18:00 window and clear of the ledger is accepted. */
  lemma ProfChanAccepts(bookings: seq<Booking>, request: BookingRequest)
    requires request.expertId == "prof-chan" && request.conceptId == "supply-demand"
    requires WeekdayName(request.startTime) == "wednesday"
    requires Time(15, 0) <= TimeOfDay(request.startTime) && TimeOfDay(EndTime(request)) <= Time(18, 0)
    requires !Conflicts(bookings, "prof-chan", request.startTime, EndTime(request))
    ensures Accepts(SEED, bookings, request)
  {
    ProfChanFound();
    SupplyDemandFound();
    WednesdayIsNormalized();
    assert ProfChan.focusAreas[0] == "supply-demand";
    assert WindowAdmits(ProfChan.availability[0], request.startTime, EndTime(request));
  }

  /** The ledger entry a prof-chan supply-demand request is recorded as. */
  function ProfChanBooking(request: BookingRequest, bookingId: nat): Booking {
    var groupSize := GroupSizeOrOne(request.groupSize);
    Booking(bookingId, "prof-chan", "supply-demand", request.startTime, EndTime(request), groupSize,
      CalculatePrice(ProfChan, request.durationMinutes, groupSize))
  }

  /** Recording a prof-chan supply-demand request stores ProfChanBooking. */
  lemma ProfChanEntry(request: BookingRequest, bookingId: nat)
    requires request.expertId == "prof-chan" && request.conceptId == "supply-demand"
    ensures WellFormed(SEED)
    ensures GetConcept(SEED, request.conceptId).Some? && FindExpert(SEED, request.expertId) == Some(ProfChan)
    ensures NewEntry(SEED, request, bookingId) == ProfChanBooking(request, bookingId)
  {
    SeedWellFormed();
    ProfChanFound();
    SupplyDemandFound();
  }

  /** A request for prof-chan that collides with a ledger entry of the same expert is rejected. */
  lemma ProfChanRejectsConflict(bookings: seq<Booking>, request: BookingRequest)
    requires request.expertId == "prof-chan"
    requires Conflicts(bookings, "prof-chan", request.startTime, EndTime(request))
    ensures !Accepts(SEED, bookings, request)
  {
    ProfChanFound();
  }

  /** Two windows admit a slot exactly when one of them does. */
  lemma TwoWindows(windows: seq<ExpertAvailability>, start: Timestamp, end: Timestamp)
    requires |windows| == 2
    ensures WithinAvailability(windows, start, end) <==> WindowAdmits(windows[0], start, end) || WindowAdmits(windows[1], start, end)
  {
    if WithinAvailability(windows, start, end) {
      var i :| 0 <= i < |windows| && WindowAdmits(windows[i], start, end);
      assert i == 0 || i == 1;
    }
  }

  /** prof-chan's windows admit nothing on a day other than Wednesday or Friday. */
  lemma ProfChanAwayOtherDays(start: Timestamp, end: Timestamp)
    requires WeekdayName(start) != "wednesday" && WeekdayName(start) != "friday"
    ensures !WithinAvailability(ProfChan.availability, start, end)
  {
    WednesdayIsNormalized();
    FridayIsNormalized();
    var windows := ProfChan.availability;
    assert windows[0].weekday == "wednesday" && windows[1].weekday == "friday";
    assert !WindowAdmits(windows[0], start, end);
    assert !WindowAdmits(windows[1], start, end);
    TwoWindows(windows, start, end);
  }

  /** A request for prof-chan on a day other than Wednesday or Friday is rejected. */
  lemma ProfChanRejectsOtherDays(bookings: seq<Booking>, request: BookingRequest)
    requires request.expertId == "prof-chan"
    requires WeekdayName(request.startTime) != "wednesday" && WeekdayName(request.startTime) != "friday"
    ensures !Accepts(SEED, bookings, request)
  {
    ProfChanFound();
    ProfChanAwayOtherDays(request.startTime, EndTime(request));
  }

  /** A group of three with prof-chan on Wednesday 15:30-16:30 is accepted on an empty ledger. */
  lemma GroupSessionAccepted()
    ensures Accepts(SEED, [], GroupSession)
    ensures GroupSizeOrOne(GroupSession.groupSize) == 3
  {
    ScenarioMinute(Time(15, 30));
    ScenarioMinute(Time(16, 30));
    ProfChanAccepts([], GroupSession);
  }

  /** The hour for three costs prof-chan's rate times the 0.9 discount, 450.00, below the single rate. */
  lemma GroupSessionPrice()
    ensures CalculatePrice(ProfChan, GroupSession.durationMinutes, 3) == 450.0 < ProfChan.ratePerHour
  {
    assert ExactPrice(ProfChan, 60, 3) == 450.0;
    RoundCentsExact(45000);
  }

  /** After 15:30-16:30 is booked, 16:00-17:00 with the same expert is rejected as a conflict. */
  lemma OverlappingRequestRejected(bookingId: nat)
    ensures Accepts(SEED, [], FirstLearner)
    ensures !Accepts(SEED, [ProfChanBooking(FirstLearner, bookingId)], OverlappingLearner)
  {
    ScenarioMinute(Time(15, 30));
    ScenarioMinute(Time(16, 30));
    ProfChanAccepts([], FirstLearner);
    var first := ProfChanBooking(FirstLearner, bookingId);
    assert [first][0] == first;
    ProfChanRejectsConflict([first], OverlappingLearner);
  }

  /** prof-chan has no Tuesday window, so a Tuesday request is rejected whatever the ledger holds. */
  lemma TuesdayRequestRejected(bookings: seq<Booking>)
    ensures !Accepts(SEED, bookings, TuesdayLearner)
  {
    ScenarioMinute(Time(15, 30));
    ProfChanRejectsOtherDays(bookings, TuesdayLearner);
  }

  /** Back-to-back slots, 15:00-16:00 then 16:00-17:00: the first is accepted on an empty ledger. */
  lemma EarlySlotAccepted()
    ensures Accepts(SEED, [], EarlySlot)
  {
    ScenarioMinute(Time(15, 0));
    ScenarioMinute(Time(16, 0));
    ProfChanAccepts([], EarlySlot);
  }

  /** ... and the second is accepted beside it: touching is not overlapping. */
  lemma NextSlotAccepted(bookingId: nat)
    ensures Accepts(SEED, [ProfChanBooking(EarlySlot, bookingId)], NextSlot)
  {
    ScenarioMinute(Time(16, 0));
    ScenarioMinute(Time(17, 0));
    var early := ProfChanBooking(EarlySlot, bookingId);
    assert [early][0] == early;
    assert !SlotOverlaps(early.start, early.end, NextSlot.startTime, EndTime(NextSlot));
    assert EndTime(NextSlot) == Wednesday + Time(17, 0);
    ProfChanAccepts([early], NextSlot);
  }

  /**
   * Only the times of day of the start and the end are compared with a
   * window, so a slot from Wednesday 17:00 to Thursday 01:00 is accepted.
   */
  lemma PastMidnightAccepted()
    ensures Day(EndTime(PastMidnight)) == Day(PastMidnight.startTime) + 1
    ensures Accepts(SEED, [], PastMidnight)
  {
    ScenarioMinute(Time(17, 0));
    SplitTimestamp(739013, Time(17, 0));
    SplitTimestamp(739014, 60);
    assert EndTime(PastMidnight) == 739014 * MinutesPerDay + 60;
    ProfChanAccepts([], PastMidnight);
  }

  /** For the same reason a slot lasting a full day, Wednesday 15:30 to Thursday 15:30, is accepted. */
  lemma WholeDayAccepted()
    ensures EndTime(WholeDay) - WholeDay.startTime == MinutesPerDay
    ensures Accepts(SEED, [], WholeDay)
  {
    ScenarioMinute(Time(15, 30));
    SplitTimestamp(739014, Time(15, 30));
    assert EndTime(WholeDay) == 739014 * MinutesPerDay + Time(15, 30);
    ProfChanAccepts([], WholeDay);
  }

  /**
   * The conflict test, run against a fresh ledger: the first request is
   * confirmed, the overlapping one is refused, and one booking is stored.
   */
  method ConflictDetectedOnLedger() returns (first: Option<BookingConfirmation>, second: Option<BookingConfirmation>, stored: nat)
    ensures first.Some? && second.None? && stored == 1
  {
    SeedWellFormed();
    var ledger := new BookingLedger(SEED);
    OverlappingRequestRejected(0);
    ProfChanEntry(FirstLearner, 0);
    first := ledger.CreateBooking(FirstLearner);
    assert first.Some?;
    assert ledger.bookings == [ProfChanBooking(FirstLearner, 0)];
    second := ledger.CreateBooking(OverlappingLearner);
    stored := |ledger.bookings|;
  }

  /**
   * The group booking test, run against a fresh ledger: the group of three is
   * confirmed below the single rate, and one booking is stored.
   */
  method GroupBookingOnLedger() returns (confirmation: Option<BookingConfirmation>, stored: nat)
    ensures confirmation.Some? && confirmation.value.price < 500.0 && stored == 1
  {
    SeedWellFormed();
    var ledger := new BookingLedger(SEED);
    GroupSessionAccepted();
    GroupSessionPrice();
    ProfChanEntry(GroupSession, 0);
    confirmation := ledger.CreateBooking(GroupSession);
    stored := |ledger.bookings|;
  }
}
