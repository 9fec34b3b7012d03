// The record shapes the booking engine reads and returns. Free-text fields
// (titles, summaries, credentials, objectives, resources, an expert's name)
// carry nothing the engine decides on and are not kept.

module Schemas {
  import opened Collections
  import opened Strings
  import opened Clock

  /** A learning module, identified by its id and owned by the concept `conceptId`. */
  datatype LearningModule = LearningModule(id: string, conceptId: string)

  /** A concept with the modules attached to it, in catalogue order. */
  datatype Concept = Concept(id: string, modules: seq<LearningModule>)

  /**
   * A weekly availability window: a weekday name and a start and end time of
   * day in minutes. A bound is None when the window record lacks it; the
   * engine skips such a window.
   */
  datatype ExpertAvailability = ExpertAvailability(weekday: string, start: Option<int>, end: Option<int>)

  /** A weekday name as constructing an ExpertAvailability stores it: stripped and lower-cased. */
  predicate IsNormalizedWeekday(weekday: string) {
    Normalize(weekday) == weekday
  }

  /** Constructing an ExpertAvailability: the weekday is stored normalised, the times as given. */
  function MakeAvailability(weekday: string, start: int, end: int): (w: ExpertAvailability)
    ensures w.weekday == Normalize(weekday)
    ensures IsNormalizedWeekday(w.weekday)
    ensures IsStripped(w.weekday) && |w.weekday| <= |weekday|
    ensures w.start == Some(start) && w.end == Some(end)
  {
    NormalizeIdempotent(weekday);
    NormalizeIsStripped(weekday);
    ExpertAvailability(Normalize(weekday), Some(start), Some(end))
  }

  /** Constructing again from a stored window changes nothing. */
  lemma {:induction false} MakeAvailabilityIdempotent(weekday: string, start: int, end: int)
    ensures var w := MakeAvailability(weekday, start, end);
            MakeAvailability(w.weekday, start, end) == w
  {
    NormalizeIdempotent(weekday);
  }

  /**
   * A bookable expert. `groupDiscount` multiplies the price of a group
   * session and defaults to 1.0; `availability` defaults to no windows.
   */
  datatype Expert = Expert(
    id: string,
    focusAreas: seq<string>,
    ratePerHour: real,
    groupDiscount: real := 1.0,
    availability: seq<ExpertAvailability> := [])

  /** The range the validating schema enforces on a discount. */
  predicate DiscountInRange(e: Expert) {
    0.0 <= e.groupDiscount <= 1.0
  }

  /** An expert record built without the optional fields takes their defaults, and the default discount is in range. */
  lemma ExpertDefaults(id: string, focusAreas: seq<string>, rate: real)
    ensures Expert(id, focusAreas, rate).groupDiscount == 1.0
    ensures Expert(id, focusAreas, rate).availability == []
    ensures DiscountInRange(Expert(id, focusAreas, rate))
  {
  }

  /** A request for a session; `groupSize` defaults to Some(1) and may be None. */
  datatype BookingRequest = BookingRequest(
    expertId: string,
    conceptId: string,
    startTime: Timestamp,
    durationMinutes: int,
    clientName: string,
    groupSize: Option<int> := Some(1))

  /** `is_group_session`: a group size is given and it exceeds one. */
  predicate IsGroupSession(request: BookingRequest) {
    request.groupSize.Some? && request.groupSize.value > 1
  }

  /** A request built without a group size is a single-attendee request. */
  lemma DefaultRequestIsSingle(expertId: string, conceptId: string, start: Timestamp, minutes: int, client: string)
    ensures BookingRequest(expertId, conceptId, start, minutes, client).groupSize == Some(1)
    ensures !IsGroupSession(BookingRequest(expertId, conceptId, start, minutes, client))
  {
  }

  /** What a successful booking returns: the booking joined with the expert and concept records. */
  datatype BookingConfirmation = BookingConfirmation(
    bookingId: nat,
    expert: Expert,
    concept: Concept,
    startTime: Timestamp,
    endTime: Timestamp,
    groupSize: int,
    price: real)
}
