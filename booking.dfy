/** The booking service: `createBooking` checks the tutor, the date and the
    tutor's other bookings on that date, then inserts a CONFIRMED booking. It
    checks neither the time format nor start < end, and never consults the
    tutor's availability windows. */
module Bookings {
  import opened Common
  import opened TimeOfDay
  import opened Conflict
  import opened Tables

  /** The fields of a booking request; `date` and `today` are calendar day numbers. */
  datatype BookingRequest = BookingRequest(
    tutorId: Id,
    subject: string,
    date: int,
    startTime: string,
    endTime: string,
    duration: int,
    price: real,
    notes: Option<string>,
    meetingLink: Option<string>)

  /** The conflict filter: a booking of the same tutor on the same date, not
      CANCELLED, that blocks the requested [startTime, endTime). */
  predicate BlocksRequest(b: Booking, tutorId: Id, date: int, startTime: string, endTime: string)
    ensures BlocksRequest(b, tutorId, date, startTime, endTime) ==> b.status in {CONFIRMED, COMPLETED}
  {
    && b.tutorId == tutorId && b.date == date && b.status != CANCELLED
    && Blocks(b.startTime, b.endTime, startTime, endTime)
  }

  /** The checks of `createBooking`, in their order. */
  function BookingCheck(profiles: seq<TutorProfile>, bookings: seq<Booking>,
                        req: BookingRequest, today: int): (r: Option<Error>)
    ensures r.Some? ==> r.value in {TutorNotFound, TutorUnavailable, PastDate, SlotTaken}
    ensures r.None? ==> today <= req.date
    ensures r.None? ==> exists k :: 0 <= k < |profiles| && profiles[k].id == req.tutorId && profiles[k].isAvailable
  {
    match ProfileWithId(profiles, req.tutorId)
    case None => Some(TutorNotFound)
    case Some(k) =>
      if !profiles[k].isAvailable then Some(TutorUnavailable)
      else if req.date < today then Some(PastDate)
      else if exists i :: 0 <= i < |bookings| && BlocksRequest(bookings[i], req.tutorId, req.date, req.startTime, req.endTime)
      then Some(SlotTaken)
      else None
  }

  /** `k` is the first profile row with id `id`. */
  predicate FirstWithId(profiles: seq<TutorProfile>, k: int, id: Id) {
    && 0 <= k < |profiles| && profiles[k].id == id
    && forall j :: 0 <= j < k ==> profiles[j].id != id
  }

  /** The tutor checks come first: a missing or unavailable tutor is reported
      whatever the date and the other bookings. */
  lemma TutorChecksFirst(profiles: seq<TutorProfile>, bookings: seq<Booking>, req: BookingRequest, today: int)
    ensures (forall i :: 0 <= i < |profiles| ==> profiles[i].id != req.tutorId) <==>
      BookingCheck(profiles, bookings, req, today) == Some(TutorNotFound)
    ensures BookingCheck(profiles, bookings, req, today) == Some(TutorUnavailable) <==>
      exists k :: FirstWithId(profiles, k, req.tutorId) && !profiles[k].isAvailable
  {
    var first := FindFirst(profiles, (p: TutorProfile) => p.id == req.tutorId);
    assert ProfileWithId(profiles, req.tutorId) == first;
    if first.Some? {
      assert FirstWithId(profiles, first.value, req.tutorId);
    }
  }

  /** Only a date strictly before today is rejected as past: a booking for
      today passes the date check. */
  lemma PastDateExactlyBeforeToday(profiles: seq<TutorProfile>, bookings: seq<Booking>, req: BookingRequest, today: int)
    requires exists k :: 0 <= k < |profiles| && profiles[k].id == req.tutorId
    requires forall k :: 0 <= k < |profiles| && profiles[k].id == req.tutorId ==> profiles[k].isAvailable
    ensures BookingCheck(profiles, bookings, req, today) == Some(PastDate) <==> req.date < today
  {
  }

  /** For an existing, available tutor and a date not in the past, the request
      is refused exactly when some non-cancelled booking of that tutor on that
      date blocks it under the two-clause rule, and accepted otherwise. */
  lemma SlotTakenExactlyWhenBlocked(profiles: seq<TutorProfile>, bookings: seq<Booking>, req: BookingRequest, today: int)
    requires exists k :: 0 <= k < |profiles| && profiles[k].id == req.tutorId
    requires forall k :: 0 <= k < |profiles| && profiles[k].id == req.tutorId ==> profiles[k].isAvailable
    requires today <= req.date
    ensures BookingCheck(profiles, bookings, req, today) == Some(SlotTaken) <==>
      exists b :: b in bookings && b.tutorId == req.tutorId && b.date == req.date && b.status != CANCELLED
        && Blocks(b.startTime, b.endTime, req.startTime, req.endTime)
    ensures BookingCheck(profiles, bookings, req, today) == None <==>
      forall b :: b in bookings ==> !BlocksRequest(b, req.tutorId, req.date, req.startTime, req.endTime)
  {
    if exists b :: b in bookings && BlocksRequest(b, req.tutorId, req.date, req.startTime, req.endTime) {
      var b :| b in bookings && BlocksRequest(b, req.tutorId, req.date, req.startTime, req.endTime);
      var i :| 0 <= i < |bookings| && bookings[i] == b;
    }
  }

  /** Cancelled bookings, bookings of other tutors and bookings on other dates
      never change the outcome. */
  lemma BookingCheckIgnoresNonBlocking(profiles: seq<TutorProfile>, bookings: seq<Booking>, x: Booking,
                                       req: BookingRequest, today: int)
    requires x.status == CANCELLED || x.tutorId != req.tutorId || x.date != req.date
    ensures BookingCheck(profiles, bookings + [x], req, today) == BookingCheck(profiles, bookings, req, today)
  {
    var b' := bookings + [x];
    assert !BlocksRequest(x, req.tutorId, req.date, req.startTime, req.endTime);
    if exists i :: 0 <= i < |b'| && BlocksRequest(b'[i], req.tutorId, req.date, req.startTime, req.endTime) {
      var i :| 0 <= i < |b'| && BlocksRequest(b'[i], req.tutorId, req.date, req.startTime, req.endTime);
      assert i < |bookings| && b'[i] == bookings[i];
    }
    if exists i :: 0 <= i < |bookings| && BlocksRequest(bookings[i], req.tutorId, req.date, req.startTime, req.endTime) {
      var i :| 0 <= i < |bookings| && BlocksRequest(bookings[i], req.tutorId, req.date, req.startTime, req.endTime);
      assert b'[i] == bookings[i];
    }
  }

  /** The `findFirst` of the conflict scan: the position of the first booking
      that blocks the request. */
  method FindConflictingBooking(bookings: seq<Booking>, tutorId: Id, date: int, startTime: string, endTime: string)
    returns (found: Option<nat>)
    ensures found.None? <==> forall i :: 0 <= i < |bookings| ==> !BlocksRequest(bookings[i], tutorId, date, startTime, endTime)
    ensures found.Some? ==> found.value < |bookings| && BlocksRequest(bookings[found.value], tutorId, date, startTime, endTime)
    ensures found.Some? ==> forall i :: 0 <= i < found.value ==> !BlocksRequest(bookings[i], tutorId, date, startTime, endTime)
  {
    var i := 0;
    while i < |bookings|
      invariant 0 <= i <= |bookings|
      invariant forall j :: 0 <= j < i ==> !BlocksRequest(bookings[j], tutorId, date, startTime, endTime)
    {
      if BlocksRequest(bookings[i], tutorId, date, startTime, endTime) {
        return Some(i);
      }
      i := i + 1;
    }
    return None;
  }

  /** The row `createBooking` inserts for a request. */
  function NewBooking(id: Id, studentId: UserId, req: BookingRequest): (b: Booking)
  {
    Booking(id, studentId, req.tutorId, req.subject, req.date, req.startTime, req.endTime,
            req.duration, req.price, req.notes, req.meetingLink, CONFIRMED)
  }

  /** `createBooking`: on failure nothing changes; on success exactly one
      CONFIRMED booking with the requested fields is appended, and no other
      non-cancelled booking of that tutor and date blocks it. */
  method CreateBooking(db: Db, studentId: UserId, req: BookingRequest, today: int)
    returns (r: Result<Booking>)
    requires db.Valid()
    modifies db`bookings, db`nextId
    ensures db.Valid()
    ensures var c := BookingCheck(old(db.profiles), old(db.bookings), req, today);
      match c
      case Some(e) =>
        r == Err(e) && db.bookings == old(db.bookings) && db.nextId == old(db.nextId)
      case None =>
        && r == Ok(NewBooking(old(db.nextId), studentId, req))
        && db.bookings == old(db.bookings) + [r.value]
        && db.nextId == old(db.nextId) + 1
    ensures r.Ok? ==> forall b :: b in old(db.bookings) ==>
      !BlocksRequest(b, req.tutorId, req.date, req.startTime, req.endTime)
  {
    var k := ProfileWithId(db.profiles, req.tutorId);
    if k.None? {
      return Err(TutorNotFound);
    }
    if !db.profiles[k.value].isAvailable {
      return Err(TutorUnavailable);
    }
    if req.date < today {
      return Err(PastDate);
    }
    var conflicting := FindConflictingBooking(db.bookings, req.tutorId, req.date, req.startTime, req.endTime);
    if conflicting.Some? {
      return Err(SlotTaken);
    }
    var booking := NewBooking(db.nextId, studentId, req);
    assert KeysBelow(db.profiles, ProfileKey, db.nextId) && db.profiles[k.value].id == req.tutorId;
    UniqueAfterAppend(db.bookings, BookingKey, booking);
    db.bookings := db.bookings + [booking];
    db.nextId := db.nextId + 1;
    r := Ok(booking);
  }

  /** The times of the scenario below: 09:00-09:30 blocks 09:15-09:45 but not
      the adjacent 09:30-10:00. */
  lemma ScenarioTimes()
    ensures Blocks("09:00", "09:30", "09:15", "09:45")
    ensures !Blocks("09:00", "09:30", "09:30", "10:00")
  {
    assert Padded("09:00") && Padded("09:30") && Padded("09:15") && Padded("09:45") && Padded("10:00");
    PaddedMinutes("09:00");
    PaddedMinutes("09:30");
    PaddedMinutes("09:15");
    PaddedMinutes("09:45");
    PaddedMinutes("10:00");
    BlocksCharacterized("09:00", "09:30", "09:15", "09:45");
    TwoDigitOrder("09:30", "10:00");
    TouchingNeverBlocks("09:00", "09:30", "09:30", "10:00");
  }

  /** The scenario of a tutor with one CONFIRMED booking 09:00-09:30: a request
      for 09:15-09:45 that day is refused, an adjacent 09:30-10:00 is accepted. */
  lemma AdjacentAcceptedOverlapRefused(profiles: seq<TutorProfile>, existing: Booking, today: int,
                                       overlapping: BookingRequest, adjacent: BookingRequest)
    requires |profiles| == 1 && profiles[0].isAvailable
    requires existing.tutorId == profiles[0].id && existing.status == CONFIRMED
    requires existing.date >= today && existing.startTime == "09:00" && existing.endTime == "09:30"
    requires overlapping.tutorId == adjacent.tutorId == existing.tutorId
    requires overlapping.date == adjacent.date == existing.date
    requires overlapping.startTime == "09:15" && overlapping.endTime == "09:45"
    requires adjacent.startTime == "09:30" && adjacent.endTime == "10:00"
    ensures BookingCheck(profiles, [existing], overlapping, today) == Some(SlotTaken)
    ensures BookingCheck(profiles, [existing], adjacent, today) == None
  {
    ScenarioTimes();
    assert BlocksRequest([existing][0], overlapping.tutorId, overlapping.date, overlapping.startTime, overlapping.endTime);
    assert !BlocksRequest([existing][0], adjacent.tutorId, adjacent.date, adjacent.startTime, adjacent.endTime);
  }

  /** The conflict filter does not enforce "no two non-cancelled bookings of a
      tutor on a date overlap": a CONFIRMED 09:30-10:00 does not stop a
      09:00-11:00 request, and the two accepted bookings overlap. */
  lemma EnclosingBookingAccepted(profiles: seq<TutorProfile>, existing: Booking, req: BookingRequest, today: int)
    requires |profiles| == 1 && profiles[0].isAvailable
    requires existing.tutorId == profiles[0].id && existing.status == CONFIRMED
    requires existing.startTime == "09:30" && existing.endTime == "10:00"
    requires req.tutorId == existing.tutorId && req.date == existing.date && req.date >= today
    requires req.startTime == "09:00" && req.endTime == "11:00"
    ensures BookingCheck(profiles, [existing], req, today) == None
    ensures Overlaps(Minutes(existing.startTime), Minutes(existing.endTime), Minutes(req.startTime), Minutes(req.endTime))
  {
    ContainedIntervalMissed();
  }
}
