/** The four tables the services read and write (tutor profiles, availability
    slots, bookings, reviews), held in insertion order by one `Db` object that
    stands for the database, and the invariant every service operation keeps. */
module Tables {
  import opened Common
  import opened TimeOfDay

  datatype Status = CONFIRMED | COMPLETED | CANCELLED

  datatype TutorProfile = TutorProfile(
    id: Id,
    userId: UserId,
    bio: Option<string>,
    headline: Option<string>,
    subjects: seq<string>,
    languages: seq<string>,
    education: Option<string>,
    hourlyRate: real,
    experience: int,
    categoryIds: seq<string>,
    isAvailable: bool,
    rating: real,
    totalReviews: nat,
    totalSessions: nat)

  /** A weekly availability window; `dayOfWeek` 0 is Sunday. */
  datatype Slot = Slot(
    id: Id,
    tutorId: Id,
    dayOfWeek: int,
    startTime: string,
    endTime: string,
    isActive: bool)

  /** `date` is a calendar day number. */
  datatype Booking = Booking(
    id: Id,
    studentId: UserId,
    tutorId: Id,
    subject: string,
    date: int,
    startTime: string,
    endTime: string,
    duration: int,
    price: real,
    notes: Option<string>,
    meetingLink: Option<string>,
    status: Status)

  datatype Review = Review(
    id: Id,
    bookingId: Id,
    tutorId: Id,
    studentId: UserId,
    rating: int,
    comment: Option<string>)

  // Keys of the rows, as function values for the uniqueness predicates.
  function ProfileKey(p: TutorProfile): Id { p.id }
  function ProfileUserKey(p: TutorProfile): UserId { p.userId }
  function SlotKey(s: Slot): Id { s.id }
  function BookingKey(b: Booking): Id { b.id }
  function BookingTutorKey(b: Booking): Id { b.tutorId }
  function ReviewKey(r: Review): Id { r.id }
  function ReviewBookingKey(r: Review): Id { r.bookingId }
  function ReviewTutorKey(r: Review): Id { r.tutorId }

  /** `findUnique({ where: { userId } })` on the profile table. */
  function ProfileOfUser(ps: seq<TutorProfile>, userId: UserId): (r: Option<nat>)
    ensures r.None? <==> forall i :: 0 <= i < |ps| ==> ps[i].userId != userId
    ensures r.Some? ==> r.value < |ps| && ps[r.value].userId == userId
    ensures r.Some? ==> forall i :: 0 <= i < r.value ==> ps[i].userId != userId
  {
    FindFirst(ps, (p: TutorProfile) => p.userId == userId)
  }

  /** `findUnique({ where: { id } })` on the profile table. */
  function ProfileWithId(ps: seq<TutorProfile>, id: Id): (r: Option<nat>)
    ensures r.None? <==> forall i :: 0 <= i < |ps| ==> ps[i].id != id
    ensures r.Some? ==> r.value < |ps| && ps[r.value].id == id
    ensures r.Some? ==> forall i :: 0 <= i < r.value ==> ps[i].id != id
  {
    FindFirst(ps, (p: TutorProfile) => p.id == id)
  }

  function SlotWithId(ss: seq<Slot>, id: Id): (r: Option<nat>)
    ensures r.None? <==> forall i :: 0 <= i < |ss| ==> ss[i].id != id
    ensures r.Some? ==> r.value < |ss| && ss[r.value].id == id
    ensures r.Some? ==> forall i :: 0 <= i < r.value ==> ss[i].id != id
  {
    FindFirst(ss, (s: Slot) => s.id == id)
  }

  function BookingWithId(bs: seq<Booking>, id: Id): (r: Option<nat>)
    ensures r.None? <==> forall i :: 0 <= i < |bs| ==> bs[i].id != id
    ensures r.Some? ==> r.value < |bs| && bs[r.value].id == id
    ensures r.Some? ==> forall i :: 0 <= i < r.value ==> bs[i].id != id
  {
    FindFirst(bs, (b: Booking) => b.id == id)
  }

  function ReviewWithId(rs: seq<Review>, id: Id): (r: Option<nat>)
    ensures r.None? <==> forall i :: 0 <= i < |rs| ==> rs[i].id != id
    ensures r.Some? ==> r.value < |rs| && rs[r.value].id == id
    ensures r.Some? ==> forall i :: 0 <= i < r.value ==> rs[i].id != id
  {
    FindFirst(rs, (x: Review) => x.id == id)
  }

  /** The `review` relation of a booking: the review written for it, if any. */
  function ReviewOfBooking(rs: seq<Review>, bookingId: Id): (r: Option<nat>)
    ensures r.None? <==> forall i :: 0 <= i < |rs| ==> rs[i].bookingId != bookingId
    ensures r.Some? ==> r.value < |rs| && rs[r.value].bookingId == bookingId
    ensures r.Some? ==> forall i :: 0 <= i < r.value ==> rs[i].bookingId != bookingId
  {
    FindFirst(rs, (x: Review) => x.bookingId == bookingId)
  }

  /** The ratings of the reviews of one tutor, in table order
      (`review.findMany({ where: { tutorId }, select: { rating: true } })`). */
  function RatingsOf(rs: seq<Review>, tutorId: Id): (r: seq<int>)
    ensures |r| <= |rs|
    ensures forall x :: x in r ==> exists i :: 0 <= i < |rs| && rs[i].tutorId == tutorId && rs[i].rating == x
  {
    if rs == [] then []
    else
      var init := RatingsOf(rs[..|rs| - 1], tutorId);
      var last := rs[|rs| - 1];
      init + (if last.tutorId == tutorId then [last.rating] else [])
  }

  /** Sum of the ratings: the `reduce((sum, review) => sum + review.rating, 0)`. */
  function Sum(xs: seq<int>): (r: int)
    ensures (forall i :: 0 <= i < |xs| ==> xs[i] >= 0) ==> r >= 0
  {
    if xs == [] then 0 else Sum(xs[..|xs| - 1]) + xs[|xs| - 1]
  }

  /** The stored aggregate: 0 with no reviews, otherwise the mean rating. */
  function Average(xs: seq<int>): (avg: real)
    ensures |xs| == 0 ==> avg == 0.0
    ensures |xs| > 0 ==> avg * (|xs| as real) == Sum(xs) as real
  {
    if |xs| == 0 then 0.0 else Sum(xs) as real / |xs| as real
  }

  /** A slot as create and update leave it: a valid day, both times matching the
      pattern, and the end strictly after the start in minutes. */
  ghost predicate SlotWellFormed(s: Slot) {
    && 0 <= s.dayOfWeek <= 6
    && IsTime(s.startTime) && IsTime(s.endTime)
    && Minutes(s.startTime) < Minutes(s.endTime)
  }

  ghost predicate ProfilesValid(ps: seq<TutorProfile>, bound: nat) {
    && UniqueKeys(ps, ProfileKey) && KeysBelow(ps, ProfileKey, bound)
    && UniqueKeys(ps, ProfileUserKey)
  }

  ghost predicate SlotsValid(ss: seq<Slot>, bound: nat) {
    && UniqueKeys(ss, SlotKey) && KeysBelow(ss, SlotKey, bound)
    && forall s :: s in ss ==> SlotWellFormed(s)
  }

  ghost predicate BookingsValid(bs: seq<Booking>, bound: nat) {
    && UniqueKeys(bs, BookingKey) && KeysBelow(bs, BookingKey, bound)
    && KeysBelow(bs, BookingTutorKey, bound)
  }

  ghost predicate ReviewsValid(rs: seq<Review>, bound: nat) {
    && UniqueKeys(rs, ReviewKey) && KeysBelow(rs, ReviewKey, bound)
    && KeysBelow(rs, ReviewTutorKey, bound)
    && UniqueKeys(rs, ReviewBookingKey)
    && forall r :: r in rs ==> 1 <= r.rating <= 5
  }

  /** The stored rating and review count of the profile agree with its reviews. */
  ghost predicate RatingConsistent(p: TutorProfile, rs: seq<Review>) {
    p.rating == Average(RatingsOf(rs, p.id)) && p.totalReviews == |RatingsOf(rs, p.id)|
  }

  ghost predicate RatingsConsistent(ps: seq<TutorProfile>, rs: seq<Review>) {
    forall p :: p in ps ==> RatingConsistent(p, rs)
  }

  /** The database: the four tables and the source of fresh row ids. */
  class Db {
    var profiles: seq<TutorProfile>
    var slots: seq<Slot>
    var bookings: seq<Booking>
    var reviews: seq<Review>
    var nextId: nat

    ghost predicate Valid()
      reads this
    {
      && ProfilesValid(profiles, nextId)
      && SlotsValid(slots, nextId)
      && BookingsValid(bookings, nextId)
      && ReviewsValid(reviews, nextId)
      && RatingsConsistent(profiles, reviews)
    }

    /** The database with its rating aggregate possibly stale for `tutorId` only:
        the state between a review write and the recomputation that follows it. */
    ghost predicate ValidExceptRatingOf(tutorId: Id)
      reads this
    {
      && ProfilesValid(profiles, nextId)
      && SlotsValid(slots, nextId)
      && BookingsValid(bookings, nextId)
      && ReviewsValid(reviews, nextId)
      && forall p :: p in profiles && p.id != tutorId ==> RatingConsistent(p, reviews)
    }

    constructor ()
      ensures Valid()
      ensures profiles == [] && slots == [] && bookings == [] && reviews == [] && nextId == 0
    {
      profiles, slots, bookings, reviews, nextId := [], [], [], [], 0;
    }
  }

  lemma {:induction false} RatingsOfAppend(rs: seq<Review>, x: Review, tutorId: Id)
    ensures RatingsOf(rs + [x], tutorId) ==
      RatingsOf(rs, tutorId) + (if x.tutorId == tutorId then [x.rating] else [])
  {
    assert (rs + [x])[..|rs + [x]| - 1] == rs;
  }

  lemma {:induction false} RatingsOfConcat(a: seq<Review>, b: seq<Review>, tutorId: Id)
    ensures RatingsOf(a + b, tutorId) == RatingsOf(a, tutorId) + RatingsOf(b, tutorId)
    decreases |b|
  {
    if b == [] {
      assert a + b == a;
    } else {
      var b' := b[..|b| - 1];
      assert a + b == (a + b') + [b[|b| - 1]];
      assert b == b' + [b[|b| - 1]];
      RatingsOfConcat(a, b', tutorId);
      RatingsOfAppend(a + b', b[|b| - 1], tutorId);
      RatingsOfAppend(b', b[|b| - 1], tutorId);
    }
  }

  /** The ratings of a tutor do not depend on rows of other tutors, and only on
      the ratings of that tutor's rows: two tables that agree there agree. */
  lemma {:induction false} RatingsOfFrame(a: seq<Review>, b: seq<Review>, tutorId: Id)
    requires |a| == |b|
    requires forall i :: 0 <= i < |a| ==> (a[i].tutorId == tutorId <==> b[i].tutorId == tutorId)
    requires forall i :: 0 <= i < |a| && a[i].tutorId == tutorId ==> a[i].rating == b[i].rating
    ensures RatingsOf(a, tutorId) == RatingsOf(b, tutorId)
  {
    if a != [] {
      RatingsOfFrame(a[..|a| - 1], b[..|b| - 1], tutorId);
    }
  }

  /** Removing a row of another tutor leaves a tutor's ratings as they were. */
  lemma RatingsOfRemoveOther(rs: seq<Review>, k: nat, tutorId: Id)
    requires k < |rs| && rs[k].tutorId != tutorId
    ensures RatingsOf(RemoveAt(rs, k), tutorId) == RatingsOf(rs, tutorId)
  {
    assert rs == rs[..k] + [rs[k]] + rs[k + 1..];
    RatingsOfConcat(rs[..k] + [rs[k]], rs[k + 1..], tutorId);
    RatingsOfAppend(rs[..k], rs[k], tutorId);
    RatingsOfConcat(rs[..k], rs[k + 1..], tutorId);
  }

  /** A tutor id no review row carries has no ratings. */
  lemma {:induction false} RatingsOfAbsent(rs: seq<Review>, tutorId: Id)
    requires forall i :: 0 <= i < |rs| ==> rs[i].tutorId != tutorId
    ensures RatingsOf(rs, tutorId) == []
  {
    if rs != [] {
      RatingsOfAbsent(rs[..|rs| - 1], tutorId);
    }
  }
}
