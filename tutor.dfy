/** The tutor service: one profile per user, created with defaults, updated
    field by field, deleted; the public listing with its optional filters in
    rating order; a tutor's sessions; and a tutor's booking statistics. */
module Tutors {
  import opened Common
  import opened Sorting
  import opened Tables

  /** The payload of `createTutorProfile`; `None` stands for a missing field. */
  datatype ProfileRequest = ProfileRequest(
    bio: Option<string>,
    headline: Option<string>,
    subjects: Option<seq<string>>,
    languages: Option<seq<string>>,
    education: Option<string>,
    hourlyRate: real,
    experience: Option<int>,
    categoryIds: Option<seq<string>>)

  /** The row `createTutorProfile` writes: the list fields default to empty and
      the experience to 0; the rating aggregate, the session count and the
      availability flag take the table's defaults (0, 0 and available). */
  function NewProfile(id: Id, userId: UserId, req: ProfileRequest): (p: TutorProfile)
    ensures p.id == id && p.userId == userId && p.isAvailable
    ensures p.rating == 0.0 && p.totalReviews == 0 && p.totalSessions == 0
    ensures p.bio == req.bio && p.headline == req.headline
    ensures p.education == req.education && p.hourlyRate == req.hourlyRate
    ensures req.subjects.Some? ==> p.subjects == req.subjects.value
    ensures req.subjects.None? ==> p.subjects == []
    ensures req.languages.Some? ==> p.languages == req.languages.value
    ensures req.languages.None? ==> p.languages == []
    ensures req.categoryIds.Some? ==> p.categoryIds == req.categoryIds.value
    ensures req.categoryIds.None? ==> p.categoryIds == []
    ensures req.experience.Some? ==> p.experience == req.experience.value
    ensures req.experience.None? ==> p.experience == 0
  {
    TutorProfile(id, userId, req.bio, req.headline, GetOr(req.subjects, []), GetOr(req.languages, []),
                 req.education, req.hourlyRate, GetOr(req.experience, 0), GetOr(req.categoryIds, []),
                 true, 0.0, 0, 0)
  }

  /** A fresh profile's zero aggregate is exact: no review carries a fresh id. */
  lemma NewProfileConsistent(rs: seq<Review>, bound: nat, userId: UserId, req: ProfileRequest)
    requires KeysBelow(rs, ReviewTutorKey, bound)
    ensures RatingConsistent(NewProfile(bound, userId, req), rs)
  {
    RatingsOfAbsent(rs, bound);
  }

  /** `createTutorProfile`: refused when the user already has a profile, so each
      user keeps at most one; otherwise exactly one profile is appended. */
  method CreateTutorProfile(db: Db, userId: UserId, req: ProfileRequest) returns (r: Result<TutorProfile>)
    requires db.Valid()
    modifies db`profiles, db`nextId
    ensures db.Valid()
    ensures match ProfileOfUser(old(db.profiles), userId)
      case Some(_) => r == Err(ProfileAlreadyExists) && db.profiles == old(db.profiles) && db.nextId == old(db.nextId)
      case None =>
        && r == Ok(NewProfile(old(db.nextId), userId, req))
        && db.profiles == old(db.profiles) + [r.value]
        && db.nextId == old(db.nextId) + 1
  {
    var existing := ProfileOfUser(db.profiles, userId);
    if existing.Some? {
      return Err(ProfileAlreadyExists);
    }
    var profile := NewProfile(db.nextId, userId, req);
    NewProfileConsistent(db.reviews, db.nextId, userId, req);
    UniqueAfterAppend(db.profiles, ProfileKey, profile);
    UniqueAfterAppend(db.profiles, ProfileUserKey, profile);
    db.profiles := db.profiles + [profile];
    db.nextId := db.nextId + 1;
    r := Ok(profile);
  }

  /** The fields of `updateProfile`; `None` is `undefined` (the column keeps its
      value) and `Some(None)` clears a nullable text column. */
  datatype ProfileChanges = ProfileChanges(
    bio: Option<Option<string>>,
    headline: Option<Option<string>>,
    subjects: Option<seq<string>>,
    languages: Option<seq<string>>,
    education: Option<Option<string>>,
    hourlyRate: Option<real>,
    experience: Option<int>,
    categoryIds: Option<seq<string>>,
    isAvailable: Option<bool>)

  /** The profile after an update: supplied fields replaced, the rest kept. */
  function Changed(p: TutorProfile, ch: ProfileChanges): (q: TutorProfile)
    ensures q.id == p.id && q.userId == p.userId
    ensures q.rating == p.rating && q.totalReviews == p.totalReviews && q.totalSessions == p.totalSessions
    ensures ch.bio.Some? ==> q.bio == ch.bio.value
    ensures ch.bio.None? ==> q.bio == p.bio
    ensures ch.headline.Some? ==> q.headline == ch.headline.value
    ensures ch.headline.None? ==> q.headline == p.headline
    ensures ch.subjects.Some? ==> q.subjects == ch.subjects.value
    ensures ch.subjects.None? ==> q.subjects == p.subjects
    ensures ch.languages.Some? ==> q.languages == ch.languages.value
    ensures ch.languages.None? ==> q.languages == p.languages
    ensures ch.education.Some? ==> q.education == ch.education.value
    ensures ch.education.None? ==> q.education == p.education
    ensures ch.hourlyRate.Some? ==> q.hourlyRate == ch.hourlyRate.value
    ensures ch.hourlyRate.None? ==> q.hourlyRate == p.hourlyRate
    ensures ch.experience.Some? ==> q.experience == ch.experience.value
    ensures ch.experience.None? ==> q.experience == p.experience
    ensures ch.categoryIds.Some? ==> q.categoryIds == ch.categoryIds.value
    ensures ch.categoryIds.None? ==> q.categoryIds == p.categoryIds
    ensures ch.isAvailable.Some? ==> q.isAvailable == ch.isAvailable.value
    ensures ch.isAvailable.None? ==> q.isAvailable == p.isAvailable
  {
    p.(bio := GetOr(ch.bio, p.bio), headline := GetOr(ch.headline, p.headline),
       subjects := GetOr(ch.subjects, p.subjects), languages := GetOr(ch.languages, p.languages),
       education := GetOr(ch.education, p.education), hourlyRate := GetOr(ch.hourlyRate, p.hourlyRate),
       experience := GetOr(ch.experience, p.experience), categoryIds := GetOr(ch.categoryIds, p.categoryIds),
       isAvailable := GetOr(ch.isAvailable, p.isAvailable))
  }

  /** An update that supplies nothing leaves the profile as it was. */
  lemma EmptyChangeKeepsProfile(p: TutorProfile)
    ensures Changed(p, ProfileChanges(None, None, None, None, None, None, None, None, None)) == p
  {
  }

  /** `updateProfile`: refused without a profile; otherwise only the caller's
      profile changes, and only in the supplied fields. */
  method UpdateProfile(db: Db, userId: UserId, ch: ProfileChanges) returns (r: Result<TutorProfile>)
    requires db.Valid()
    modifies db`profiles
    ensures db.Valid()
    ensures match ProfileOfUser(old(db.profiles), userId)
      case None => r == Err(TutorProfileNotFound) && db.profiles == old(db.profiles)
      case Some(k) =>
        && r == Ok(Changed(old(db.profiles)[k], ch))
        && db.profiles == old(db.profiles)[k := r.value]
  {
    var existing := ProfileOfUser(db.profiles, userId);
    if existing.None? {
      return Err(TutorProfileNotFound);
    }
    var k := existing.value;
    var profile := Changed(db.profiles[k], ch);
    var ps := db.profiles[k := profile];
    assert db.profiles[k] in db.profiles;
    forall i, j | 0 <= i < j < |ps| ensures ps[i].id != ps[j].id && ps[i].userId != ps[j].userId {
      assert ProfileKey(db.profiles[i]) != ProfileKey(db.profiles[j]);
      assert ProfileUserKey(db.profiles[i]) != ProfileUserKey(db.profiles[j]);
    }
    forall p | p in ps ensures RatingConsistent(p, db.reviews) {
      var i :| 0 <= i < |ps| && ps[i] == p;
      assert db.profiles[i] in db.profiles;
    }
    db.profiles := ps;
    r := Ok(profile);
  }

  /** `deleteProfile`: refused without a profile; otherwise exactly the caller's
      profile is removed. */
  method DeleteProfile(db: Db, userId: UserId) returns (r: Result<bool>)
    requires db.Valid()
    modifies db`profiles
    ensures db.Valid()
    ensures match ProfileOfUser(old(db.profiles), userId)
      case None => r == Err(TutorProfileNotFound) && db.profiles == old(db.profiles)
      case Some(k) => r == Ok(true) && db.profiles == RemoveAt(old(db.profiles), k)
    ensures r.Ok? ==> ProfileOfUser(db.profiles, userId).None?
  {
    var existing := ProfileOfUser(db.profiles, userId);
    if existing.None? {
      return Err(TutorProfileNotFound);
    }
    var k := existing.value;
    var rest := RemoveAt(db.profiles, k);
    UniqueAfterRemove(db.profiles, ProfileKey, k);
    UniqueAfterRemove(db.profiles, ProfileUserKey, k);
    FoundIsOnly(db.profiles, ProfileUserKey, userId, k);
    forall p | p in rest ensures p in db.profiles {
      assert p in multiset(rest);
    }
    db.profiles := rest;
    r := Ok(true);
  }

  /** The query parameters of `getAllTutors`; `None` is a missing parameter.
      An empty category or subject counts as missing, as JavaScript truthiness
      has it. */
  datatype TutorFilter = TutorFilter(
    category: Option<string>,
    minPrice: Option<real>,
    maxPrice: Option<real>,
    minRating: Option<real>,
    subject: Option<string>)

  /** The `where` of `getAllTutors`: available, and each supplied bound or
      membership test met, the price bounds inclusive. */
  predicate Listed(p: TutorProfile, f: TutorFilter)
    ensures Listed(p, f) ==> p.isAvailable
    ensures f == TutorFilter(None, None, None, None, None) ==> (Listed(p, f) <==> p.isAvailable)
  {
    && p.isAvailable
    && (Given(f.category) ==> f.category.value in p.categoryIds)
    && (f.minPrice.Some? ==> p.hourlyRate >= f.minPrice.value)
    && (f.maxPrice.Some? ==> p.hourlyRate <= f.maxPrice.value)
    && (f.minRating.Some? ==> p.rating >= f.minRating.value)
    && (Given(f.subject) ==> f.subject.value in p.subjects)
  }

  function ListedBy(f: TutorFilter): TutorProfile -> bool {
    (p: TutorProfile) => Listed(p, f)
  }

  /** `orderBy: { rating: "desc" }`. */
  predicate HigherRated(a: TutorProfile, b: TutorProfile) {
    a.rating >= b.rating
  }

  lemma HigherRatedIsTotalPreorder()
    ensures TotalPreorder(HigherRated)
  {
  }

  /** `getAllTutors`: exactly the profiles the filter admits, best rated first. */
  function ListTutors(ps: seq<TutorProfile>, f: TutorFilter): (r: seq<TutorProfile>)
    ensures forall p :: p in r <==> p in ps && Listed(p, f)
    ensures multiset(r) == multiset(Filter(ps, ListedBy(f)))
    ensures SortedBy(r, HigherRated)
  {
    var admitted := Filter(ps, ListedBy(f));
    HigherRatedIsTotalPreorder();
    SortBySorted(admitted, HigherRated);
    SortByMembers(admitted, HigherRated);
    SortBy(admitted, HigherRated)
  }

  /** Without parameters the listing is every available tutor; an unavailable
      tutor is never listed, whatever the parameters. */
  lemma UnfilteredListsAllAvailable(ps: seq<TutorProfile>, f: TutorFilter)
    ensures f == TutorFilter(None, None, None, None, None) ==>
      forall p :: p in ListTutors(ps, f) <==> p in ps && p.isAvailable
    ensures forall p :: p in ListTutors(ps, f) ==> p.isAvailable
  {
  }

  /** The where of `getSessions`: the tutor's bookings, of one status when given. */
  predicate Session(b: Booking, tutorId: Id, status: Option<Status>) {
    b.tutorId == tutorId && (status.Some? ==> b.status == status.value)
  }

  function SessionOf(tutorId: Id, status: Option<Status>): Booking -> bool {
    (b: Booking) => Session(b, tutorId, status)
  }

  /** `orderBy: { date: "desc" }`. */
  predicate LaterDate(a: Booking, b: Booking) {
    a.date >= b.date
  }

  lemma LaterDateIsTotalPreorder()
    ensures TotalPreorder(LaterDate)
  {
  }

  /** `getSessions`: refused without a profile; otherwise exactly the caller's
      bookings of the given status (all statuses when none is given), latest
      date first. */
  function Sessions(ps: seq<TutorProfile>, bs: seq<Booking>, userId: UserId, status: Option<Status>)
    : (r: Result<seq<Booking>>)
    ensures r.Err? <==> ProfileOfUser(ps, userId).None?
    ensures r.Err? ==> r.error == TutorProfileNotFound
    ensures r.Ok? ==>
      var tutorId := ps[ProfileOfUser(ps, userId).value].id;
      && (forall b :: b in r.value <==> b in bs && b.tutorId == tutorId && (status.Some? ==> b.status == status.value))
      && multiset(r.value) == multiset(Filter(bs, SessionOf(tutorId, status)))
      && SortedBy(r.value, LaterDate)
  {
    match ProfileOfUser(ps, userId)
    case None => Err(TutorProfileNotFound)
    case Some(k) =>
      var mine := Filter(bs, SessionOf(ps[k].id, status));
      LaterDateIsTotalPreorder();
      SortBySorted(mine, LaterDate);
      SortByMembers(mine, LaterDate);
      Ok(SortBy(mine, LaterDate))
  }

  function BookedWith(tutorId: Id): Booking -> bool {
    (b: Booking) => b.tutorId == tutorId
  }

  function OfTutorWith(tutorId: Id, status: Status): Booking -> bool {
    (b: Booking) => b.tutorId == tutorId && b.status == status
  }

  /** Sum of the prices: the earnings `reduce`. */
  function PriceSum(bs: seq<Booking>): (r: real)
    ensures (forall i :: 0 <= i < |bs| ==> bs[i].price >= 0.0) ==> r >= 0.0
  {
    if bs == [] then 0.0 else bs[0].price + PriceSum(bs[1..])
  }

  datatype TutorStats = TutorStats(
    totalBookings: nat,
    confirmedBookings: nat,
    completedBookings: nat,
    cancelledBookings: nat,
    totalEarnings: real,
    rating: real,
    totalReviews: nat,
    totalSessions: nat)

  /** `getStats`: refused without a profile; otherwise the counts of the
      tutor's bookings, in total and per status, the earnings from the
      COMPLETED ones, and the profile's stored aggregates. */
  function Stats(ps: seq<TutorProfile>, bs: seq<Booking>, userId: UserId): (r: Result<TutorStats>)
    ensures r.Err? <==> ProfileOfUser(ps, userId).None?
    ensures r.Err? ==> r.error == TutorProfileNotFound
    ensures r.Ok? ==>
      var p := ps[ProfileOfUser(ps, userId).value];
      && r.value.rating == p.rating && r.value.totalReviews == p.totalReviews
      && r.value.totalSessions == p.totalSessions
      && r.value.confirmedBookings + r.value.completedBookings + r.value.cancelledBookings == r.value.totalBookings
    ensures r.Ok? ==>
      var t := ps[ProfileOfUser(ps, userId).value].id;
      && r.value.totalBookings == |Filter(bs, BookedWith(t))|
      && r.value.confirmedBookings == |Filter(bs, OfTutorWith(t, CONFIRMED))|
      && r.value.completedBookings == |Filter(bs, OfTutorWith(t, COMPLETED))|
      && r.value.cancelledBookings == |Filter(bs, OfTutorWith(t, CANCELLED))|
      && r.value.totalEarnings == PriceSum(Filter(bs, OfTutorWith(t, COMPLETED)))
  {
    match ProfileOfUser(ps, userId)
    case None => Err(TutorProfileNotFound)
    case Some(k) =>
      var t := ps[k].id;
      StatusCountsAddUp(bs, t);
      Ok(TutorStats(
        |Filter(bs, BookedWith(t))|,
        |Filter(bs, OfTutorWith(t, CONFIRMED))|,
        |Filter(bs, OfTutorWith(t, COMPLETED))|,
        |Filter(bs, OfTutorWith(t, CANCELLED))|,
        PriceSum(Filter(bs, OfTutorWith(t, COMPLETED))),
        ps[k].rating, ps[k].totalReviews, ps[k].totalSessions))
  }

  /** Every booking has one of the three statuses, so the per-status counts of a
      tutor add up to the tutor's total. */
  lemma {:induction false} StatusCountsAddUp(bs: seq<Booking>, t: Id)
    ensures |Filter(bs, OfTutorWith(t, CONFIRMED))| + |Filter(bs, OfTutorWith(t, COMPLETED))|
          + |Filter(bs, OfTutorWith(t, CANCELLED))| == |Filter(bs, BookedWith(t))|
  {
    if bs != [] {
      StatusCountsAddUp(bs[1..], t);
    }
  }

  lemma {:induction false} PriceSumAppend(bs: seq<Booking>, x: Booking)
    ensures PriceSum(bs + [x]) == PriceSum(bs) + x.price
  {
    if bs != [] {
      assert (bs + [x])[1..] == bs[1..] + [x];
      PriceSumAppend(bs[1..], x);
    }
  }

  /** A tutor without bookings has all counts and the earnings at zero. */
  lemma StatsWithoutBookings(ps: seq<TutorProfile>, bs: seq<Booking>, userId: UserId)
    requires ProfileOfUser(ps, userId).Some?
    requires forall i :: 0 <= i < |bs| ==> bs[i].tutorId != ps[ProfileOfUser(ps, userId).value].id
    ensures var s := Stats(ps, bs, userId).value;
      && s.totalBookings == 0 && s.confirmedBookings == 0 && s.completedBookings == 0
      && s.cancelledBookings == 0 && s.totalEarnings == 0.0
  {
    var t := ps[ProfileOfUser(ps, userId).value].id;
    NoneListed(bs, BookedWith(t));
    NoneListed(bs, OfTutorWith(t, CONFIRMED));
    NoneListed(bs, OfTutorWith(t, COMPLETED));
    NoneListed(bs, OfTutorWith(t, CANCELLED));
  }

  /** A filter that admits no element yields the empty sequence. */
  lemma NoneListed(bs: seq<Booking>, p: Booking -> bool)
    requires forall i :: 0 <= i < |bs| ==> !p(bs[i])
    ensures Filter(bs, p) == []
  {
  }

  /** A booking of another tutor, or a CANCELLED booking's price, never moves
      the earnings. */
  lemma EarningsIgnoreOthers(ps: seq<TutorProfile>, bs: seq<Booking>, userId: UserId, x: Booking)
    requires ProfileOfUser(ps, userId).Some?
    requires x.tutorId != ps[ProfileOfUser(ps, userId).value].id || x.status != COMPLETED
    ensures Stats(ps, bs + [x], userId).value.totalEarnings == Stats(ps, bs, userId).value.totalEarnings
    ensures x.tutorId != ps[ProfileOfUser(ps, userId).value].id ==>
      Stats(ps, bs + [x], userId).value == Stats(ps, bs, userId).value
  {
    var t := ps[ProfileOfUser(ps, userId).value].id;
    FilterAppend(bs, [x], OfTutorWith(t, COMPLETED));
    assert Filter([x], OfTutorWith(t, COMPLETED)) == [];
    assert Filter(bs + [x], OfTutorWith(t, COMPLETED)) == Filter(bs, OfTutorWith(t, COMPLETED));
    if x.tutorId != t {
      FilterAppend(bs, [x], BookedWith(t));
      FilterAppend(bs, [x], OfTutorWith(t, CONFIRMED));
      FilterAppend(bs, [x], OfTutorWith(t, CANCELLED));
      assert Filter([x], BookedWith(t)) == [];
      assert Filter([x], OfTutorWith(t, CONFIRMED)) == [];
      assert Filter([x], OfTutorWith(t, CANCELLED)) == [];
    }
  }

  /** A booking accepted by `createBooking` (CONFIRMED) adds one to the tutor's
      total and confirmed counts and leaves the other counts and the earnings as
      they were. */
  lemma StatsAfterNewBooking(ps: seq<TutorProfile>, bs: seq<Booking>, userId: UserId, x: Booking)
    requires ProfileOfUser(ps, userId).Some?
    requires x.tutorId == ps[ProfileOfUser(ps, userId).value].id && x.status == CONFIRMED
    ensures var before := Stats(ps, bs, userId).value;
      var after := Stats(ps, bs + [x], userId).value;
      && after.totalBookings == before.totalBookings + 1
      && after.confirmedBookings == before.confirmedBookings + 1
      && after.completedBookings == before.completedBookings
      && after.cancelledBookings == before.cancelledBookings
      && after.totalEarnings == before.totalEarnings
  {
    var t := x.tutorId;
    FilterAppend(bs, [x], BookedWith(t));
    FilterAppend(bs, [x], OfTutorWith(t, CONFIRMED));
    FilterAppend(bs, [x], OfTutorWith(t, COMPLETED));
    FilterAppend(bs, [x], OfTutorWith(t, CANCELLED));
    assert Filter([x], OfTutorWith(t, COMPLETED)) == [];
    assert Filter(bs + [x], OfTutorWith(t, COMPLETED)) == Filter(bs, OfTutorWith(t, COMPLETED));
  }

  /** Completing a booking moves its price into the earnings: earnings are the
      sum over the tutor's COMPLETED bookings and nothing else. */
  lemma EarningsGrowWithCompleted(ps: seq<TutorProfile>, bs: seq<Booking>, userId: UserId, x: Booking)
    requires ProfileOfUser(ps, userId).Some?
    requires x.tutorId == ps[ProfileOfUser(ps, userId).value].id && x.status == COMPLETED
    ensures Stats(ps, bs + [x], userId).value.totalEarnings == Stats(ps, bs, userId).value.totalEarnings + x.price
  {
    var t := x.tutorId;
    FilterAppend(bs, [x], OfTutorWith(t, COMPLETED));
    assert Filter([x], OfTutorWith(t, COMPLETED)) == [x];
    PriceSumAppend(Filter(bs, OfTutorWith(t, COMPLETED)), x);
  }
}
