/** The review service: a student reviews a completed booking once, may edit or
    delete the review, and every change that can move a tutor's ratings is
    followed by a recomputation of the profile's stored `rating` (the mean) and
    `totalReviews` (the count). The recomputation keeps `Db.Valid`, whose
    `RatingsConsistent` conjunct says every stored aggregate is exact. */
module Reviews {
  import opened Common
  import opened Tables

  /** The fields of a new review. */
  datatype ReviewRequest = ReviewRequest(bookingId: Id, rating: int, comment: Option<string>)

  /** The optional fields of an edit; `None` stands for `undefined`, and a
      supplied comment may itself be `null` (`Some(None)`). */
  datatype ReviewChanges = ReviewChanges(rating: Option<int>, comment: Option<Option<string>>)

  predicate RatingInRange(rating: int) {
    1 <= rating <= 5
  }

  /** The checks of `createReview`, in their order. `Ok` carries the tutor id of
      the booking, which the review gets. */
  function CreateReviewCheck(bookings: seq<Booking>, reviews: seq<Review>, studentId: UserId,
                             req: ReviewRequest): (r: Result<Id>)
    ensures r.Err? ==> r.error in {InvalidRating, BookingNotFound, NotYourBooking, BookingNotCompleted, AlreadyReviewed}
  {
    if !RatingInRange(req.rating) then Err(InvalidRating)
    else match BookingWithId(bookings, req.bookingId)
      case None => Err(BookingNotFound)
      case Some(k) =>
        if bookings[k].studentId != studentId then Err(NotYourBooking)
        else if bookings[k].status != COMPLETED then Err(BookingNotCompleted)
        else if ReviewOfBooking(reviews, req.bookingId).Some? then Err(AlreadyReviewed)
        else Ok(bookings[k].tutorId)
  }

  /** Every way a create can be accepted or refused: a review is accepted
      exactly for a rating in 1..5, on an existing booking of the caller that
      is COMPLETED and has no review yet. */
  lemma CreateReviewCheckCases(bookings: seq<Booking>, reviews: seq<Review>, studentId: UserId, req: ReviewRequest)
    ensures var c := CreateReviewCheck(bookings, reviews, studentId, req);
      && (c == Err(InvalidRating) <==> !(1 <= req.rating <= 5))
      && (c == Err(BookingNotFound) <==>
            1 <= req.rating <= 5 && forall i :: 0 <= i < |bookings| ==> bookings[i].id != req.bookingId)
      && (c.Ok? <==>
            && 1 <= req.rating <= 5
            && (exists k :: 0 <= k < |bookings| && bookings[k].id == req.bookingId
                  && bookings[k].studentId == studentId && bookings[k].status == COMPLETED
                  && (forall j :: 0 <= j < k ==> bookings[j].id != req.bookingId))
            && forall i :: 0 <= i < |reviews| ==> reviews[i].bookingId != req.bookingId)
      && (c.Ok? ==> exists k :: 0 <= k < |bookings| && bookings[k].id == req.bookingId && bookings[k].tutorId == c.value)
    // The middle refusals, in their order, on the booking the lookup finds.
    ensures var c := CreateReviewCheck(bookings, reviews, studentId, req);
      var found := BookingWithId(bookings, req.bookingId);
      && (c == Err(NotYourBooking) <==>
            1 <= req.rating <= 5 && found.Some? && bookings[found.value].studentId != studentId)
      && (c == Err(BookingNotCompleted) <==>
            && 1 <= req.rating <= 5 && found.Some? && bookings[found.value].studentId == studentId
            && bookings[found.value].status != COMPLETED)
      && (c == Err(AlreadyReviewed) <==>
            && 1 <= req.rating <= 5 && found.Some? && bookings[found.value].studentId == studentId
            && bookings[found.value].status == COMPLETED
            && exists i :: 0 <= i < |reviews| && reviews[i].bookingId == req.bookingId)
  {
    var c := CreateReviewCheck(bookings, reviews, studentId, req);
    var found := BookingWithId(bookings, req.bookingId);
    if found.Some? {
      var k := found.value;
      assert FindFirst(bookings, (b: Booking) => b.id == req.bookingId) == found;
      if exists k' :: 0 <= k' < |bookings| && bookings[k'].id == req.bookingId
                  && bookings[k'].studentId == studentId && bookings[k'].status == COMPLETED
                  && (forall j :: 0 <= j < k' ==> bookings[j].id != req.bookingId) {
        var k' :| 0 <= k' < |bookings| && bookings[k'].id == req.bookingId
                  && bookings[k'].studentId == studentId && bookings[k'].status == COMPLETED
                  && (forall j :: 0 <= j < k' ==> bookings[j].id != req.bookingId);
        assert !(k' < k) && !(k < k');
      }
    }
  }

  /** Sum of ratings in 1..5 lies between the count and five times the count. */
  lemma {:induction false} SumBounds(xs: seq<int>)
    requires forall i :: 0 <= i < |xs| ==> RatingInRange(xs[i])
    ensures |xs| <= Sum(xs) <= 5 * |xs|
  {
    if xs != [] {
      SumBounds(xs[..|xs| - 1]);
    }
  }

  lemma QuotientBounds(total: real, count: real)
    requires count > 0.0 && count <= total <= 5.0 * count
    ensures 1.0 <= total / count <= 5.0
  {
  }

  /** The mean of ratings in 1..5 is in [1, 5]. */
  lemma AverageBounds(xs: seq<int>)
    requires |xs| > 0
    requires forall i :: 0 <= i < |xs| ==> RatingInRange(xs[i])
    ensures 1.0 <= Average(xs) <= 5.0
  {
    SumBounds(xs);
    QuotientBounds(Sum(xs) as real, |xs| as real);
  }

  /** Ratings of a table whose ratings are all in 1..5 are in 1..5. */
  lemma RatingsOfInRange(rs: seq<Review>, tutorId: Id)
    requires forall r :: r in rs ==> RatingInRange(r.rating)
    ensures forall i :: 0 <= i < |RatingsOf(rs, tutorId)| ==> RatingInRange(RatingsOf(rs, tutorId)[i])
  {
    var xs := RatingsOf(rs, tutorId);
    forall i | 0 <= i < |xs| ensures RatingInRange(xs[i]) {
      assert xs[i] in xs;
      var j :| 0 <= j < |rs| && rs[j].tutorId == tutorId && rs[j].rating == xs[i];
      assert rs[j] in rs;
    }
  }

  /** What a consistent stored aggregate means: 0 exactly when there are no
      reviews, otherwise a mean in [1, 5] over `totalReviews` reviews. */
  lemma StoredRatingBounds(p: TutorProfile, rs: seq<Review>)
    requires forall r :: r in rs ==> RatingInRange(r.rating)
    requires RatingConsistent(p, rs)
    ensures p.totalReviews == 0 <==> p.rating == 0.0
    ensures p.totalReviews > 0 ==> 1.0 <= p.rating <= 5.0
  {
    var xs := RatingsOf(rs, p.id);
    if |xs| > 0 {
      RatingsOfInRange(rs, p.id);
      AverageBounds(xs);
    }
  }

  /** The profile with its aggregate recomputed from the reviews. */
  function WithRating(p: TutorProfile, rs: seq<Review>): (q: TutorProfile)
    ensures RatingConsistent(q, rs)
    ensures q.(rating := p.rating, totalReviews := p.totalReviews) == p
  {
    var ratings := RatingsOf(rs, p.id);
    p.(rating := Average(ratings), totalReviews := |ratings|)
  }

  /** The profile table after `updateTutorRating(tutorId)`: the profile with that
      id refreshed and every other row as it was, or `None` when there is no such
      profile (the update of a missing row fails). */
  function RatingRefresh(ps: seq<TutorProfile>, rs: seq<Review>, tutorId: Id): (r: Option<seq<TutorProfile>>)
    ensures r.None? <==> forall i :: 0 <= i < |ps| ==> ps[i].id != tutorId
    ensures r.Some? ==> |r.value| == |ps| && forall i :: 0 <= i < |ps| ==>
      r.value[i] == ps[i] || (ps[i].id == tutorId && r.value[i] == WithRating(ps[i], rs))
  {
    match ProfileWithId(ps, tutorId)
    case None => None
    case Some(k) => Some(ps[k := WithRating(ps[k], rs)])
  }

  /** The refresh repairs the one aggregate that may be stale and keeps the
      profile table's keys: after it every aggregate is exact. */
  lemma RefreshRestoresConsistency(ps: seq<TutorProfile>, rs: seq<Review>, tutorId: Id, bound: nat)
    requires ProfilesValid(ps, bound)
    requires forall p :: p in ps && p.id != tutorId ==> RatingConsistent(p, rs)
    ensures RatingRefresh(ps, rs, tutorId).None? ==> RatingsConsistent(ps, rs)
    ensures RatingRefresh(ps, rs, tutorId).Some? ==>
      var ps' := RatingRefresh(ps, rs, tutorId).value;
      ProfilesValid(ps', bound) && RatingsConsistent(ps', rs)
  {
    var r := RatingRefresh(ps, rs, tutorId);
    if r.None? {
      forall p | p in ps ensures RatingConsistent(p, rs) {
        var i :| 0 <= i < |ps| && ps[i] == p;
      }
    } else {
      var ps' := r.value;
      forall i | 0 <= i < |ps| ensures ps'[i].id == ps[i].id && ps'[i].userId == ps[i].userId {
      }
      forall p | p in ps' ensures RatingConsistent(p, rs) {
        var i :| 0 <= i < |ps'| && ps'[i] == p;
        assert ps[i] in ps;
      }
    }
  }

  /** `updateTutorRating`: reads the tutor's ratings and stores 0 and 0 when
      there are none, otherwise their mean and count. Only the profile table
      changes; a missing profile is the database's not-found error. */
  method RecomputeRating(db: Db, tutorId: Id) returns (err: Option<Error>)
    requires db.ValidExceptRatingOf(tutorId)
    modifies db`profiles
    ensures db.Valid()
    ensures match RatingRefresh(old(db.profiles), db.reviews, tutorId)
      case None => err == Some(RecordNotFound) && db.profiles == old(db.profiles)
      case Some(ps) => err == None && db.profiles == ps
  {
    RefreshRestoresConsistency(db.profiles, db.reviews, tutorId, db.nextId);
    var k := ProfileWithId(db.profiles, tutorId);
    if k.None? {
      return Some(RecordNotFound);
    }
    var ratings := RatingsOf(db.reviews, tutorId);
    var p := db.profiles[k.value];
    if |ratings| == 0 {
      p := p.(rating := 0.0, totalReviews := 0);
    } else {
      var total := Sum(ratings);
      p := p.(rating := total as real / |ratings| as real, totalReviews := |ratings|);
    }
    assert p == WithRating(db.profiles[k.value], db.reviews);
    db.profiles := db.profiles[k.value := p];
    err := None;
  }

  /** The review row `createReview` writes. */
  function NewReview(id: Id, studentId: UserId, tutorId: Id, req: ReviewRequest): (x: Review)
  {
    Review(id, req.bookingId, tutorId, studentId, req.rating, req.comment)
  }

  /** Appending a review that passed the create checks keeps the review table
      valid under the raised id bound. */
  lemma ReviewAppended(rs: seq<Review>, x: Review, bound: nat)
    requires ReviewsValid(rs, bound)
    requires x.id == bound && x.tutorId < bound && RatingInRange(x.rating)
    requires forall i :: 0 <= i < |rs| ==> rs[i].bookingId != x.bookingId
    ensures ReviewsValid(rs + [x], bound + 1)
  {
    UniqueAfterAppend(rs, ReviewKey, x);
    UniqueAfterAppend(rs, ReviewBookingKey, x);
  }

  /** A new review leaves the aggregates of the other tutors exact. */
  lemma OthersConsistentAfterAppend(ps: seq<TutorProfile>, rs: seq<Review>, x: Review)
    requires RatingsConsistent(ps, rs)
    ensures forall p :: p in ps && p.id != x.tutorId ==> RatingConsistent(p, rs + [x])
  {
    forall p | p in ps && p.id != x.tutorId ensures RatingConsistent(p, rs + [x]) {
      RatingsOfAppend(rs, x, p.id);
      assert RatingsOf(rs + [x], p.id) == RatingsOf(rs, p.id);
    }
  }

  /** `createReview`: on a refused request nothing changes; otherwise the review
      is appended and the booking's tutor's aggregate recomputed. The review
      stays written even when the recomputation fails. */
  method CreateReview(db: Db, studentId: UserId, req: ReviewRequest) returns (r: Result<Review>)
    requires db.Valid()
    modifies db`reviews, db`nextId, db`profiles
    ensures db.Valid()
    ensures match CreateReviewCheck(old(db.bookings), old(db.reviews), studentId, req)
      case Err(e) =>
        r == Err(e) && db.reviews == old(db.reviews) && db.nextId == old(db.nextId) && db.profiles == old(db.profiles)
      case Ok(tutorId) =>
        var review := NewReview(old(db.nextId), studentId, tutorId, req);
        && db.reviews == old(db.reviews) + [review]
        && db.nextId == old(db.nextId) + 1
        && match RatingRefresh(old(db.profiles), db.reviews, tutorId)
           case None => r == Err(RecordNotFound) && db.profiles == old(db.profiles)
           case Some(ps) => r == Ok(review) && db.profiles == ps
  {
    var c := CreateReviewCheck(db.bookings, db.reviews, studentId, req);
    if c.Err? {
      return Err(c.error);
    }
    var tutorId := c.value;
    var k := BookingWithId(db.bookings, req.bookingId).value;
    assert KeysBelow(db.bookings, BookingTutorKey, db.nextId) && db.bookings[k].tutorId == tutorId;
    var review := NewReview(db.nextId, studentId, tutorId, req);
    ReviewAppended(db.reviews, review, db.nextId);
    OthersConsistentAfterAppend(db.profiles, db.reviews, review);
    db.reviews := db.reviews + [review];
    db.nextId := db.nextId + 1;
    var err := RecomputeRating(db, tutorId);
    r := if err.Some? then Err(err.value) else Ok(review);
  }

  /** The lookup and ownership check of update and delete: only the author of
      the review gets through, and the author of an existing review always does. */
  function OwnedReview(reviews: seq<Review>, reviewId: Id, studentId: UserId): (r: Result<nat>)
    ensures r.Ok? ==> r.value < |reviews| && reviews[r.value].id == reviewId && reviews[r.value].studentId == studentId
    ensures r == Err(ReviewNotFound) <==> forall i :: 0 <= i < |reviews| ==> reviews[i].id != reviewId
    ensures r.Err? ==> r.error in {ReviewNotFound, Forbidden}
    ensures var found := ReviewWithId(reviews, reviewId);
      found.Some? && reviews[found.value].studentId == studentId ==> r == Ok(found.value)
  {
    match ReviewWithId(reviews, reviewId)
    case None => Err(ReviewNotFound)
    case Some(k) => if reviews[k].studentId != studentId then Err(Forbidden) else Ok(k)
  }

  /** The checks of `updateReview`: a supplied rating outside 1..5 is refused
      before any lookup; then the lookup and ownership. */
  function UpdateReviewCheck(reviews: seq<Review>, reviewId: Id, studentId: UserId, ch: ReviewChanges)
    : (r: Result<nat>)
    ensures r == Err(InvalidRating) <==> ch.rating.Some? && !RatingInRange(ch.rating.value)
    ensures r == Err(ReviewNotFound) <==>
      (ch.rating.Some? ==> RatingInRange(ch.rating.value)) && forall i :: 0 <= i < |reviews| ==> reviews[i].id != reviewId
    ensures r.Ok? <==>
      && (ch.rating.Some? ==> RatingInRange(ch.rating.value))
      && ReviewWithId(reviews, reviewId).Some?
      && reviews[ReviewWithId(reviews, reviewId).value].studentId == studentId
    ensures r.Ok? ==> r.value < |reviews| && reviews[r.value].id == reviewId && reviews[r.value].studentId == studentId
  {
    if ch.rating.Some? && !RatingInRange(ch.rating.value) then Err(InvalidRating)
    else OwnedReview(reviews, reviewId, studentId)
  }

  /** The review after an edit: every field not supplied keeps its value. */
  function Edited(r: Review, ch: ReviewChanges): (e: Review)
    ensures e.id == r.id && e.bookingId == r.bookingId && e.tutorId == r.tutorId && e.studentId == r.studentId
    ensures ch.rating.Some? ==> e.rating == ch.rating.value
    ensures ch.rating.None? ==> e.rating == r.rating
    ensures ch.comment.Some? ==> e.comment == ch.comment.value
    ensures ch.comment.None? ==> e.comment == r.comment
  {
    r.(rating := GetOr(ch.rating, r.rating), comment := GetOr(ch.comment, r.comment))
  }

  /** `rating !== undefined && rating !== review.rating`: the edit moves the rating. */
  predicate MovesRating(r: Review, ch: ReviewChanges)
    ensures MovesRating(r, ch) <==> Edited(r, ch).rating != r.rating
  {
    ch.rating.Some? && ch.rating.value != r.rating
  }

  /** Skipping the recomputation is sound: an edit that does not move the
      rating leaves every tutor's ratings as they were. */
  lemma EditKeepsRatings(rs: seq<Review>, k: nat, ch: ReviewChanges)
    requires k < |rs| && !MovesRating(rs[k], ch)
    ensures forall t :: RatingsOf(rs[k := Edited(rs[k], ch)], t) == RatingsOf(rs, t)
  {
    forall t ensures RatingsOf(rs[k := Edited(rs[k], ch)], t) == RatingsOf(rs, t) {
      RatingsOfFrame(rs[k := Edited(rs[k], ch)], rs, t);
    }
  }

  /** An edit that moves the rating changes only the ratings of the review's
      own tutor. */
  lemma EditTouchesOnlyItsTutor(rs: seq<Review>, k: nat, ch: ReviewChanges)
    requires k < |rs|
    ensures forall t :: t != rs[k].tutorId ==> RatingsOf(rs[k := Edited(rs[k], ch)], t) == RatingsOf(rs, t)
  {
    forall t | t != rs[k].tutorId ensures RatingsOf(rs[k := Edited(rs[k], ch)], t) == RatingsOf(rs, t) {
      RatingsOfFrame(rs[k := Edited(rs[k], ch)], rs, t);
    }
  }

  /** `updateReview`: on success the review is edited in place, and the tutor's
      aggregate is recomputed only when the rating moved. */
  method UpdateReview(db: Db, reviewId: Id, studentId: UserId, ch: ReviewChanges) returns (r: Result<Review>)
    requires db.Valid()
    modifies db`reviews, db`profiles
    ensures db.Valid()
    ensures match UpdateReviewCheck(old(db.reviews), reviewId, studentId, ch)
      case Err(e) => r == Err(e) && db.reviews == old(db.reviews) && db.profiles == old(db.profiles)
      case Ok(k) =>
        var edited := Edited(old(db.reviews)[k], ch);
        && db.reviews == old(db.reviews)[k := edited]
        && if !MovesRating(old(db.reviews)[k], ch) then r == Ok(edited) && db.profiles == old(db.profiles)
           else match RatingRefresh(old(db.profiles), db.reviews, edited.tutorId)
             case None => r == Err(RecordNotFound) && db.profiles == old(db.profiles)
             case Some(ps) => r == Ok(edited) && db.profiles == ps
  {
    var c := UpdateReviewCheck(db.reviews, reviewId, studentId, ch);
    if c.Err? {
      return Err(c.error);
    }
    var k := c.value;
    var old_review := db.reviews[k];
    var edited := Edited(old_review, ch);
    assert old_review in db.reviews;
    EditTouchesOnlyItsTutor(db.reviews, k, ch);
    if !MovesRating(old_review, ch) {
      EditKeepsRatings(db.reviews, k, ch);
    }
    var edits := db.reviews[k := edited];
    forall i, j | 0 <= i < j < |edits| ensures edits[i].id != edits[j].id && edits[i].bookingId != edits[j].bookingId {
      assert ReviewKey(db.reviews[i]) != ReviewKey(db.reviews[j]);
      assert ReviewBookingKey(db.reviews[i]) != ReviewBookingKey(db.reviews[j]);
    }
    db.reviews := edits;
    if MovesRating(old_review, ch) {
      var err := RecomputeRating(db, edited.tutorId);
      r := if err.Some? then Err(err.value) else Ok(edited);
    } else {
      r := Ok(edited);
    }
  }

  /** `deleteReview`: removes exactly that review and recomputes its tutor's
      aggregate. */
  method DeleteReview(db: Db, reviewId: Id, studentId: UserId) returns (r: Result<bool>)
    requires db.Valid()
    modifies db`reviews, db`profiles
    ensures db.Valid()
    ensures match OwnedReview(old(db.reviews), reviewId, studentId)
      case Err(e) => r == Err(e) && db.reviews == old(db.reviews) && db.profiles == old(db.profiles)
      case Ok(k) =>
        && db.reviews == RemoveAt(old(db.reviews), k)
        && match RatingRefresh(old(db.profiles), db.reviews, old(db.reviews)[k].tutorId)
           case None => r == Err(RecordNotFound) && db.profiles == old(db.profiles)
           case Some(ps) => r == Ok(true) && db.profiles == ps
  {
    var o := OwnedReview(db.reviews, reviewId, studentId);
    if o.Err? {
      return Err(o.error);
    }
    var k := o.value;
    var tutorId := db.reviews[k].tutorId;
    UniqueAfterRemove(db.reviews, ReviewKey, k);
    UniqueAfterRemove(db.reviews, ReviewBookingKey, k);
    forall p | p in db.profiles && p.id != tutorId
      ensures RatingsOf(RemoveAt(db.reviews, k), p.id) == RatingsOf(db.reviews, p.id)
    {
      RatingsOfRemoveOther(db.reviews, k, p.id);
    }
    var rest := RemoveAt(db.reviews, k);
    forall x | x in rest ensures x in db.reviews {
      assert x in multiset(rest);
    }
    db.reviews := rest;
    var err := RecomputeRating(db, tutorId);
    r := if err.Some? then Err(err.value) else Ok(true);
  }

  /** The ratings of a list of reviews, in list order. */
  function RatingsIn(rs: seq<Review>): (xs: seq<int>)
    ensures |xs| == |rs| && forall i :: 0 <= i < |rs| ==> xs[i] == rs[i].rating
  {
    seq(|rs|, i requires 0 <= i < |rs| => rs[i].rating)
  }

  /** The rating distribution: the `groupBy` counts laid over a table that
      starts every star from 1 to 5 at zero. */
  function Distribution(ratings: seq<int>): (d: map<int, nat>)
    ensures forall k :: k in d <==> (1 <= k <= 5 || k in ratings)
    ensures forall k :: k in d ==> d[k] == multiset(ratings)[k]
  {
    var initial := map[5 := 0, 4 := 0, 3 := 0, 2 := 0, 1 := 0];
    var counts := map k | k in ratings :: multiset(ratings)[k];
    initial + counts
  }

  /** With every rating in 1..5 the five counts add up to the number of ratings. */
  lemma {:induction false} CountsAddUp(xs: seq<int>)
    requires forall i :: 0 <= i < |xs| ==> RatingInRange(xs[i])
    ensures multiset(xs)[1] + multiset(xs)[2] + multiset(xs)[3] + multiset(xs)[4] + multiset(xs)[5] == |xs|
  {
    if xs != [] {
      var init := xs[..|xs| - 1];
      assert xs == init + [xs[|xs| - 1]];
      CountsAddUp(init);
    }
  }

  /** The reviews in reverse table order. */
  function NewestFirst(rs: seq<Review>): (r: seq<Review>)
    ensures |r| == |rs| && forall i :: 0 <= i < |rs| ==> r[i] == rs[|rs| - 1 - i]
    ensures multiset(r) == multiset(rs)
    ensures forall x :: x in r <==> x in rs
  {
    if rs == [] then []
    else
      assert rs == rs[..|rs| - 1] + [rs[|rs| - 1]];
      [rs[|rs| - 1]] + NewestFirst(rs[..|rs| - 1])
  }

  datatype ReviewsView = ReviewsView(reviews: seq<Review>, distribution: map<int, nat>)

  function AboutTutor(tutorId: Id): Review -> bool {
    (x: Review) => x.tutorId == tutorId
  }

  function WithStars(k: int): Review -> bool {
    (x: Review) => x.rating == k
  }

  /** `getTutorReviews`: the tutor's reviews, newest first, and how many of them
      gave each number of stars. */
  function TutorReviews(rs: seq<Review>, tutorId: Id): (v: ReviewsView)
    ensures forall x :: x in v.reviews <==> x in rs && x.tutorId == tutorId
    ensures multiset(v.reviews) == multiset(Filter(rs, AboutTutor(tutorId)))
    ensures v.reviews == NewestFirst(Filter(rs, AboutTutor(tutorId)))
  {
    var mine := NewestFirst(Filter(rs, AboutTutor(tutorId)));
    ReviewsView(mine, Distribution(RatingsIn(mine)))
  }

  /** The distribution counts the listed reviews by stars, and has every star
      from 1 to 5. */
  lemma TutorReviewsCounts(rs: seq<Review>, tutorId: Id)
    ensures var v := TutorReviews(rs, tutorId);
      && (forall k :: 1 <= k <= 5 ==> k in v.distribution)
      && (forall k :: k in v.distribution ==> v.distribution[k] == |Filter(v.reviews, WithStars(k))|)
  {
    var v := TutorReviews(rs, tutorId);
    forall k | k in v.distribution ensures v.distribution[k] == |Filter(v.reviews, WithStars(k))| {
      CountOfRating(v.reviews, k);
    }
  }

  /** With every rating in 1..5 the distribution has exactly the keys 1..5 and
      its counts add up to the number of ratings. */
  lemma DistributionTotal(xs: seq<int>)
    requires forall i :: 0 <= i < |xs| ==> RatingInRange(xs[i])
    ensures var d := Distribution(xs);
      && d.Keys == {1, 2, 3, 4, 5}
      && d[1] + d[2] + d[3] + d[4] + d[5] == |xs|
  {
    var d := Distribution(xs);
    CountsAddUp(xs);
    forall k | k in d ensures 1 <= k <= 5 {
      if k in xs {
        var i :| 0 <= i < |xs| && xs[i] == k;
      }
    }
  }

  /** With every stored rating in 1..5 the tutor's distribution has exactly the
      keys 1..5 and its counts add up to the number of reviews listed. */
  lemma TutorReviewsTotal(rs: seq<Review>, tutorId: Id)
    requires forall x :: x in rs ==> RatingInRange(x.rating)
    ensures var v := TutorReviews(rs, tutorId);
      && v.distribution.Keys == {1, 2, 3, 4, 5}
      && v.distribution[1] + v.distribution[2] + v.distribution[3] + v.distribution[4] + v.distribution[5] == |v.reviews|
  {
    var v := TutorReviews(rs, tutorId);
    var xs := RatingsIn(v.reviews);
    forall i | 0 <= i < |xs| ensures RatingInRange(xs[i]) {
      assert v.reviews[i] in v.reviews;
    }
    DistributionTotal(xs);
  }

  /** How many ratings equal `k`, counted two ways. */
  lemma {:induction false} CountOfRating(rs: seq<Review>, k: int)
    ensures multiset(RatingsIn(rs))[k] == |Filter(rs, WithStars(k))|
  {
    if rs != [] {
      CountOfRating(rs[1..], k);
      assert RatingsIn(rs) == [rs[0].rating] + RatingsIn(rs[1..]);
    }
  }
}
