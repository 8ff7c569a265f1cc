# Tutoring scheduler: verified model of the service layer

This project models the four services at the core of a tutoring backend:

- **Availability** (`Availability`): a tutor's weekly windows. Each window has a day of the week and "HH:MM" start and end times. A create validates the day, the time pattern and the minute range. It then refuses a window that an active window of the same tutor and day blocks. Update falls back to the stored values. Delete and toggle check ownership. The listing is ordered and grouped by day.
- **Bookings** (`Bookings`): a booking is created after four checks, in this order:
  1. the tutor exists;
  2. the tutor is available;
  3. the date is not in the past;
  4. no non-cancelled booking of that tutor on that date conflicts.

  The new booking is inserted as CONFIRMED.
- **Reviews** (`Reviews`): a student reviews a completed booking once, and may edit or delete the review. The tutor's stored `rating` (the mean) and `totalReviews` (the count) are recomputed after every create and delete, and after an edit that changes the rating. The per-star distribution is a query.
- **Tutor profiles** (`Tutors`): at most one profile per user. Profiles are created with defaults, updated field by field, and deleted. The public listing applies optional filters and puts the best rated first. A tutor's sessions are listed by date, and per-status statistics and earnings are computed.

The database is one object, `Tables.Db`. It holds:

- the four tables, as sequences in insertion order;
- a counter for fresh row ids.

The services are methods that take the `Db` and modify only the fields they write. `Db.Valid()` is kept by every operation. It says:

- row ids are unique and older than the counter;
- a user has at most one profile;
- stored windows are well-formed;
- review ratings are in 1..5, with at most one review per booking;
- every profile's stored rating and review count equal the mean and the count of its reviews.

Errors are values of a closed `Error` datatype, one kind per error the services throw. Queries are functions, except `GetMyAvailability`, whose grouping loop makes it a method. Scans of the source become loops with invariants (`FindBlockingSlot`, `FindConflictingBooking`, `GroupByDay`).

Supporting modules:

- `TimeOfDay`: the time pattern, the conversion to minutes after midnight, and the text order in which the database compares the stored times.
- `Conflict`: the two-clause overlap filter shared by availability and bookings.
- `Sorting`: the `orderBy` of the listings.
- `Common`: identifiers, `Option`/`Result` and sequence utilities.

**Where the code falls short of what its own comments announce, the model follows the code.**

- **The overlap rule.** Two half-open intervals overlap when `aStart < bEnd && bStart < aEnd`, compared in minutes. The code instead asks the database for `(es <= ns && ee > ns) || (es < ne && ee >= ne)`, with every comparison made on the stored text.
  - `Conflict.BlocksCharacterized` proves that, for zero-padded times and non-empty intervals on both sides, this blocks exactly the overlapping intervals that are not strictly inside the requested one.
  - `Conflict.ContainedIntervalMissed` and `Bookings.EnclosingBookingAccepted` exhibit the contained case: two accepted bookings of one tutor and date that overlap.
  - `Conflict.OneDigitOverlapMissed` and `TimeOfDay.OneDigitHourDisagrees` show that one-digit hours, which the pattern admits, put text order and minute order at odds. The disagreement cuts both ways: overlaps are missed (`Conflict.OneDigitOverlapMissed`), and windows and bookings that do not overlap at all are refused (`Conflict.MixedPaddingBlocksDisjoint`).
- **No double booking, no overlapping windows.** The code announces a check for overlapping slots (availability.service.ts:36) and one for conflicting bookings (booking.service.ts:28). Neither check excludes every overlap:
  - the contained case above;
  - updates are not re-checked against siblings (`Availability.UpdateMayCreateOverlap`);
  - toggling a window back on is not re-checked either.
- **The review write persists when the recomputation fails.** A review write and the recomputation that follows it are separate database calls, with no transaction around them. When the recomputation hits a missing profile, the review write has already happened.

## Model

| member | source | states |
|---|---|---|
| TimeOfDay.Minutes | src/modules/availability/availability.service.ts:27-30 | a time matching the pattern converts to a minute count below 1440, whose quotient and remainder by 60 are the hour and minute the text denotes |
| TimeOfDay.IsTime | src/modules/availability/availability.service.ts:21-24 | the anchored pattern: a matching text has four or five characters, with the colon third from the end |
| TimeOfDay.Less | src/modules/availability/availability.service.ts:42-49 | the database's comparison of stored times: lexicographic on code points, a proper prefix first (total and transitive by `LessTotal` and `LessTransitive`) |
| TimeOfDay.TwoDigitTime | src/modules/availability/availability.service.ts:21-30 | every minute of the day has a zero-padded "HH:MM" text that matches the pattern and converts back to that minute |
| TimeOfDay.TwoDigitRoundTrip | src/modules/availability/availability.service.ts:21-30 | every five-character time matching the pattern is the zero-padded text of its own minute count |
| TimeOfDay.TwoDigitOrder | src/modules/availability/availability.service.ts:42-49 | for zero-padded times, the database's text order and the minute order agree |
| TimeOfDay.OneDigitHourDisagrees | src/modules/availability/availability.service.ts:21-24 | the pattern admits "9:00", which is fewer minutes than "10:00" yet sorts after it as text |
| Conflict.BlocksCharacterized | src/modules/availability/availability.service.ts:42-49 | for zero-padded times and non-empty intervals, the two-clause filter blocks iff the intervals overlap and the existing one is not strictly inside the requested one |
| Conflict.BlocksSound | src/modules/availability/availability.service.ts:42-49 | for zero-padded times and a non-empty requested interval, whatever the filter blocks really overlaps it |
| Conflict.TouchingNeverBlocks | src/modules/availability/availability.service.ts:42-49 | for a request that is non-empty in text order, an interval ending where the request starts, or starting where it ends, never blocks it |
| Conflict.ContainedIntervalMissed | src/modules/availability/availability.service.ts:42-49 | 09:30-10:00 overlaps 09:00-11:00 but does not block it |
| Conflict.OneDigitOverlapMissed | src/modules/availability/availability.service.ts:42-49 | 8:00-10:00 overlaps 9:00-9:30 in minutes but does not block it under text order |
| Conflict.MixedPaddingBlocksDisjoint | src/modules/availability/availability.service.ts:42-49 | with mixed padding the filter blocks 10:00-11:00 against 09:00-9:30, two intervals that do not overlap in minutes |
| Conflict.Blocks | src/modules/availability/availability.service.ts:42-49 | the two-clause filter: the existing interval holds the requested start, or holds the requested end, compared as text |
| Tables.ProfileOfUser | src/modules/tutor/tutor.service.ts:5-7 | the lookup by user finds a profile of that user, and finds nothing exactly when no profile has that user |
| Tables.Average | src/modules/review/review.service.ts:206-219 | with no ratings the stored mean is 0; otherwise the mean times the count is the sum |
| Tables.RatingsOf | src/modules/review/review.service.ts:201-204 | the ratings of one tutor's reviews, each the rating of some review of that tutor |
| Tables.Sum | src/modules/review/review.service.ts:218 | the sum of the ratings; a sum of non-negative values is non-negative |
| Tables.Db.Valid | src/modules/review/review.service.ts:199-229 | the invariant every service keeps: unique ids below the counter, one profile per user, well-formed windows, ratings in 1..5 with one review per booking, and every stored aggregate equal to the mean and count of the tutor's reviews |
| Availability.CreateCheckErrors | src/modules/availability/availability.service.ts:11-55 | each error of the create (missing profile, day, format, range, overlap) occurs exactly when its check fails and every earlier check passed |
| Availability.CreateCheckOk | src/modules/availability/availability.service.ts:37-66 | an accepted create yields a well-formed window of the caller's own profile that no active window of that tutor and day blocks |
| Availability.CreateCheckIgnoresNonBlocking | src/modules/availability/availability.service.ts:37-51 | inactive windows, windows on other days and windows of other tutors never change the outcome of a create |
| Availability.CreateCheck | src/modules/availability/availability.service.ts:11-55 | the checks of the create in order; an accepted create carries the id of the caller's own profile, and a refusal is one of the five create errors |
| Availability.ScenarioTimes | src/modules/availability/availability.service.ts:42-49 | 09:00-10:00 blocks 09:30-10:30 and does not block the touching 10:00-11:00 |
| Availability.OverlapRefusedTouchingAccepted | src/modules/availability/availability.service.ts:37-66 | beside an active Monday 09:00-10:00, a create for 09:30-10:30 is refused as overlapping and one for 10:00-11:00 is accepted |
| Availability.FindBlockingSlot | src/modules/availability/availability.service.ts:37-51 | the scan returns the first window that blocks the request, or nothing exactly when none does |
| Availability.CreateAvailability | src/modules/availability/availability.service.ts:3-69 | a refused create changes nothing; an accepted one appends exactly one active window with the caller's tutor id, day and times; the database invariant is kept |
| Availability.OwnedSlot | src/modules/availability/availability.service.ts:114-121 | not-found exactly when no window has the id; permission refused exactly when the first window with the id belongs to a profile the caller does not own; success only for a window whose tutor profile belongs to the caller |
| Availability.OwnedBy | src/modules/availability/availability.service.ts:118-121 | the slot's tutor profile belongs to the caller: some profile with that id has the caller's user id |
| Availability.OwnerNeverRefused | src/modules/availability/availability.service.ts:114-121 | with unique profile ids, the owner of an existing window is never refused |
| Availability.Updated | src/modules/availability/availability.service.ts:152-160 | each supplied field (day, non-empty start or end time, active flag) is written and each unsupplied one keeps its stored value; id and tutor never change |
| Availability.UpdateCheck | src/modules/availability/availability.service.ts:124-149 | the validation of the update; a refusal is one of the four validation errors |
| Availability.UpdateCheckErrors | src/modules/availability/availability.service.ts:124-136 | the day is judged first, then the supplied start time's format, then the supplied end time's |
| Availability.UpdateWithStartOnly | src/modules/availability/availability.service.ts:128-149 | with only the start supplied, the update is accepted iff the day is valid when given, the start matches the pattern and lies before the stored end |
| Availability.UpdateWithEndOnly | src/modules/availability/availability.service.ts:128-149 | with only the end supplied, the update is accepted iff the day is valid when given, the end matches the pattern and lies after the stored start |
| Availability.UpdatePreservesWellFormed | src/modules/availability/availability.service.ts:124-160 | an accepted update keeps a well-formed window well-formed, with its id and tutor |
| Availability.UpdateWithoutTimesSkipsRange | src/modules/availability/availability.service.ts:124-158 | without a supplied time, the update is refused only for a bad day, and the stored times are kept |
| Availability.UpdateWithBothTimes | src/modules/availability/availability.service.ts:124-157 | with both times supplied, the update is accepted iff the day is valid when given, both times match the pattern and the end is after the start |
| Availability.UpdateMayCreateOverlap | src/modules/availability/availability.service.ts:152-160 | an update moving 09:00-10:00 to 09:30-10:30 is accepted, although it now overlaps an active 10:00-11:00 |
| Availability.UpdateAvailability | src/modules/availability/availability.service.ts:103-163 | errors in the source's order change nothing; on success exactly that window is replaced by its updated form, with the supplied fields written and the rest kept; the invariant is kept |
| Availability.DeleteAvailability | src/modules/availability/availability.service.ts:165-189 | errors change nothing; on success exactly that window is removed |
| Availability.Toggled | src/modules/availability/availability.service.ts:209-215 | the active flag flips and no other field changes |
| Availability.ToggleAvailability | src/modules/availability/availability.service.ts:191-218 | errors change nothing; on success only that window's flag flips |
| Availability.ToggleTwiceRestores | src/modules/availability/availability.service.ts:191-218 | two toggles by the owner leave the window table as it was |
| Availability.UniqueIdFound | src/modules/availability/availability.service.ts:107-112 | under unique ids, the lookup of a window's own id finds that window |
| Availability.SlotBeforeIsTotalPreorder | src/modules/availability/availability.service.ts:84 | ordering by day and then start text is total and transitive |
| Availability.OnDay | src/modules/availability/availability.service.ts:88-95 | a day's group holds exactly the listed windows of that day |
| Availability.GroupByDay | src/modules/availability/availability.service.ts:88-95 | every day present is a key, mapped to its windows in listing order; no other day is a key |
| Availability.GetMyAvailability | src/modules/availability/availability.service.ts:71-101 | no profile gives not-found; otherwise the caller's windows, ordered by day and start, and grouped by day, with a key exactly for each day that has a window |
| Bookings.TutorChecksFirst | src/modules/booking/booking.service.ts:7-17 | not-found iff no profile has the id, and unavailable iff the first such profile is unavailable, whatever the date and bookings |
| Bookings.BlocksRequest | src/modules/booking/booking.service.ts:29-43 | a booking that blocks a request is CONFIRMED or COMPLETED, never CANCELLED |
| Bookings.BookingCheck | src/modules/booking/booking.service.ts:7-47 | the checks of the create in order; an accepted request names an existing, available tutor and a date not before today; a refusal is one of the four booking errors |
| Bookings.PastDateExactlyBeforeToday | src/modules/booking/booking.service.ts:20-26 | for an available tutor, the past-date error occurs iff the date is before today, so today itself is accepted |
| Bookings.SlotTakenExactlyWhenBlocked | src/modules/booking/booking.service.ts:29-47 | past the first checks, the request is refused iff some non-cancelled booking of that tutor and date blocks it; otherwise it is accepted |
| Bookings.BookingCheckIgnoresNonBlocking | src/modules/booking/booking.service.ts:29-43 | cancelled bookings, other tutors' bookings and bookings on other dates never change the outcome |
| Bookings.FindConflictingBooking | src/modules/booking/booking.service.ts:29-43 | the scan returns the first conflicting booking, or nothing exactly when none conflicts |
| Bookings.CreateBooking | src/modules/booking/booking.service.ts:3-89 | a refused request changes nothing; an accepted one appends exactly one CONFIRMED booking with the requested fields, which no earlier booking blocks; the invariant is kept |
| Bookings.ScenarioTimes | src/modules/booking/booking.service.ts:34-41 | 09:00-09:30 blocks 09:15-09:45 but not the adjacent 09:30-10:00 |
| Bookings.AdjacentAcceptedOverlapRefused | src/modules/booking/booking.service.ts:29-47 | beside a CONFIRMED 09:00-09:30, 09:15-09:45 is refused as taken and 09:30-10:00 is accepted |
| Bookings.EnclosingBookingAccepted | src/modules/booking/booking.service.ts:29-47 | beside a CONFIRMED 09:30-10:00, a 09:00-11:00 request is accepted although the two overlap |
| Reviews.CreateReviewCheckCases | src/modules/review/review.service.ts:7-36 | each refusal occurs exactly when its check fails and every earlier one passed, in the order rating, booking, owner, status, existing review; a review is accepted iff the rating is in 1..5 and the booking is the caller's, COMPLETED and unreviewed; it takes the booking's tutor |
| Reviews.CreateReviewCheck | src/modules/review/review.service.ts:7-36 | the checks of the create in order; a refusal is one of the five review errors |
| Reviews.SumBounds | src/modules/review/review.service.ts:218 | the sum of ratings in 1..5 lies between their count and five times it |
| Reviews.AverageBounds | src/modules/review/review.service.ts:217-219 | the mean of ratings in 1..5 lies in [1, 5] |
| Reviews.RatingsOfInRange | src/modules/review/review.service.ts:200-204 | a tutor's ratings, read from a table of ratings in 1..5, are in 1..5 |
| Reviews.StoredRatingBounds | src/modules/review/review.service.ts:206-228 | an exact stored aggregate is 0 iff there are no reviews, and otherwise lies in [1, 5] |
| Reviews.WithRating | src/modules/review/review.service.ts:206-228 | the recomputed profile's rating and count agree with its reviews, and no other field changes |
| Reviews.RatingRefresh | src/modules/review/review.service.ts:199-229 | with no profile of that id the update fails; otherwise only that tutor's row changes, to its recomputed form |
| Reviews.RefreshRestoresConsistency | src/modules/review/review.service.ts:199-229 | when only that tutor's aggregate may be stale, after the refresh every aggregate is exact |
| Reviews.RecomputeRating | src/modules/review/review.service.ts:199-229 | writes 0 and 0 with no reviews, else the mean and count; only the profile table changes; afterwards the whole invariant holds |
| Reviews.ReviewAppended | src/modules/review/review.service.ts:39-46 | a review that passed the checks keeps ids and bookings unique and ratings in range |
| Reviews.OthersConsistentAfterAppend | src/modules/review/review.service.ts:39-65 | a new review leaves the aggregates of the other tutors exact |
| Reviews.CreateReview | src/modules/review/review.service.ts:3-68 | a refused create changes nothing; an accepted one appends the review and recomputes its tutor's aggregate; the invariant is kept |
| Reviews.OwnedReview | src/modules/review/review.service.ts:131-138 | not-found iff no review has the id; success only for the caller's own review, and always for the author of an existing review |
| Reviews.UpdateReviewCheck | src/modules/review/review.service.ts:118-138 | a supplied rating outside 1..5 is refused before any lookup; then not-found iff no review has the id; accepted iff the rating is acceptable and the found review is the caller's |
| Reviews.Edited | src/modules/review/review.service.ts:141-146 | a supplied rating or comment is written and an unsupplied one kept; the review's id, booking, tutor and author never change |
| Reviews.MovesRating | src/modules/review/review.service.ts:165 | the edit moves the rating exactly when the edited review's rating differs from the stored one |
| Reviews.EditKeepsRatings | src/modules/review/review.service.ts:141-167 | an edit that supplies no rating, or the same rating, leaves every tutor's ratings unchanged, so skipping the recomputation is sound |
| Reviews.EditTouchesOnlyItsTutor | src/modules/review/review.service.ts:141-167 | any edit leaves the ratings of every other tutor unchanged |
| Reviews.UpdateReview | src/modules/review/review.service.ts:118-170 | errors change nothing; on success the review holds the supplied rating and comment and keeps the rest, and the aggregate is recomputed only when the rating moved; the invariant is kept |
| Reviews.DeleteReview | src/modules/review/review.service.ts:172-196 | errors change nothing; on success exactly that review is removed and its tutor's aggregate recomputed |
| Reviews.Distribution | src/modules/review/review.service.ts:92-110 | the keys are 1..5 plus any rating present, and each maps to how many ratings equal it |
| Reviews.CountsAddUp | src/modules/review/review.service.ts:92-110 | with ratings in 1..5, the five counts add up to the number of ratings |
| Reviews.CountOfRating | src/modules/review/review.service.ts:92-98 | the count of a star among the ratings equals the number of reviews with that star |
| Reviews.NewestFirst | src/modules/review/review.service.ts:71-73 | the reviews in reverse creation order, with the same elements |
| Reviews.TutorReviews | src/modules/review/review.service.ts:70-116 | lists exactly the tutor's reviews, each once (a permutation of them), newest first |
| Reviews.TutorReviewsCounts | src/modules/review/review.service.ts:92-110 | every star from 1 to 5 has an entry, and each entry counts the listed reviews with that star |
| Reviews.DistributionTotal | src/modules/review/review.service.ts:92-110 | with ratings in 1..5, the keys are exactly 1..5 and the counts add up to the number of ratings |
| Reviews.TutorReviewsTotal | src/modules/review/review.service.ts:70-116 | with stored ratings in 1..5, the distribution has keys 1..5, whose counts add up to the number of reviews listed |
| Tutors.NewProfile | src/modules/tutor/tutor.service.ts:13-24 | the new profile has the caller's user id and stores every supplied field; missing lists default to empty and missing experience to 0; it is available with a zero aggregate |
| Tutors.NewProfileConsistent | src/modules/tutor/tutor.service.ts:13-24 | the zero aggregate of a fresh profile is exact |
| Tutors.CreateTutorProfile | src/modules/tutor/tutor.service.ts:3-38 | refused when the user already has a profile, and nothing changes; otherwise exactly one profile holding the supplied fields is appended; at most one profile per user is kept |
| Tutors.Changed | src/modules/tutor/tutor.service.ts:141-153 | each supplied field is written and each unsupplied one kept; the id, the user, the rating aggregate and the session count never change |
| Tutors.EmptyChangeKeepsProfile | src/modules/tutor/tutor.service.ts:141-153 | an update supplying no field leaves the profile as it was |
| Tutors.UpdateProfile | src/modules/tutor/tutor.service.ts:132-165 | no profile gives not-found and nothing changes; otherwise only the caller's profile changes, with the supplied fields written and the rest kept |
| Tutors.DeleteProfile | src/modules/tutor/tutor.service.ts:168-182 | no profile gives not-found; otherwise exactly the caller's profile is removed, and the user has no profile left |
| Tutors.HigherRatedIsTotalPreorder | src/modules/tutor/tutor.service.ts:88-90 | ordering by rating descending is total and transitive |
| Tutors.Listed | src/modules/tutor/tutor.service.ts:42-75 | a listed profile is available; without filters every available profile is listed |
| Tutors.ListTutors | src/modules/tutor/tutor.service.ts:41-94 | lists exactly the available profiles meeting each supplied filter (inclusive price bounds, minimum rating, category and subject), as a permutation of them, best rated first |
| Tutors.UnfilteredListsAllAvailable | src/modules/tutor/tutor.service.ts:42-44 | an unavailable tutor is never listed, and without filters every available tutor is |
| Tutors.LaterDateIsTotalPreorder | src/modules/tutor/tutor.service.ts:244 | ordering by date descending is total and transitive |
| Tutors.Sessions | src/modules/tutor/tutor.service.ts:221-248 | no profile gives not-found; otherwise exactly the tutor's bookings, of the given status when one is given, latest date first |
| Tutors.Stats | src/modules/tutor/tutor.service.ts:251-282 | no profile gives not-found; otherwise the total and per-status counts are the numbers of the tutor's bookings (with that status), they add up, the earnings are the price sum of the tutor's COMPLETED bookings, and the stored aggregates are reported |
| Tutors.StatusCountsAddUp | src/modules/tutor/tutor.service.ts:258-263 | the three per-status counts of a tutor add up to the tutor's total |
| Tutors.StatsWithoutBookings | src/modules/tutor/tutor.service.ts:258-270 | a tutor without bookings has every count and the earnings at zero |
| Tutors.EarningsIgnoreOthers | src/modules/tutor/tutor.service.ts:265-270 | a booking that is not the tutor's COMPLETED booking leaves the earnings unchanged, and another tutor's booking leaves every figure unchanged |
| Tutors.PriceSumAppend | src/modules/tutor/tutor.service.ts:270 | the earnings sum extends by the price of an added booking |
| Tutors.PriceSum | src/modules/tutor/tutor.service.ts:270 | the earnings sum; with non-negative prices it is non-negative |
| Tutors.StatsAfterNewBooking | src/modules/tutor/tutor.service.ts:258-270 | a new CONFIRMED booking adds one to the total and the confirmed count, and changes no other count and not the earnings |
| Tutors.EarningsGrowWithCompleted | src/modules/tutor/tutor.service.ts:265-270 | a COMPLETED booking of the tutor adds exactly its price to the earnings |

## Left out

- HTTP controllers, routes, the application wiring, the authentication library configuration and the admin seeding script. The model starts at the service functions, with the caller's user id as a parameter.
- The free-text `search` filter of `getAllTutors` (tutor.service.ts:47-53). Its case-insensitive `contains` over the user's name, the headline and the bio depends on the database collation, and the user table is not part of this model.
- `getTutorById` and `getMyProfile`. They are lookups plus `include` projections of related rows, and carry no rules beyond the not-found errors.
- `include`/`select` projections of every query. Results are the stored rows.
- Booking completion and cancellation, `getMyBookings` and `getBookingById`. They are commented out in the booking service, so status changes are not modelled.
- Concurrency. The scan-then-insert of the creates and the read-then-write of the rating recomputation are modelled as sequential steps, with no transactions and no interleaving.
- Floating point. Prices, hourly rates and the mean rating are `real`, so there is no rounding.
- Tables.Average: the rating is the exact mean of integer ratings. Non-integer or missing ratings, which the source's range check lets through, are not modelled.
- JavaScript `Date` and time zones. A booking date and "today" are whole day numbers, and "today" is a parameter rather than the clock.
- Untyped payloads. Fields that JavaScript would let through the range checks as `undefined`, non-integer or of the wrong type are modelled as typed values. An example is an `undefined` day of week, for which `undefined < 0` is false.
- The database schema is not part of this model. Five things are assumed in its place:
  - a new profile is available;
  - its rating, review count and session count start at 0;
  - ids are fresh;
  - a booking's status is one of CONFIRMED, COMPLETED and CANCELLED;
  - text columns compare by code point, which `TimeOfDay.Less` models.
- Foreign-key behaviour on delete. `Tutors.DeleteProfile` removes only the profile row; the windows, bookings and reviews of that tutor stay. A window whose profile is gone is refused to everyone (`Availability.OwnedBy`), where the source would fail on a missing relation.
- Reviews.NewestFirst: `createdAt` is not stored. Newest first is modelled as reverse insertion order.
- Tutors.ListTutors and Tutors.Sessions: ties in the ordering keep no particular order. Only "ordered and a permutation" is promised, as the database promises no more.
- `totalSessions` is never written by these services. It is carried as stored.
