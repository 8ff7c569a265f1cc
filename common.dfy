/** Shared vocabulary of the scheduling services: identifiers, the closed set of
    error kinds every service reports, optional request fields, and small
    sequence utilities standing in for the database's `findFirst`/`findMany`. */
module Common {

  /** Row identifiers generated by the database. */
  type Id = nat

  /** Identifiers of authenticated users, supplied by the identity provider. */
  type UserId = string

  datatype Option<T> = None | Some(value: T)

  /** One kind per `throw new Error(...)` of the services. */
  datatype Error =
    | TutorProfileNotFound     // "Tutor profile not found"
    | InvalidDayOfWeek         // "Day of week must be between 0 (Sunday) and 6 (Saturday)"
    | InvalidTimeFormat        // "Invalid time format. Use HH:MM format (e.g., 09:00)"
    | InvalidStartTimeFormat   // "Invalid start time format. Use HH:MM format"
    | InvalidEndTimeFormat     // "Invalid end time format. Use HH:MM format"
    | EndNotAfterStart         // "End time must be after start time"
    | SlotOverlap              // "This time slot overlaps with an existing availability slot"
    | SlotNotFound             // "Availability slot not found"
    | Forbidden                // "You do not have permission to ..." / "You can only ... your own reviews"
    | TutorNotFound            // "Tutor not found"
    | TutorUnavailable         // "Tutor is not available for bookings"
    | PastDate                 // "Cannot book sessions in the past"
    | SlotTaken                // "This time slot is already booked"
    | InvalidRating            // "Rating must be between 1 and 5"
    | BookingNotFound          // "Booking not found"
    | NotYourBooking           // "You can only review your own bookings"
    | BookingNotCompleted      // "You can only review completed bookings"
    | AlreadyReviewed          // "You have already reviewed this booking"
    | ReviewNotFound           // "Review not found"
    | ProfileAlreadyExists     // "Tutor profile already exists"
    | RecordNotFound           // the database's own error when an update targets a missing row

  datatype Result<T> = Ok(value: T) | Err(error: Error)

  /** JavaScript truthiness of an optional string field: absent and "" are both falsy. */
  predicate Given(s: Option<string>) {
    s.Some? && s.value != ""
  }

  /** `s || fallback` on an optional string field. */
  function OrElse(s: Option<string>, fallback: string): (r: string)
    ensures Given(s) ==> r == s.value
    ensures !Given(s) ==> r == fallback
  {
    if Given(s) then s.value else fallback
  }

  /** `x !== undefined ? x : fallback`. */
  function GetOr<T>(x: Option<T>, fallback: T): (r: T)
    ensures x.Some? ==> r == x.value
    ensures x.None? ==> r == fallback
  {
    match x
    case Some(v) => v
    case None => fallback
  }

  /** Index of the first element satisfying `p`: the database's `findFirst` /
      `findUnique` over a table kept in insertion order. */
  function FindFirst<T>(s: seq<T>, p: T -> bool): (r: Option<nat>)
    ensures r.None? <==> forall i :: 0 <= i < |s| ==> !p(s[i])
    ensures r.Some? ==> r.value < |s| && p(s[r.value])
    ensures r.Some? ==> forall i :: 0 <= i < r.value ==> !p(s[i])
  {
    if s == [] then None
    else if p(s[0]) then Some(0)
    else
      match FindFirst(s[1..], p)
      case None => None
      case Some(i) => Some(i + 1)
  }

  /** The elements satisfying `p`, in their original order: a `findMany` with a `where`. */
  function Filter<T(!new)>(s: seq<T>, p: T -> bool): (r: seq<T>)
    ensures |r| <= |s|
    ensures forall x :: x in r <==> x in s && p(x)
    ensures multiset(r) <= multiset(s)
  {
    if s == [] then []
    else
      assert s == [s[0]] + s[1..];
      (if p(s[0]) then [s[0]] else []) + Filter(s[1..], p)
  }

  lemma {:induction false} FilterAppend<T(!new)>(a: seq<T>, b: seq<T>, p: T -> bool)
    ensures Filter(a + b, p) == Filter(a, p) + Filter(b, p)
  {
    if a == [] {
      assert a + b == b;
    } else {
      assert (a + b)[1..] == a[1..] + b;
      FilterAppend(a[1..], b, p);
    }
  }

  /** The sequence with its element at position `k` removed: a `delete` by id. */
  function RemoveAt<T>(s: seq<T>, k: nat): (r: seq<T>)
    requires k < |s|
    ensures |r| == |s| - 1
    ensures forall i :: 0 <= i < k ==> r[i] == s[i]
    ensures forall i :: k <= i < |r| ==> r[i] == s[i + 1]
    ensures multiset(r) + multiset{s[k]} == multiset(s)
  {
    assert s == s[..k] + [s[k]] + s[k + 1..];
    s[..k] + s[k + 1..]
  }

  /** No two positions of `s` carry the same key. */
  ghost predicate UniqueKeys<T, K>(s: seq<T>, key: T -> K) {
    forall i, j :: 0 <= i < j < |s| ==> key(s[i]) != key(s[j])
  }

  /** Every key of `s` is below `bound`. */
  ghost predicate KeysBelow<T>(s: seq<T>, key: T -> nat, bound: nat) {
    forall i :: 0 <= i < |s| ==> key(s[i]) < bound
  }

  /** Under unique keys, the element found by key is the only one with that key. */
  lemma FoundIsOnly<T, K>(s: seq<T>, key: T -> K, k: K, i: nat)
    requires UniqueKeys(s, key) && i < |s| && key(s[i]) == k
    ensures forall j :: 0 <= j < |s| && j != i ==> key(s[j]) != k
  {
  }

  lemma UniqueAfterRemove<T, K>(s: seq<T>, key: T -> K, k: nat)
    requires k < |s| && UniqueKeys(s, key)
    ensures UniqueKeys(RemoveAt(s, k), key)
  {
    var r := RemoveAt(s, k);
    forall i, j | 0 <= i < j < |r| ensures key(r[i]) != key(r[j]) {
      var i' := if i < k then i else i + 1;
      var j' := if j < k then j else j + 1;
      assert r[i] == s[i'] && r[j] == s[j'];
    }
  }

  lemma UniqueAfterAppend<T, K>(s: seq<T>, key: T -> K, x: T)
    requires UniqueKeys(s, key)
    requires forall i :: 0 <= i < |s| ==> key(s[i]) != key(x)
    ensures UniqueKeys(s + [x], key)
  {
  }
}
