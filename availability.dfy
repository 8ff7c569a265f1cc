/** The availability service: a tutor's weekly windows, created with a day,
    format, range and overlap check, updated with fall-back to the stored
    values, deleted, toggled, and listed grouped by day. */
module Availability {
  import opened Common
  import opened TimeOfDay
  import opened Conflict
  import opened Sorting
  import opened Tables

  /** The overlap filter of the create: an active slot of the same tutor on the
      same day that blocks the requested [startTime, endTime). */
  predicate BlocksNewSlot(s: Slot, tutorId: Id, day: int, startTime: string, endTime: string) {
    && s.tutorId == tutorId && s.dayOfWeek == day && s.isActive
    && Blocks(s.startTime, s.endTime, startTime, endTime)
  }

  /** The checks of `createAvailability`, in their order: the caller's profile,
      the day, the time format, the range, the overlap. `Ok` carries the tutor
      id the new slot gets. */
  function CreateCheck(profiles: seq<TutorProfile>, slots: seq<Slot>, userId: UserId,
                       day: int, startTime: string, endTime: string): (r: Result<Id>)
    ensures r.Ok? ==> exists k :: 0 <= k < |profiles| && profiles[k].userId == userId && profiles[k].id == r.value
    ensures r.Err? ==> r.error in {TutorProfileNotFound, InvalidDayOfWeek, InvalidTimeFormat, EndNotAfterStart, SlotOverlap}
  {
    match ProfileOfUser(profiles, userId)
    case None => Err(TutorProfileNotFound)
    case Some(k) =>
      var tutorId := profiles[k].id;
      if day < 0 || day > 6 then Err(InvalidDayOfWeek)
      else if !IsTime(startTime) || !IsTime(endTime) then Err(InvalidTimeFormat)
      else if Minutes(endTime) <= Minutes(startTime) then Err(EndNotAfterStart)
      else if exists i :: 0 <= i < |slots| && BlocksNewSlot(slots[i], tutorId, day, startTime, endTime)
      then Err(SlotOverlap)
      else Ok(tutorId)
  }

  /** Every rejection of the create, by its cause; the first failing check wins. */
  lemma CreateCheckErrors(profiles: seq<TutorProfile>, slots: seq<Slot>, userId: UserId,
                          day: int, startTime: string, endTime: string)
    ensures var r := CreateCheck(profiles, slots, userId, day, startTime, endTime);
      && (r == Err(TutorProfileNotFound) <==> forall i :: 0 <= i < |profiles| ==> profiles[i].userId != userId)
      && (r == Err(InvalidDayOfWeek) <==> ProfileOfUser(profiles, userId).Some? && !(0 <= day <= 6))
      && (r == Err(InvalidTimeFormat) <==>
            ProfileOfUser(profiles, userId).Some? && 0 <= day <= 6 && !(IsTime(startTime) && IsTime(endTime)))
      && (r == Err(EndNotAfterStart) <==>
            ProfileOfUser(profiles, userId).Some? && 0 <= day <= 6 && IsTime(startTime) && IsTime(endTime)
            && Minutes(endTime) <= Minutes(startTime))
      && (r == Err(SlotOverlap) <==>
            ProfileOfUser(profiles, userId).Some? && 0 <= day <= 6 && IsTime(startTime) && IsTime(endTime)
            && Minutes(startTime) < Minutes(endTime)
            && exists i :: 0 <= i < |slots| &&
                 BlocksNewSlot(slots[i], profiles[ProfileOfUser(profiles, userId).value].id, day, startTime, endTime))
  {
  }

  /** A create that passes its checks stores a well-formed slot of the caller's
      profile that no active slot of that tutor on that day blocks. */
  lemma CreateCheckOk(profiles: seq<TutorProfile>, slots: seq<Slot>, userId: UserId,
                      day: int, startTime: string, endTime: string)
    requires CreateCheck(profiles, slots, userId, day, startTime, endTime).Ok?
    ensures var tutorId := CreateCheck(profiles, slots, userId, day, startTime, endTime).value;
      && (exists k :: 0 <= k < |profiles| && profiles[k].userId == userId && profiles[k].id == tutorId)
      && SlotWellFormed(Slot(0, tutorId, day, startTime, endTime, true))
      && forall s :: s in slots && s.tutorId == tutorId && s.dayOfWeek == day && s.isActive ==>
           !Blocks(s.startTime, s.endTime, startTime, endTime)
  {
    var k := ProfileOfUser(profiles, userId).value;
    assert profiles[k].userId == userId;
  }

  /** Inactive slots, slots of other days and slots of other tutors never change
      the outcome of a create. */
  lemma CreateCheckIgnoresNonBlocking(profiles: seq<TutorProfile>, slots: seq<Slot>, x: Slot,
                                      userId: UserId, day: int, startTime: string, endTime: string)
    requires !x.isActive || x.dayOfWeek != day ||
             forall i :: 0 <= i < |profiles| && profiles[i].userId == userId ==> profiles[i].id != x.tutorId
    ensures CreateCheck(profiles, slots + [x], userId, day, startTime, endTime)
         == CreateCheck(profiles, slots, userId, day, startTime, endTime)
  {
    var s' := slots + [x];
    match ProfileOfUser(profiles, userId)
    case None =>
    case Some(k) =>
      var tutorId := profiles[k].id;
      assert !BlocksNewSlot(x, tutorId, day, startTime, endTime);
      if exists i :: 0 <= i < |s'| && BlocksNewSlot(s'[i], tutorId, day, startTime, endTime) {
        var i :| 0 <= i < |s'| && BlocksNewSlot(s'[i], tutorId, day, startTime, endTime);
        assert i < |slots| && s'[i] == slots[i];
      }
      if exists i :: 0 <= i < |slots| && BlocksNewSlot(slots[i], tutorId, day, startTime, endTime) {
        var i :| 0 <= i < |slots| && BlocksNewSlot(slots[i], tutorId, day, startTime, endTime);
        assert s'[i] == slots[i];
      }
  }

  /** The times of the scenario below: 09:00-10:00 blocks 09:30-10:30 but not
      the touching 10:00-11:00. */
  lemma ScenarioTimes()
    ensures Padded("09:30") && Padded("10:30") && Padded("10:00") && Padded("11:00")
    ensures Minutes("09:30") < Minutes("10:30") && Minutes("10:00") < Minutes("11:00")
    ensures Blocks("09:00", "10:00", "09:30", "10:30")
    ensures !Blocks("09:00", "10:00", "10:00", "11:00")
  {
    assert Padded("09:00") && Padded("10:00") && Padded("09:30") && Padded("10:30") && Padded("11:00");
    PaddedMinutes("09:00");
    PaddedMinutes("10:00");
    PaddedMinutes("09:30");
    PaddedMinutes("10:30");
    PaddedMinutes("11:00");
    BlocksCharacterized("09:00", "10:00", "09:30", "10:30");
    TwoDigitOrder("10:00", "11:00");
    TouchingNeverBlocks("09:00", "10:00", "10:00", "11:00");
  }

  /** A tutor with an active Monday window 09:00-10:00: a create for Monday
      09:30-10:30 is refused as overlapping, one for 10:00-11:00 is accepted. */
  lemma OverlapRefusedTouchingAccepted(profiles: seq<TutorProfile>, existing: Slot, userId: UserId)
    requires |profiles| == 1 && profiles[0].userId == userId
    requires existing == Slot(existing.id, profiles[0].id, 1, "09:00", "10:00", true)
    ensures CreateCheck(profiles, [existing], userId, 1, "09:30", "10:30") == Err(SlotOverlap)
    ensures CreateCheck(profiles, [existing], userId, 1, "10:00", "11:00") == Ok(profiles[0].id)
  {
    ScenarioTimes();
    assert BlocksNewSlot([existing][0], profiles[0].id, 1, "09:30", "10:30");
    assert !BlocksNewSlot([existing][0], profiles[0].id, 1, "10:00", "11:00");
  }

  /** The `findFirst` of the create: the position of the first slot that blocks
      the requested window. */
  method FindBlockingSlot(slots: seq<Slot>, tutorId: Id, day: int, startTime: string, endTime: string)
    returns (found: Option<nat>)
    ensures found.None? <==> forall i :: 0 <= i < |slots| ==> !BlocksNewSlot(slots[i], tutorId, day, startTime, endTime)
    ensures found.Some? ==> found.value < |slots| && BlocksNewSlot(slots[found.value], tutorId, day, startTime, endTime)
    ensures found.Some? ==> forall i :: 0 <= i < found.value ==> !BlocksNewSlot(slots[i], tutorId, day, startTime, endTime)
  {
    var i := 0;
    while i < |slots|
      invariant 0 <= i <= |slots|
      invariant forall j :: 0 <= j < i ==> !BlocksNewSlot(slots[j], tutorId, day, startTime, endTime)
    {
      if BlocksNewSlot(slots[i], tutorId, day, startTime, endTime) {
        return Some(i);
      }
      i := i + 1;
    }
    return None;
  }

  /** `createAvailability`: on success exactly one active slot is appended with
      the caller's tutor id and the given day and times; on failure nothing
      changes. */
  method CreateAvailability(db: Db, userId: UserId, day: int, startTime: string, endTime: string)
    returns (r: Result<Slot>)
    requires db.Valid()
    modifies db`slots, db`nextId
    ensures db.Valid()
    ensures var c := CreateCheck(old(db.profiles), old(db.slots), userId, day, startTime, endTime);
      match c
      case Err(e) =>
        r == Err(e) && db.slots == old(db.slots) && db.nextId == old(db.nextId)
      case Ok(tutorId) =>
        && r == Ok(Slot(old(db.nextId), tutorId, day, startTime, endTime, true))
        && db.slots == old(db.slots) + [r.value]
        && db.nextId == old(db.nextId) + 1
  {
    var k := ProfileOfUser(db.profiles, userId);
    if k.None? {
      return Err(TutorProfileNotFound);
    }
    var tutorId := db.profiles[k.value].id;
    if day < 0 || day > 6 {
      return Err(InvalidDayOfWeek);
    }
    if !IsTime(startTime) || !IsTime(endTime) {
      return Err(InvalidTimeFormat);
    }
    if Minutes(endTime) <= Minutes(startTime) {
      return Err(EndNotAfterStart);
    }
    var overlapping := FindBlockingSlot(db.slots, tutorId, day, startTime, endTime);
    if overlapping.Some? {
      return Err(SlotOverlap);
    }
    var slot := Slot(db.nextId, tutorId, day, startTime, endTime, true);
    UniqueAfterAppend(db.slots, SlotKey, slot);
    db.slots := db.slots + [slot];
    db.nextId := db.nextId + 1;
    r := Ok(slot);
  }

  /** The optional fields of an update request; `None` stands for `undefined`. */
  datatype SlotChanges = SlotChanges(
    dayOfWeek: Option<int>,
    startTime: Option<string>,
    endTime: Option<string>,
    isActive: Option<bool>)

  /** `slot.tutor.userId === userId`: the slot's tutor profile belongs to the caller. */
  predicate OwnedBy(profiles: seq<TutorProfile>, tutorId: Id, userId: UserId)
    ensures OwnedBy(profiles, tutorId, userId) ==>
      exists j :: 0 <= j < |profiles| && profiles[j].id == tutorId && profiles[j].userId == userId
  {
    match ProfileWithId(profiles, tutorId)
    case None => false
    case Some(p) => profiles[p].userId == userId
  }

  /** The lookup and ownership check shared by update, delete and toggle: the
      position of the slot, or why the caller may not touch it. Only the owner
      of the slot's tutor profile gets through; anyone else is refused. */
  function OwnedSlot(profiles: seq<TutorProfile>, slots: seq<Slot>, slotId: Id, userId: UserId)
    : (r: Result<nat>)
    ensures r.Ok? ==> r.value < |slots| && slots[r.value].id == slotId
    ensures r.Ok? ==> forall i :: 0 <= i < r.value ==> slots[i].id != slotId
    ensures r.Ok? ==> exists j :: 0 <= j < |profiles| && profiles[j].id == slots[r.value].tutorId
                                  && profiles[j].userId == userId
    ensures r == Err(SlotNotFound) <==> forall i :: 0 <= i < |slots| ==> slots[i].id != slotId
    ensures r == Err(Forbidden) <==>
      exists k :: 0 <= k < |slots| && slots[k].id == slotId && !OwnedBy(profiles, slots[k].tutorId, userId)
                  && forall i :: 0 <= i < k ==> slots[i].id != slotId
    ensures r.Err? ==> r.error in {SlotNotFound, Forbidden}
  {
    match SlotWithId(slots, slotId)
    case None => Err(SlotNotFound)
    case Some(k) =>
      assert forall k' :: (0 <= k' < |slots| && slots[k'].id == slotId
                           && forall i :: 0 <= i < k' ==> slots[i].id != slotId) ==> k' == k;
      if OwnedBy(profiles, slots[k].tutorId, userId) then Ok(k) else Err(Forbidden)
  }

  /** Conversely, with unique profile ids the owner of an existing slot is never
      refused: the caller whose profile the slot's tutor id names gets through. */
  lemma OwnerNeverRefused(profiles: seq<TutorProfile>, slots: seq<Slot>, slotId: Id, userId: UserId, j: nat)
    requires UniqueKeys(profiles, ProfileKey)
    requires j < |profiles| && profiles[j].userId == userId
    requires exists k :: 0 <= k < |slots| && slots[k].id == slotId && slots[k].tutorId == profiles[j].id
                         && forall i :: 0 <= i < k ==> slots[i].id != slotId
    ensures OwnedSlot(profiles, slots, slotId, userId).Ok?
  {
    var k :| 0 <= k < |slots| && slots[k].id == slotId && slots[k].tutorId == profiles[j].id
             && forall i :: 0 <= i < k ==> slots[i].id != slotId;
    var p := ProfileWithId(profiles, profiles[j].id).value;
    assert p == j;
  }

  /** The slot after an update: every field not supplied keeps its stored value
      (an empty time string counts as not supplied, as `||` does). */
  function Updated(s: Slot, ch: SlotChanges): (r: Slot)
    ensures r.id == s.id && r.tutorId == s.tutorId
    ensures ch.dayOfWeek.Some? ==> r.dayOfWeek == ch.dayOfWeek.value
    ensures ch.dayOfWeek.None? ==> r.dayOfWeek == s.dayOfWeek
    ensures Given(ch.startTime) ==> r.startTime == ch.startTime.value
    ensures !Given(ch.startTime) ==> r.startTime == s.startTime
    ensures Given(ch.endTime) ==> r.endTime == ch.endTime.value
    ensures !Given(ch.endTime) ==> r.endTime == s.endTime
    ensures ch.isActive.Some? ==> r.isActive == ch.isActive.value
    ensures ch.isActive.None? ==> r.isActive == s.isActive
    ensures ch == SlotChanges(None, None, None, None) ==> r == s
  {
    s.(dayOfWeek := GetOr(ch.dayOfWeek, s.dayOfWeek),
       startTime := OrElse(ch.startTime, s.startTime),
       endTime := OrElse(ch.endTime, s.endTime),
       isActive := GetOr(ch.isActive, s.isActive))
  }

  /** The validation of `updateAvailability` after the ownership check: the day
      when supplied, then, only when some time is supplied, each supplied time's
      format and the range of the supplied-or-stored pair. */
  function UpdateCheck(s: Slot, ch: SlotChanges): (r: Option<Error>)
    ensures r.Some? ==> r.value in {InvalidDayOfWeek, InvalidStartTimeFormat, InvalidEndTimeFormat, EndNotAfterStart}
  {
    if ch.dayOfWeek.Some? && (ch.dayOfWeek.value < 0 || ch.dayOfWeek.value > 6) then Some(InvalidDayOfWeek)
    else if Given(ch.startTime) || Given(ch.endTime) then
      if Given(ch.startTime) && !IsTime(ch.startTime.value) then Some(InvalidStartTimeFormat)
      else if Given(ch.endTime) && !IsTime(ch.endTime.value) then Some(InvalidEndTimeFormat)
      else
        var st := OrElse(ch.startTime, s.startTime);
        var et := OrElse(ch.endTime, s.endTime);
        // The stored times always match the pattern (Db.Valid); the guard keeps Minutes total.
        if IsTime(st) && IsTime(et) && Minutes(et) <= Minutes(st) then Some(EndNotAfterStart)
        else None
    else None
  }

  /** An update that passes its checks keeps a well-formed slot well-formed, and
      keeps its id and tutor. */
  lemma UpdatePreservesWellFormed(s: Slot, ch: SlotChanges)
    requires SlotWellFormed(s) && UpdateCheck(s, ch).None?
    ensures SlotWellFormed(Updated(s, ch))
    ensures Updated(s, ch).id == s.id && Updated(s, ch).tutorId == s.tutorId
  {
  }

  /** The range check runs only when a time is supplied: an update of the day
      or of the active flag alone is never rejected for its times. */
  lemma UpdateWithoutTimesSkipsRange(s: Slot, ch: SlotChanges)
    requires !Given(ch.startTime) && !Given(ch.endTime)
    ensures UpdateCheck(s, ch).None? <==> (ch.dayOfWeek.Some? ==> 0 <= ch.dayOfWeek.value <= 6)
    ensures Updated(s, ch).startTime == s.startTime && Updated(s, ch).endTime == s.endTime
  {
  }

  /** Each rejection of the update's validation, by its cause: the day first,
      then the start time's format, then the end time's; the range last. */
  lemma UpdateCheckErrors(s: Slot, ch: SlotChanges)
    ensures var r := UpdateCheck(s, ch);
      var dayOk := ch.dayOfWeek.Some? ==> 0 <= ch.dayOfWeek.value <= 6;
      && (r == Some(InvalidDayOfWeek) <==> !dayOk)
      && (r == Some(InvalidStartTimeFormat) <==> dayOk && Given(ch.startTime) && !IsTime(ch.startTime.value))
      && (r == Some(InvalidEndTimeFormat) <==>
            && dayOk && (Given(ch.startTime) ==> IsTime(ch.startTime.value))
            && Given(ch.endTime) && !IsTime(ch.endTime.value))
  {
  }

  /** With only the start supplied, the new start is judged against the stored
      end: accepted iff the day (when supplied) is valid, the start matches the
      pattern and lies before the stored end. */
  lemma UpdateWithStartOnly(s: Slot, ch: SlotChanges)
    requires SlotWellFormed(s)
    requires Given(ch.startTime) && !Given(ch.endTime)
    ensures UpdateCheck(s, ch).None? <==>
      && (ch.dayOfWeek.Some? ==> 0 <= ch.dayOfWeek.value <= 6)
      && IsTime(ch.startTime.value) && Minutes(ch.startTime.value) < Minutes(s.endTime)
    ensures Updated(s, ch).startTime == ch.startTime.value && Updated(s, ch).endTime == s.endTime
  {
  }

  /** With only the end supplied, the new end is judged against the stored start. */
  lemma UpdateWithEndOnly(s: Slot, ch: SlotChanges)
    requires SlotWellFormed(s)
    requires !Given(ch.startTime) && Given(ch.endTime)
    ensures UpdateCheck(s, ch).None? <==>
      && (ch.dayOfWeek.Some? ==> 0 <= ch.dayOfWeek.value <= 6)
      && IsTime(ch.endTime.value) && Minutes(s.startTime) < Minutes(ch.endTime.value)
    ensures Updated(s, ch).startTime == s.startTime && Updated(s, ch).endTime == ch.endTime.value
  {
  }

  /** An update that supplies both times is judged on those times alone: it is
      accepted iff the day (when supplied) is valid, both match the pattern and
      the end is after the start. The other slots are not consulted. */
  lemma UpdateWithBothTimes(s: Slot, ch: SlotChanges)
    requires Given(ch.startTime) && Given(ch.endTime)
    ensures UpdateCheck(s, ch).None? <==>
      && (ch.dayOfWeek.Some? ==> 0 <= ch.dayOfWeek.value <= 6)
      && IsTime(ch.startTime.value) && IsTime(ch.endTime.value)
      && Minutes(ch.startTime.value) < Minutes(ch.endTime.value)
    ensures Updated(s, ch).startTime == ch.startTime.value && Updated(s, ch).endTime == ch.endTime.value
  {
  }

  /** Hence an update can move a slot onto an active sibling: 09:00-10:00 moved
      to 09:30-10:30 beside an active 10:00-11:00 of the same tutor and day is
      accepted, and the two now overlap. */
  lemma UpdateMayCreateOverlap()
    ensures var ch := SlotChanges(None, Some("09:30"), Some("10:30"), None);
      var moved := Updated(Slot(1, 7, 1, "09:00", "10:00", true), ch);
      && UpdateCheck(Slot(1, 7, 1, "09:00", "10:00", true), ch).None?
      && moved.startTime == "09:30" && moved.endTime == "10:30"
      && Overlaps(Minutes("09:30"), Minutes("10:30"), Minutes("10:00"), Minutes("11:00"))
  {
    var ch := SlotChanges(None, Some("09:30"), Some("10:30"), None);
    assert Given(ch.startTime) && Given(ch.endTime);
    assert Padded("09:30") && Padded("10:30") && Padded("10:00") && Padded("11:00");
    PaddedMinutes("09:30");
    PaddedMinutes("10:30");
    PaddedMinutes("10:00");
    PaddedMinutes("11:00");
    UpdateWithBothTimes(Slot(1, 7, 1, "09:00", "10:00", true), ch);
  }

  /** `updateAvailability`: not-found and permission errors first, then the
      validation; on success only that slot changes, to `Updated(old, changes)`. */
  method UpdateAvailability(db: Db, slotId: Id, userId: UserId, ch: SlotChanges)
    returns (r: Result<Slot>)
    requires db.Valid()
    modifies db`slots
    ensures db.Valid()
    ensures var o := OwnedSlot(old(db.profiles), old(db.slots), slotId, userId);
      match o
      case Err(e) => r == Err(e) && db.slots == old(db.slots)
      case Ok(k) =>
        match UpdateCheck(old(db.slots)[k], ch)
        case Some(e) => r == Err(e) && db.slots == old(db.slots)
        case None =>
          && r == Ok(Updated(old(db.slots)[k], ch))
          && db.slots == old(db.slots)[k := r.value]
  {
    var o := OwnedSlot(db.profiles, db.slots, slotId, userId);
    if o.Err? {
      return Err(o.error);
    }
    var k := o.value;
    var check := UpdateCheck(db.slots[k], ch);
    if check.Some? {
      return Err(check.value);
    }
    assert db.slots[k] in db.slots;
    var slot := Updated(db.slots[k], ch);
    UpdatePreservesWellFormed(db.slots[k], ch);
    db.slots := db.slots[k := slot];
    r := Ok(slot);
  }

  /** `deleteAvailability`: removes exactly the slot with that id. */
  method DeleteAvailability(db: Db, slotId: Id, userId: UserId) returns (r: Result<bool>)
    requires db.Valid()
    modifies db`slots
    ensures db.Valid()
    ensures var o := OwnedSlot(old(db.profiles), old(db.slots), slotId, userId);
      match o
      case Err(e) => r == Err(e) && db.slots == old(db.slots)
      case Ok(k) => r == Ok(true) && db.slots == RemoveAt(old(db.slots), k)
  {
    var o := OwnedSlot(db.profiles, db.slots, slotId, userId);
    if o.Err? {
      return Err(o.error);
    }
    UniqueAfterRemove(db.slots, SlotKey, o.value);
    db.slots := RemoveAt(db.slots, o.value);
    r := Ok(true);
  }

  /** The slot with its active flag flipped and nothing else changed. */
  function Toggled(s: Slot): (t: Slot)
    ensures t.isActive != s.isActive
    ensures t.(isActive := s.isActive) == s
  {
    s.(isActive := !s.isActive)
  }

  /** `toggleAvailability`: flips the active flag of exactly that slot, without
      re-running the overlap check. */
  method ToggleAvailability(db: Db, slotId: Id, userId: UserId) returns (r: Result<Slot>)
    requires db.Valid()
    modifies db`slots
    ensures db.Valid()
    ensures var o := OwnedSlot(old(db.profiles), old(db.slots), slotId, userId);
      match o
      case Err(e) => r == Err(e) && db.slots == old(db.slots)
      case Ok(k) => r == Ok(Toggled(old(db.slots)[k])) && db.slots == old(db.slots)[k := r.value]
  {
    var o := OwnedSlot(db.profiles, db.slots, slotId, userId);
    if o.Err? {
      return Err(o.error);
    }
    var k := o.value;
    assert db.slots[k] in db.slots;
    var slot := Toggled(db.slots[k]);
    db.slots := db.slots[k := slot];
    r := Ok(slot);
  }

  /** Two toggles by the owner leave the slot table as it was. */
  method ToggleTwiceRestores(db: Db, slotId: Id, userId: UserId)
    requires db.Valid()
    requires OwnedSlot(db.profiles, db.slots, slotId, userId).Ok?
    modifies db`slots
    ensures db.Valid() && db.slots == old(db.slots)
  {
    var k := OwnedSlot(db.profiles, db.slots, slotId, userId).value;
    var first := ToggleAvailability(db, slotId, userId);
    assert db.slots[k].id == slotId;
    assert OwnedSlot(db.profiles, db.slots, slotId, userId) == Ok(k) by {
      UniqueIdFound(db.slots, k);
    }
    var second := ToggleAvailability(db, slotId, userId);
  }

  /** Under unique ids, looking a slot up by its own id finds its position. */
  lemma UniqueIdFound(slots: seq<Slot>, k: nat)
    requires k < |slots| && UniqueKeys(slots, SlotKey)
    ensures SlotWithId(slots, slots[k].id) == Some(k)
  {
    FoundIsOnly(slots, SlotKey, slots[k].id, k);
  }

  /** The listing order: by day, then by start time as text. */
  predicate SlotBefore(a: Slot, b: Slot) {
    a.dayOfWeek < b.dayOfWeek || (a.dayOfWeek == b.dayOfWeek && AtMost(a.startTime, b.startTime))
  }

  lemma SlotBeforeIsTotalPreorder()
    ensures TotalPreorder(SlotBefore)
  {
    forall a: Slot, b: Slot ensures SlotBefore(a, b) || SlotBefore(b, a) {
      LessTotal(a.startTime, b.startTime);
    }
    forall a: Slot, b: Slot, c: Slot | SlotBefore(a, b) && SlotBefore(b, c) ensures SlotBefore(a, c) {
      if a.dayOfWeek == b.dayOfWeek == c.dayOfWeek && a.startTime != b.startTime && b.startTime != c.startTime {
        LessTransitive(a.startTime, b.startTime, c.startTime);
      }
    }
  }

  /** The slots of one day, in the order given (the `acc[day]` list). */
  function OnDay(slots: seq<Slot>, day: int): (r: seq<Slot>)
    ensures forall s :: s in r <==> s in slots && s.dayOfWeek == day
  {
    if slots == [] then []
    else
      var last := slots[|slots| - 1];
      assert slots == slots[..|slots| - 1] + [last];
      OnDay(slots[..|slots| - 1], day) + (if last.dayOfWeek == day then [last] else [])
  }

  lemma OnDayStep(slots: seq<Slot>, x: Slot)
    ensures forall d :: OnDay(slots + [x], d) == OnDay(slots, d) + (if x.dayOfWeek == d then [x] else [])
  {
    assert (slots + [x])[..|slots|] == slots;
  }

  /** The `reduce` that groups the listed slots by day into a fresh map: the
      days that occur are the keys, and each gets the list of its slots, in
      listing order. */
  method GroupByDay(slots: seq<Slot>) returns (groups: map<int, seq<Slot>>)
    ensures forall d :: d in groups ==> groups[d] == OnDay(slots, d) && groups[d] != []
    ensures forall d :: d !in groups ==> OnDay(slots, d) == []
  {
    groups := map[];
    var i := 0;
    while i < |slots|
      invariant 0 <= i <= |slots|
      invariant forall d :: d in groups ==> groups[d] == OnDay(slots[..i], d) && groups[d] != []
      invariant forall d :: d !in groups ==> OnDay(slots[..i], d) == []
    {
      var slot := slots[i];
      OnDayStep(slots[..i], slot);
      var day := slot.dayOfWeek;
      var prior := if day in groups then groups[day] else [];
      groups := groups[day := prior + [slot]];
      assert slots[..i + 1] == slots[..i] + [slot];
      i := i + 1;
    }
    assert slots[..i] == slots;
  }

  datatype WeekView = WeekView(slots: seq<Slot>, groupedByDay: map<int, seq<Slot>>)

  /** `getMyAvailability`: the caller's slots ordered by day and start time, and
      the same slots grouped by day. */
  method GetMyAvailability(db: Db, userId: UserId) returns (r: Result<WeekView>)
    ensures ProfileOfUser(db.profiles, userId).None? ==> r == Err(TutorProfileNotFound)
    ensures ProfileOfUser(db.profiles, userId).Some? ==> r.Ok?
    ensures r.Ok? ==>
      var tutorId := db.profiles[ProfileOfUser(db.profiles, userId).value].id;
      && multiset(r.value.slots) == multiset(Filter(db.slots, (s: Slot) => s.tutorId == tutorId))
      && SortedBy(r.value.slots, SlotBefore)
      && (forall d :: d in r.value.groupedByDay ==>
            r.value.groupedByDay[d] == OnDay(r.value.slots, d) && r.value.groupedByDay[d] != [])
      && (forall d :: d !in r.value.groupedByDay ==> OnDay(r.value.slots, d) == [])
  {
    var k := ProfileOfUser(db.profiles, userId);
    if k.None? {
      return Err(TutorProfileNotFound);
    }
    var tutorId := db.profiles[k.value].id;
    var mine := Filter(db.slots, (s: Slot) => s.tutorId == tutorId);
    var listed := SortBy(mine, SlotBefore);
    SlotBeforeIsTotalPreorder();
    SortBySorted(mine, SlotBefore);
    var grouped := GroupByDay(listed);
    r := Ok(WeekView(listed, grouped));
  }
}
