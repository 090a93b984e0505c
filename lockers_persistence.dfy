/**
 * The locker log: an append-only table of check-in and check-out events.
 * A locker is occupied, and a bag checked in, when its latest event is a
 * check-in; the two insert operations guard the table with those queries.
 */
module LockerPersistence {
  import opened Wrappers
  import opened Text

  /** Postgres `smallint`, Rust `i16`. */
  type i16 = x: int | -0x8000 <= x < 0x8000

  datatype BagType = PeakDesign30L | StubbleAndCo20L {
    /** The name stored in the `bag_type` table. */
    function AsStr(): string {
      match this
      case PeakDesign30L => "PeakDesign30L"
      case StubbleAndCo20L => "StubbleAndCo20L"
    }

    function DisplayName(): string {
      match this
      case PeakDesign30L => "Peak Design 30L"
      case StubbleAndCo20L => "Stubble & Co 20L"
    }

    function IconPath(): string {
      match this
      case PeakDesign30L => "/assets/icons/peak-design.svg"
      case StubbleAndCo20L => "/assets/icons/stubble-co.svg"
    }
  }

  /**
   * `From<String>`: the bag type a stored name denotes. The source panics on
   * any other string; that is `None` here.
   */
  function ParseBagType(value: string): (r: Option<BagType>)
    ensures r.Some? ==> r.value.AsStr() == value
    ensures forall b: BagType :: value == b.AsStr() ==> r == Some(b)
  {
    match value
    case "PeakDesign30L" => Some(PeakDesign30L)
    case "StubbleAndCo20L" => Some(StubbleAndCo20L)
    case _ => None
  }

  datatype EventKind = CheckIn | CheckOut

  /** One row of `locker_event`; `occurredAt` is a timestamp in milliseconds. */
  datatype Event = Event(uid: nat, locker: i16, bag: BagType, kind: EventKind, occurredAt: int)

  /** A row of the occupied-lockers query. */
  datatype Locker = Locker(uid: nat, number: i16, bagType: BagType, checkedInAt: int)

  /** The log as the clock writes it: each event strictly later than the one before. */
  predicate Ordered(events: seq<Event>) {
    forall i, j :: 0 <= i < j < |events| ==> events[i].occurredAt < events[j].occurredAt
  }

  /** The most recently appended event of a locker. */
  function LatestForLocker(events: seq<Event>, n: i16): (r: Option<Event>)
    ensures r.Some? ==> r.value in events && r.value.locker == n
    ensures r.None? <==> forall e :: e in events ==> e.locker != n
  {
    if events == [] then None
    else if events[|events| - 1].locker == n then Some(events[|events| - 1])
    else
      assert events == events[..|events| - 1] + [events[|events| - 1]];
      LatestForLocker(events[..|events| - 1], n)
  }

  /** The most recently appended event of a bag. */
  function LatestForBag(events: seq<Event>, b: BagType): (r: Option<Event>)
    ensures r.Some? ==> r.value in events && r.value.bag == b
    ensures r.None? <==> forall e :: e in events ==> e.bag != b
  {
    if events == [] then None
    else
      var last := events[|events| - 1];
      var rest := events[..|events| - 1];
      assert events == rest + [last];
      if last.bag == b then Some(last) else LatestForBag(rest, b)
  }

  /** `is_locker_occupied`: the locker's latest event is a check-in (a locker with no events is free). */
  predicate Occupied(events: seq<Event>, n: i16) {
    var latest := LatestForLocker(events, n);
    latest.Some? && latest.value.kind == CheckIn
  }

  /** `is_bag_checked_in`: the bag's latest event is a check-in. */
  predicate BagCheckedIn(events: seq<Event>, b: BagType) {
    var latest := LatestForBag(events, b);
    latest.Some? && latest.value.kind == CheckIn
  }

  /** An appended event becomes the latest of its locker and its bag; no other latest event moves. */
  lemma {:induction false} LatestAfterAppend(events: seq<Event>, e: Event, n: i16, b: BagType)
    ensures LatestForLocker(events + [e], n) == if e.locker == n then Some(e) else LatestForLocker(events, n)
    ensures LatestForBag(events + [e], b) == if e.bag == b then Some(e) else LatestForBag(events, b)
  {
    assert (events + [e])[..|events|] == events;
  }

  /**
   * In a log written in time order, the latest event by position is the one
   * the queries pick with `ORDER BY occurred_at DESC`: every other event of
   * the same locker is strictly earlier.
   */
  lemma {:induction false} LatestIsNewest(events: seq<Event>, n: i16)
    requires Ordered(events)
    requires LatestForLocker(events, n).Some?
    ensures forall e :: e in events && e.locker == n && e != LatestForLocker(events, n).value ==>
      e.occurredAt < LatestForLocker(events, n).value.occurredAt
  {
    if events[|events| - 1].locker != n {
      var rest := events[..|events| - 1];
      OrderedPrefix(events);
      LatestIsNewest(rest, n);
      OtherLockerLast(events, n);
    } else {
      LastIsNewest(events);
    }
  }

  /** Dropping the last event keeps the log ordered. */
  lemma OrderedPrefix(events: seq<Event>)
    requires Ordered(events) && events != []
    ensures Ordered(events[..|events| - 1])
  {
  }

  /** When the last event is another locker's, the locker's events and its latest are those of the earlier log. */
  lemma OtherLockerLast(events: seq<Event>, n: i16)
    requires events != [] && events[|events| - 1].locker != n
    ensures LatestForLocker(events, n) == LatestForLocker(events[..|events| - 1], n)
    ensures forall e :: e in events && e.locker == n ==> e in events[..|events| - 1]
  {
    assert events == events[..|events| - 1] + [events[|events| - 1]];
  }

  /** In an ordered log every other event happened before the last one. */
  lemma LastIsNewest(events: seq<Event>)
    requires Ordered(events) && events != []
    ensures forall e :: e in events && e != events[|events| - 1] ==> e.occurredAt < events[|events| - 1].occurredAt
  {
    forall e | e in events && e != events[|events| - 1]
      ensures e.occurredAt < events[|events| - 1].occurredAt
    {
      var i :| 0 <= i < |events| && events[i] == e;
      assert i < |events| - 1;
    }
  }

  /** The message of a refused check-in, or `None` when the check-in goes through. */
  function CheckInError(events: seq<Event>, locker: i16, bag: BagType): Option<string> {
    if Occupied(events, locker) then Some("Locker #" + IntToString(locker) + " is already occupied")
    else if BagCheckedIn(events, bag) then Some(bag.DisplayName() + " is already checked in to another locker")
    else None
  }

  /** The log after a check-in attempt: one check-in appended, or unchanged when refused. */
  function CheckInAfter(events: seq<Event>, uid: nat, locker: i16, bag: BagType, at: int): seq<Event> {
    if CheckInError(events, locker, bag).Some? then events
    else events + [Event(uid, locker, bag, CheckIn, at)]
  }

  /** The message of a refused check-out, or `None` when the check-out goes through. */
  function CheckOutError(events: seq<Event>, locker: i16): Option<string> {
    if Occupied(events, locker) then None
    else Some("Locker #" + IntToString(locker) + " is not occupied")
  }

  /** The log after a check-out attempt: one check-out carrying the locker's bag, or unchanged. */
  function CheckOutAfter(events: seq<Event>, uid: nat, locker: i16, at: int): seq<Event> {
    if !Occupied(events, locker) then events
    else events + [Event(uid, locker, LatestForLocker(events, locker).value.bag, CheckOut, at)]
  }

  function LockerOf(e: Event): Locker {
    Locker(e.uid, e.locker, e.bag, e.occurredAt)
  }

  /** The occupied lockers numbered `n` and above, in ascending number. */
  function LockersFrom(events: seq<Event>, n: int): (r: seq<Locker>)
    requires -0x8000 <= n <= 0x8000
    ensures ListsLockersFrom(events, n, r)
    decreases 0x8000 - n
  {
    if n == 0x8000 then []
    else if Occupied(events, n) then
      PrependLocker(events, n, LockersFrom(events, n + 1));
      [LockerOf(LatestForLocker(events, n).value)] + LockersFrom(events, n + 1)
    else LockersFrom(events, n + 1)
  }

  /** `r` lists occupied lockers numbered `n` and above, in ascending number, each as its latest event has it. */
  predicate ListsLockersFrom(events: seq<Event>, n: int, r: seq<Locker>) {
    && (forall i :: 0 <= i < |r| ==> n <= r[i].number)
    && (forall i, j :: 0 <= i < j < |r| ==> r[i].number < r[j].number)
    && (forall i :: 0 <= i < |r| ==>
          Occupied(events, r[i].number) && r[i] == LockerOf(LatestForLocker(events, r[i].number).value))
  }

  /** An occupied locker `n` in front of a listing from `n + 1` gives a listing from `n`. */
  lemma PrependLocker(events: seq<Event>, n: int, rest: seq<Locker>)
    requires -0x8000 <= n < 0x8000 && Occupied(events, n) && ListsLockersFrom(events, n + 1, rest)
    ensures ListsLockersFrom(events, n, [LockerOf(LatestForLocker(events, n).value)] + rest)
  {
    var r := [LockerOf(LatestForLocker(events, n).value)] + rest;
    assert r[0].number == n;
    assert forall i :: 1 <= i < |r| ==> r[i] == rest[i - 1];
  }

  /**
   * `select_all_lockers`: exactly the occupied lockers, once each, in
   * ascending number, each with the bag and time of its latest event.
   */
  function SelectAllLockers(events: seq<Event>): (r: seq<Locker>)
    ensures forall i, j :: 0 <= i < j < |r| ==> r[i].number < r[j].number
    ensures forall i :: 0 <= i < |r| ==>
      Occupied(events, r[i].number) && r[i] == LockerOf(LatestForLocker(events, r[i].number).value)
  {
    LockersFrom(events, -0x8000)
  }

  /** Every occupied locker numbered `n` or above appears in `LockersFrom(events, n)`. */
  lemma {:induction false} LockersFromComplete(events: seq<Event>, n: int, m: i16) returns (i: nat)
    requires -0x8000 <= n <= m && Occupied(events, m)
    ensures i < |LockersFrom(events, n)| && LockersFrom(events, n)[i].number == m
    decreases 0x8000 - n
  {
    if n == m {
      i := 0;
      OccupiedFirst(events, n);
    } else {
      var j := LockersFromComplete(events, n + 1, m);
      i := LaterListed(events, n, j);
    }
  }

  /** An occupied locker `n` heads the listing from `n`. */
  lemma OccupiedFirst(events: seq<Event>, n: i16)
    requires Occupied(events, n)
    ensures 0 < |LockersFrom(events, n)| && LockersFrom(events, n)[0].number == n
  {
  }

  /** What the listing from `n + 1` holds at `j`, the listing from `n` holds at the returned place. */
  lemma LaterListed(events: seq<Event>, n: int, j: nat) returns (i: nat)
    requires -0x8000 <= n < 0x8000 && j < |LockersFrom(events, n + 1)|
    ensures i < |LockersFrom(events, n)| && LockersFrom(events, n)[i] == LockersFrom(events, n + 1)[j]
  {
    if Occupied(events, n) {
      i := j + 1;
    } else {
      i := j;
    }
  }

  /** A locker is listed by `select_all_lockers` exactly when it is occupied. */
  lemma ListedIffOccupied(events: seq<Event>, m: i16)
    ensures Occupied(events, m) <==> exists i :: 0 <= i < |SelectAllLockers(events)| && SelectAllLockers(events)[i].number == m
  {
    if Occupied(events, m) {
      assert SelectAllLockers(events) == LockersFrom(events, -0x8000);
      var i := LockersFromComplete(events, -0x8000, m);
    }
  }

  /**
   * No bag is in two lockers: every occupied locker's bag has that very
   * check-in as its latest event, and every checked-in bag's latest event is
   * its locker's latest event.
   */
  ghost predicate Consistent(events: seq<Event>) {
    (forall n: i16 :: Occupied(events, n) ==>
      LatestForBag(events, LatestForLocker(events, n).value.bag) == LatestForLocker(events, n)) &&
    (forall b: BagType :: BagCheckedIn(events, b) ==>
      LatestForLocker(events, LatestForBag(events, b).value.locker) == LatestForBag(events, b))
  }

  /** In a consistent log a bag is checked in exactly when some occupied locker holds it, and then only one. */
  lemma OneLockerPerBag(events: seq<Event>, b: BagType, n1: i16, n2: i16)
    requires Consistent(events)
    requires Occupied(events, n1) && Occupied(events, n2)
    requires LatestForLocker(events, n1).value.bag == b && LatestForLocker(events, n2).value.bag == b
    ensures n1 == n2 && BagCheckedIn(events, b)
  {
  }

  lemma BagCheckedInIsHeld(events: seq<Event>, b: BagType) returns (n: i16)
    requires Consistent(events) && BagCheckedIn(events, b)
    ensures Occupied(events, n) && LatestForLocker(events, n).value.bag == b
  {
    n := LatestForBag(events, b).value.locker;
  }

  lemma {:induction false} CheckInKeepsConsistent(events: seq<Event>, uid: nat, locker: i16, bag: BagType, at: int)
    requires Consistent(events)
    ensures Consistent(CheckInAfter(events, uid, locker, bag, at))
  {
    if CheckInError(events, locker, bag).None? {
      var e := Event(uid, locker, bag, CheckIn, at);
      var after := events + [e];
      forall n: i16 | Occupied(after, n)
        ensures LatestForBag(after, LatestForLocker(after, n).value.bag) == LatestForLocker(after, n)
      {
        var b' := LatestForLocker(after, n).value.bag;
        LatestAfterAppend(events, e, n, b');
        if n != locker {
          assert Occupied(events, n);
        }
      }
      forall b: BagType | BagCheckedIn(after, b)
        ensures LatestForLocker(after, LatestForBag(after, b).value.locker) == LatestForBag(after, b)
      {
        var m := LatestForBag(after, b).value.locker;
        LatestAfterAppend(events, e, m, b);
        if b != bag {
          assert BagCheckedIn(events, b);
          assert Occupied(events, m);
        }
      }
    }
  }

  lemma {:induction false} CheckOutKeepsConsistent(events: seq<Event>, uid: nat, locker: i16, at: int)
    requires Consistent(events)
    ensures Consistent(CheckOutAfter(events, uid, locker, at))
  {
    if Occupied(events, locker) {
      var held := LatestForLocker(events, locker).value;
      var e := Event(uid, locker, held.bag, CheckOut, at);
      var after := events + [e];
      assert LatestForBag(events, held.bag) == Some(held);
      forall n: i16 | Occupied(after, n)
        ensures LatestForBag(after, LatestForLocker(after, n).value.bag) == LatestForLocker(after, n)
      {
        var b' := LatestForLocker(after, n).value.bag;
        LatestAfterAppend(events, e, n, b');
        assert n != locker;
        assert Occupied(events, n);
      }
      forall b: BagType | BagCheckedIn(after, b)
        ensures LatestForLocker(after, LatestForBag(after, b).value.locker) == LatestForBag(after, b)
      {
        var m := LatestForBag(after, b).value.locker;
        LatestAfterAppend(events, e, m, b);
        assert b != held.bag;
        assert BagCheckedIn(events, b);
      }
    }
  }

  /** A request against the log. */
  datatype Request =
    | CheckInRequest(uid: nat, locker: i16, bag: BagType, at: int)
    | CheckOutRequest(uid: nat, locker: i16, at: int)

  function Apply(events: seq<Event>, req: Request): seq<Event> {
    match req
    case CheckInRequest(uid, locker, bag, at) => CheckInAfter(events, uid, locker, bag, at)
    case CheckOutRequest(uid, locker, at) => CheckOutAfter(events, uid, locker, at)
  }

  /** The log after a series of requests, starting from `events`. */
  function Run(events: seq<Event>, reqs: seq<Request>): seq<Event>
    decreases |reqs|
  {
    if reqs == [] then events else Run(Apply(events, reqs[0]), reqs[1..])
  }

  /** From an empty table, no series of requests ever puts one bag in two occupied lockers. */
  lemma {:induction false} NoBagInTwoLockers(reqs: seq<Request>, n1: i16, n2: i16)
    requires Occupied(Run([], reqs), n1) && Occupied(Run([], reqs), n2) && n1 != n2
    ensures LatestForLocker(Run([], reqs), n1).value.bag != LatestForLocker(Run([], reqs), n2).value.bag
  {
    RunKeepsConsistent([], reqs);
  }

  lemma {:induction false} RunKeepsConsistent(events: seq<Event>, reqs: seq<Request>)
    requires Consistent(events)
    ensures Consistent(Run(events, reqs))
    decreases |reqs|
  {
    if reqs != [] {
      ApplyKeepsConsistent(events, reqs[0]);
      RunKeepsConsistent(Apply(events, reqs[0]), reqs[1..]);
    }
  }

  lemma ApplyKeepsConsistent(events: seq<Event>, req: Request)
    requires Consistent(events)
    ensures Consistent(Apply(events, req))
  {
    match req
    case CheckInRequest(uid, locker, bag, at) => CheckInKeepsConsistent(events, uid, locker, bag, at);
    case CheckOutRequest(uid, locker, at) => CheckOutKeepsConsistent(events, uid, locker, at);
  }

  /** Requests stamped with strictly increasing times keep the log in time order. */
  lemma {:induction false} ApplyKeepsOrdered(events: seq<Event>, req: Request)
    requires Ordered(events)
    requires events == [] || events[|events| - 1].occurredAt < req.at
    ensures Ordered(Apply(events, req))
  {
  }

  /** After a check-out, the bag it released can be checked in to any free locker. */
  lemma {:induction false} CheckedOutBagCanReturn(events: seq<Event>, uid: nat, locker: i16, at: int, other: i16)
    requires Occupied(events, locker)
    requires !Occupied(CheckOutAfter(events, uid, locker, at), other)
    ensures CheckInError(CheckOutAfter(events, uid, locker, at), other, LatestForLocker(events, locker).value.bag) == None
  {
    var bag := LatestForLocker(events, locker).value.bag;
    LatestAfterAppend(events, Event(uid, locker, bag, CheckOut, at), other, bag);
  }

  /** The event log behind the lockers page. */
  class LockerStore {
    var events: seq<Event>

    /**
     * The table as the server writes it: stamped by a clock that moves
     * forward, so the latest event by position is the one `ORDER BY
     * occurred_at DESC` picks, and no bag is in two lockers.
     */
    ghost predicate Valid()
      reads this
    {
      Ordered(events) && Consistent(events)
    }

    constructor ()
      ensures events == [] && Valid()
    {
      events := [];
    }

    /** `select_all_lockers` */
    method SelectAll() returns (lockers: seq<Locker>)
      ensures lockers == SelectAllLockers(events)
    {
      lockers := SelectAllLockers(events);
    }

    /**
     * `insert_check_in_event`: refused when the locker is occupied, then when
     * the bag is checked in elsewhere; otherwise one check-in is appended.
     */
    method InsertCheckIn(uid: nat, locker: i16, bag: BagType, at: int) returns (r: Result<(), string>)
      requires Valid() && (events == [] || events[|events| - 1].occurredAt < at)
      modifies this
      ensures Valid()
      ensures Occupied(old(events), locker) ==>
        r == Err("Locker #" + IntToString(locker) + " is already occupied") && events == old(events)
      ensures !Occupied(old(events), locker) && BagCheckedIn(old(events), bag) ==>
        r == Err(bag.DisplayName() + " is already checked in to another locker") && events == old(events)
      ensures !Occupied(old(events), locker) && !BagCheckedIn(old(events), bag) ==>
        r == Ok(()) && events == old(events) + [Event(uid, locker, bag, CheckIn, at)]
      ensures events == CheckInAfter(old(events), uid, locker, bag, at)
      ensures r.Err? <==> CheckInError(old(events), locker, bag).Some?
    {
      if Occupied(events, locker) {
        return Err("Locker #" + IntToString(locker) + " is already occupied");
      }
      if BagCheckedIn(events, bag) {
        return Err(bag.DisplayName() + " is already checked in to another locker");
      }
      ApplyKeepsOrdered(events, CheckInRequest(uid, locker, bag, at));
      CheckInKeepsConsistent(events, uid, locker, bag, at);
      events := events + [Event(uid, locker, bag, CheckIn, at)];
      return Ok(());
    }

    /**
     * `insert_check_out_event`: refused when the locker is free; otherwise one
     * check-out is appended carrying the bag of the locker's latest event.
     */
    method InsertCheckOut(uid: nat, locker: i16, at: int) returns (r: Result<(), string>)
      requires Valid() && (events == [] || events[|events| - 1].occurredAt < at)
      modifies this
      ensures Valid()
      ensures !Occupied(old(events), locker) ==>
        r == Err("Locker #" + IntToString(locker) + " is not occupied") && events == old(events)
      ensures Occupied(old(events), locker) ==>
        r == Ok(()) &&
        events == old(events) + [Event(uid, locker, LatestForLocker(old(events), locker).value.bag, CheckOut, at)]
      ensures events == CheckOutAfter(old(events), uid, locker, at)
    {
      if !Occupied(events, locker) {
        return Err("Locker #" + IntToString(locker) + " is not occupied");
      }
      var bag := LatestForLocker(events, locker).value.bag;
      ApplyKeepsOrdered(events, CheckOutRequest(uid, locker, at));
      CheckOutKeepsConsistent(events, uid, locker, at);
      events := events + [Event(uid, locker, bag, CheckOut, at)];
      return Ok(());
    }
  }

  /**
   * Check in a Peak Design bag at 75, check it out, check it in at 80: the
   * bag is held at 80 and 75 is free.
   */
  lemma {:induction false} MovedBagExample()
    ensures var log := Run([], [CheckInRequest(1, 75, PeakDesign30L, 1000),
                                CheckOutRequest(2, 75, 2000),
                                CheckInRequest(3, 80, PeakDesign30L, 3000)]);
      log == [Event(1, 75, PeakDesign30L, CheckIn, 1000),
               Event(2, 75, PeakDesign30L, CheckOut, 2000),
               Event(3, 80, PeakDesign30L, CheckIn, 3000)] &&
      Occupied(log, 80) && !Occupied(log, 75) && LatestForLocker(log, 80).value.bag == PeakDesign30L
  {
    var e1 := Event(1, 75, PeakDesign30L, CheckIn, 1000);
    var e2 := Event(2, 75, PeakDesign30L, CheckOut, 2000);
    var e3 := Event(3, 80, PeakDesign30L, CheckIn, 3000);
    MovedBagLog(e1, e2, e3);
    LatestAfterAppend([e1, e2], e3, 80, PeakDesign30L);
    LatestAfterAppend([e1, e2], e3, 75, PeakDesign30L);
    LatestAfterAppend([e1], e2, 75, PeakDesign30L);
    assert [e1] + [e2] == [e1, e2];
  }

  /** The log the three requests of `MovedBagExample` write, one event per request. */
  lemma MovedBagLog(e1: Event, e2: Event, e3: Event)
    requires e1 == Event(1, 75, PeakDesign30L, CheckIn, 1000)
    requires e2 == Event(2, 75, PeakDesign30L, CheckOut, 2000)
    requires e3 == Event(3, 80, PeakDesign30L, CheckIn, 3000)
    ensures Run([], [CheckInRequest(1, 75, PeakDesign30L, 1000),
                     CheckOutRequest(2, 75, 2000),
                     CheckInRequest(3, 80, PeakDesign30L, 3000)]) == [e1, e2, e3]
  {
    var r1 := CheckInRequest(1, 75, PeakDesign30L, 1000);
    var r2 := CheckOutRequest(2, 75, 2000);
    var r3 := CheckInRequest(3, 80, PeakDesign30L, 3000);
    var reqs := [r1, r2, r3];
    assert reqs[1..] == [r2, r3] && [r2, r3][1..] == [r3] && [r3][1..] == [];
    MovedBagSteps(e1, e2, e3);
    assert Run([], reqs) == Run([e1], [r2, r3]);
    assert Run([e1], [r2, r3]) == Run([e1, e2], [r3]);
  }

  /** Each of the three requests of `MovedBagExample` appends its event. */
  lemma MovedBagSteps(e1: Event, e2: Event, e3: Event)
    requires e1 == Event(1, 75, PeakDesign30L, CheckIn, 1000)
    requires e2 == Event(2, 75, PeakDesign30L, CheckOut, 2000)
    requires e3 == Event(3, 80, PeakDesign30L, CheckIn, 3000)
    ensures Apply([], CheckInRequest(1, 75, PeakDesign30L, 1000)) == [e1]
    ensures Apply([e1], CheckOutRequest(2, 75, 2000)) == [e1, e2]
    ensures Apply([e1, e2], CheckInRequest(3, 80, PeakDesign30L, 3000)) == [e1, e2, e3]
  {
    assert !Occupied([], 75) && !BagCheckedIn([], PeakDesign30L);
    assert [] + [e1] == [e1];
    LatestAfterAppend([], e1, 75, PeakDesign30L);
    assert Occupied([e1], 75) && LatestForLocker([e1], 75) == Some(e1);
    assert [e1] + [e2] == [e1, e2];
    LatestAfterAppend([e1], e2, 80, PeakDesign30L);
    assert !Occupied([e1, e2], 80) && !BagCheckedIn([e1, e2], PeakDesign30L);
    assert [e1, e2] + [e3] == [e1, e2, e3];
  }

  /** A second check-in at an occupied locker is refused with the locker's number in the message. */
  lemma OccupiedLockerRefused(events: seq<Event>)
    requires events == [Event(1, 50, PeakDesign30L, CheckIn, 1000)]
    ensures CheckInError(events, 50, StubbleAndCo20L) == Some("Locker #" + "50" + " is already occupied")
  {
    LatestAfterAppend([], events[0], 50, PeakDesign30L);
    assert [] + [events[0]] == events;
    assert IntToString(50) == "50";
  }

  /** A check-in of a bag already held elsewhere is refused with the bag's display name. */
  lemma HeldBagRefused(events: seq<Event>)
    requires events == [Event(1, 100, PeakDesign30L, CheckIn, 1000)]
    ensures CheckInError(events, 200, PeakDesign30L) == Some("Peak Design 30L" + " is already checked in to another locker")
  {
    LatestAfterAppend([], events[0], 200, PeakDesign30L);
    assert [] + [events[0]] == events;
    assert !Occupied(events, 200) && BagCheckedIn(events, PeakDesign30L);
  }

  /** Checking out a locker that was never checked in is refused. */
  lemma UnoccupiedCheckOutRefused()
    ensures CheckOutError([], 999) == Some("Locker #" + "999" + " is not occupied")
  {
    assert IntToString(999) == "999";
  }
}
