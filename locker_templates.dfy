/**
 * The view model of the lockers page: how long ago each bag was checked in,
 * and the context handed to the page template.
 */
module LockerTemplates {
  import opened Wrappers
  import opened Text
  import opened LockerPersistence

  /** Rust's integer `/`, which truncates toward zero. */
  function TruncDiv(a: int, b: int): (q: int)
    requires b > 0
    ensures a >= 0 ==> q == a / b
    ensures a < 0 ==> q <= 0
  {
    if a >= 0 then a / b else -((-a) / b)
  }

  /** Rust's integer `%`, whose result takes the sign of the dividend. */
  function TruncMod(a: int, b: int): (m: int)
    requires b > 0
    ensures a >= 0 ==> m == a % b
    ensures a < 0 ==> -b < m <= 0
  {
    a - b * TruncDiv(a, b)
  }

  /** chrono's `num_seconds` of a duration given in milliseconds. */
  function NumSeconds(ms: int): (s: int)
    ensures ms >= 0 ==> s == ms / 1000
    ensures ms < 0 ==> s <= 0
  {
    TruncDiv(ms, 1000)
  }

  function NumMinutes(ms: int): (m: int)
    ensures ms >= 0 ==> m == ms / 60000
    ensures ms < 0 ==> m <= 0
  {
    assert ms >= 0 ==> (ms / 1000) / 60 == ms / 60000;
    TruncDiv(NumSeconds(ms), 60)
  }

  function NumHours(ms: int): (h: int)
    ensures ms >= 0 ==> h == ms / 3600000
    ensures ms < 0 ==> h <= 0
  {
    assert ms >= 0 ==> (ms / 1000) / 3600 == ms / 3600000;
    TruncDiv(NumSeconds(ms), 3600)
  }

  /** `format_duration` of a duration of `ms` milliseconds. */
  function FormatDuration(ms: int): (r: string)
    ensures r == "just now" <==> ms < 60000
  {
    var hours := NumHours(ms);
    var minutes := TruncMod(NumMinutes(ms), 60);
    WholeUnits(ms);
    if hours > 0 then
      var r := IntToString(hours) + "h " + IntToString(minutes) + "m ago";
      assert r[0] == IntToString(hours)[0];
      r
    else if minutes > 0 then
      var r := IntToString(minutes) + "m ago";
      assert r[0] == IntToString(minutes)[0];
      r
    else "just now"
  }

  /** For a non-negative duration the whole minutes and hours are plain quotients of the milliseconds. */
  lemma WholeUnits(ms: int)
    ensures ms >= 0 ==> NumMinutes(ms) == ms / 60000 && NumHours(ms) == NumMinutes(ms) / 60
  {
    if ms >= 0 {
      var s := ms / 1000;
      assert NumSeconds(ms) == s;
      assert s / 60 == ms / 60000;
      assert s / 3600 == (s / 60) / 60;
    }
  }

  /**
   * For a duration of at least an hour, the hours and minutes shown are the
   * whole minutes split at 60: minutes in 0..59 and hours * 60 + minutes is
   * the total.
   */
  lemma {:induction false} HoursAndMinutes(ms: int) returns (h: nat, m: nat)
    requires NumHours(ms) > 0
    ensures FormatDuration(ms) == NatToString(h) + "h " + NatToString(m) + "m ago"
    ensures m < 60 && h * 60 + m == ms / 60000
  {
    h := NumHours(ms);
    m := TruncMod(NumMinutes(ms), 60);
    var s := ms / 1000;
    assert NumSeconds(ms) == s;
    assert s / 60 == ms / 60000;
    assert h == s / 3600;
    assert s / 3600 == (s / 60) / 60;
  }

  /** Whole minutes under an hour: only the minutes are shown. */
  lemma {:induction false} MinutesOnly(ms: int) returns (m: nat)
    requires 60000 <= ms < 3600000
    ensures FormatDuration(ms) == NatToString(m) + "m ago"
    ensures 0 < m < 60 && m == ms / 60000
  {
    m := ms / 60000;
    assert NumHours(ms) == 0 && NumMinutes(ms) == m && TruncMod(m, 60) == m;
  }

  /** Under a minute, and any negative duration (a clock set back), reads "just now". */
  lemma {:induction false} JustNow(ms: int)
    requires ms < 60000
    ensures FormatDuration(ms) == "just now"
  {
    if ms >= 0 {
      assert NumSeconds(ms) == ms / 1000;
      assert (ms / 1000) / 60 == ms / 60000;
      assert NumSeconds(ms) < 3600;
    }
  }

  /** Ninety minutes read "1h 30m ago"; ninety seconds "1m ago". */
  lemma FormatExamples()
    ensures FormatDuration(90 * 60000) == "1" + "h " + "30" + "m ago"
    ensures FormatDuration(90 * 1000) == "1" + "m ago"
  {
    assert NumSeconds(90 * 60000) == 5400;
    assert NumHours(90 * 60000) == 1 && NumMinutes(90 * 60000) == 90;
    assert TruncMod(90, 60) == 30;
    assert IntToString(1) == "1" && IntToString(30) == "30";
    assert NumSeconds(90 * 1000) == 90;
    assert NumHours(90 * 1000) == 0 && NumMinutes(90 * 1000) == 1;
    assert TruncMod(1, 60) == 1;
  }

  /** One row of the lockers table as the template shows it. */
  datatype LockerDisplay = LockerDisplay(lockerNumber: i16, bagType: string, bagIcon: string, checkedInAgo: string)

  /** One choice of the bag-type picker. */
  datatype BagTypeDisplay = BagTypeDisplay(value: string, name: string)

  datatype IndexContext = IndexContext(lockers: seq<LockerDisplay>, bagTypes: seq<BagTypeDisplay>, errorMessage: Option<string>)

  /** `LockerDisplay::from`, reading the clock as `now` (milliseconds). */
  function DisplayOf(locker: Locker, now: int): (r: LockerDisplay)
    ensures r.lockerNumber == locker.number
    ensures ParseBagType(locker.bagType.AsStr()) == Some(locker.bagType)
    ensures r.bagType == locker.bagType.DisplayName() && r.bagIcon == locker.bagType.IconPath()
    ensures r.checkedInAgo == FormatDuration(now - locker.checkedInAt)
  {
    LockerDisplay(locker.number, locker.bagType.DisplayName(), locker.bagType.IconPath(),
                  FormatDuration(now - locker.checkedInAt))
  }

  /** A bag checked in less than a minute ago, or stamped in the future, shows "just now". */
  lemma RecentCheckInJustNow(locker: Locker, now: int)
    requires now - locker.checkedInAt < 60000
    ensures DisplayOf(locker, now).checkedInAgo == "just now"
  {
    JustNow(now - locker.checkedInAt);
  }

  function BagTypeChoice(b: BagType): BagTypeDisplay {
    BagTypeDisplay(b.AsStr(), b.DisplayName())
  }

  /** `IndexContext::new` */
  function NewIndexContext(lockers: seq<Locker>, errorMessage: Option<string>, now: int): (r: IndexContext)
    ensures |r.lockers| == |lockers|
    ensures forall i :: 0 <= i < |lockers| ==> r.lockers[i] == DisplayOf(lockers[i], now)
    ensures r.errorMessage == errorMessage
  {
    IndexContext(seq(|lockers|, i requires 0 <= i < |lockers| => DisplayOf(lockers[i], now)),
                 [BagTypeChoice(PeakDesign30L), BagTypeChoice(StubbleAndCo20L)],
                 errorMessage)
  }

  /** The picker always offers exactly the two bag types, in fixed order, and every value parses back. */
  lemma BagTypeChoices(lockers: seq<Locker>, errorMessage: Option<string>, now: int)
    ensures var choices := NewIndexContext(lockers, errorMessage, now).bagTypes;
      |choices| == 2 &&
      choices[0] == BagTypeDisplay("PeakDesign30L", "Peak Design 30L") &&
      choices[1] == BagTypeDisplay("StubbleAndCo20L", "Stubble & Co 20L") &&
      forall i :: 0 <= i < 2 ==>
        (ParseBagType(choices[i].value).Some? && ParseBagType(choices[i].value).value.DisplayName() == choices[i].name)
  {
  }

  /** The page lists the occupied lockers in ascending number. */
  lemma IndexListsLockersInOrder(events: seq<Event>, now: int)
    ensures var ctx := NewIndexContext(SelectAllLockers(events), None, now);
      forall i, j :: 0 <= i < j < |ctx.lockers| ==> ctx.lockers[i].lockerNumber < ctx.lockers[j].lockerNumber
  {
  }
}
