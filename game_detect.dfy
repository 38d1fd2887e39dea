/**
 * The pure helpers of the USB plugin's game detector: the path builder,
 * the UMD id check, the state a game id implies, the seconds-since-1970
 * count from the real-time clock's calendar fields, and the choice between
 * the first detector that found a game and the "unknown game" fallback.
 * The detectors themselves (module lists, directory walks, file reads) are
 * inputs: each is given by the status it returned and the record it left.
 */
module GameDetect {
  import opened Common

  const STATE_XMB: nat := 0
  const STATE_GAME: nat := 1
  const STATE_HOMEBREW: nat := 2

  // ---------------------------------------------------------------------
  // build_path
  // ---------------------------------------------------------------------

  /** No two slashes in a row. */
  predicate NoDoubleSlash(s: seq<CChar>)
  {
    forall i :: 0 <= i < |s| - 1 ==> !(s[i] == '/' && s[i + 1] == '/')
  }

  predicate EndsWithSlash(s: seq<CChar>)
  {
    s != [] && s[|s| - 1] == '/'
  }

  predicate StartsWithSlash(s: seq<CChar>)
  {
    s != [] && s[0] == '/'
  }

  /**
   * `build_path`: the base without one trailing slash, then "/name" when
   * a non-empty name is given, then the suffix, preceded by a slash when
   * it has none and something comes before it.
   */
  function BuildPath(base: seq<CChar>, name: Option<seq<CChar>>, suffix: seq<CChar>): (r: seq<CChar>)
    ensures |suffix| <= |r| && r[|r| - |suffix|..] == suffix
    ensures EndsWithSlash(base) ==> base[..|base| - 1] <= r
    ensures !EndsWithSlash(base) ==> base <= r
  {
    var head := if EndsWithSlash(base) then base[..|base| - 1] else base;
    var hasName := name.Some? && name.value != [];
    var withName := if hasName then head + ['/'] + name.value else head;
    if suffix == [] then withName
    else if !StartsWithSlash(suffix) && (hasName || |base| > 0) then withName + ['/'] + suffix
    else withName + suffix
  }

  lemma {:induction false} JoinNoDouble(a: seq<CChar>, b: seq<CChar>)
    requires NoDoubleSlash(a) && NoDoubleSlash(b)
    requires !(EndsWithSlash(a) && StartsWithSlash(b))
    ensures NoDoubleSlash(a + b)
  {
    var s := a + b;
    forall i | 0 <= i < |s| - 1
      ensures !(s[i] == '/' && s[i + 1] == '/')
    {
      if i + 1 < |a| {
        assert s[i] == a[i] && s[i + 1] == a[i + 1];
      } else if i + 1 == |a| {
        assert s[i] == a[|a| - 1] && s[i + 1] == b[0];
      } else {
        assert s[i] == b[i - |a|] && s[i + 1] == b[i - |a| + 1];
      }
    }
  }

  lemma HeadNoSlash(base: seq<CChar>)
    requires NoDoubleSlash(base)
    ensures var head := if EndsWithSlash(base) then base[..|base| - 1] else base;
      NoDoubleSlash(head) && !EndsWithSlash(head)
  {
    if EndsWithSlash(base) && |base| >= 2 {
      assert base[|base| - 2] != '/';
    }
  }

  /**
   * A trailing slash on the base is never doubled, and a slash is put
   * before the suffix only where none is: pieces free of doubled slashes,
   * and a name with no slash at either end, give a path free of them.
   */
  lemma {:induction false} BuildPathNoDoubleSlash(base: seq<CChar>, name: Option<seq<CChar>>, suffix: seq<CChar>)
    requires NoDoubleSlash(base) && NoDoubleSlash(suffix)
    requires name.Some? ==> NoDoubleSlash(name.value) && !StartsWithSlash(name.value) && !EndsWithSlash(name.value)
    ensures NoDoubleSlash(BuildPath(base, name, suffix))
  {
    var head := if EndsWithSlash(base) then base[..|base| - 1] else base;
    HeadNoSlash(base);
    var hasName := name.Some? && name.value != [];
    var withName := if hasName then head + ['/'] + name.value else head;
    var slash: seq<CChar> := ['/'];
    assert NoDoubleSlash(slash);
    if hasName {
      JoinNoDouble(head, slash);
      JoinNoDouble(head + slash, name.value);
      assert withName == head + slash + name.value;
      assert withName[|withName| - 1] == name.value[|name.value| - 1];
    }
    assert !EndsWithSlash(withName);
    if suffix != [] {
      if !StartsWithSlash(suffix) && (hasName || |base| > 0) {
        JoinNoDouble(withName, slash);
        JoinNoDouble(withName + slash, suffix);
      } else {
        JoinNoDouble(withName, suffix);
      }
    }
  }

  const ICON_FILE: seq<CChar> := "ICON0.PNG"

  /**
   * The icon path the module detector builds from the game folder, as
   * written: the file name is passed with its own leading slash as the
   * `name` piece, so the builder puts a second slash before it.
   */
  function IconPathAsWritten(gamePath: seq<CChar>): (r: seq<CChar>)
  {
    BuildPath(gamePath, Some(['/'] + ICON_FILE), [])
  }

  /** The doubled slash: a game folder that does not end in one gets "//ICON0.PNG" appended. */
  lemma IconPathDoublesSlash(gamePath: seq<CChar>)
    requires !EndsWithSlash(gamePath)
    ensures IconPathAsWritten(gamePath) == gamePath + ['/', '/'] + ICON_FILE
    ensures !NoDoubleSlash(IconPathAsWritten(gamePath))
  {
    var r := IconPathAsWritten(gamePath);
    assert r == gamePath + ['/'] + (['/'] + ICON_FILE);
    assert r[|gamePath|] == '/' && r[|gamePath| + 1] == '/';
  }

  /** The icon path as `game_detect_get_icon` builds it: the file name as the suffix. */
  function IconPath(gamePath: seq<CChar>): (r: seq<CChar>)
  {
    BuildPath(gamePath, None, ICON_FILE)
  }

  /** The corrected icon path is the folder, one slash, and the file name. */
  lemma IconPathSingleSlash(gamePath: seq<CChar>)
    requires NoDoubleSlash(gamePath)
    ensures !EndsWithSlash(gamePath) && gamePath != [] ==> IconPath(gamePath) == gamePath + ['/'] + ICON_FILE
    ensures EndsWithSlash(gamePath) ==> IconPath(gamePath) == gamePath + ICON_FILE
    ensures NoDoubleSlash(IconPath(gamePath))
  {
    assert NoDoubleSlash(ICON_FILE) && !StartsWithSlash(ICON_FILE);
    BuildPathNoDoubleSlash(gamePath, None, ICON_FILE);
    if EndsWithSlash(gamePath) {
      assert gamePath[..|gamePath| - 1] + ['/'] == gamePath;
    }
  }

  // ---------------------------------------------------------------------
  // is_umd_game_id
  // ---------------------------------------------------------------------

  /** The character at i of a C string, or its terminator past the end. */
  function CharAt(s: seq<CChar>, i: nat): char
  {
    if i < |s| then s[i] else '\0'
  }

  predicate IsUpper(c: char) { 'A' <= c <= 'Z' }

  /** Letters and digits read through `CharAt` lie inside the string. */
  lemma CharsInside(id: seq<CChar>, p: nat)
    ensures (forall k :: 0 <= k < 4 ==> IsUpper(CharAt(id, k))) ==> 4 <= |id| && forall k :: 0 <= k < 4 ==> IsUpper(id[k])
    ensures (forall k :: p <= k < p + 5 ==> IsDigit(CharAt(id, k))) ==> p + 5 <= |id|
  {
    if forall k :: 0 <= k < 4 ==> IsUpper(CharAt(id, k)) {
      assert IsUpper(CharAt(id, 3));
      forall k | 0 <= k < 4 ensures IsUpper(id[k]) {
        assert IsUpper(CharAt(id, k));
      }
    }
    if forall k :: p <= k < p + 5 ==> IsDigit(CharAt(id, k)) {
      assert IsDigit(CharAt(id, p + 4));
    }
  }

  /**
   * `is_umd_game_id`: four upper-case letters, an optional hyphen, five
   * digits, then the end of the string or a space.
   */
  predicate IsUmdGameId(id: seq<CChar>): (b: bool)
    ensures b ==> 9 <= |id| && forall k :: 0 <= k < 4 ==> IsUpper(id[k])
  {
    CharsInside(id, 4);
    CharsInside(id, 5);
    && id != []
    && (forall k :: 0 <= k < 4 ==> IsUpper(CharAt(id, k)))
    && var p := if CharAt(id, 4) == '-' then 5 else 4;
    && (forall k :: p <= k < p + 5 ==> IsDigit(CharAt(id, k)))
    && (CharAt(id, p + 5) == '\0' || CharAt(id, p + 5) == ' ')
  }

  predicate AllUpper(s: seq<CChar>) { forall k :: 0 <= k < |s| ==> IsUpper(s[k]) }
  predicate AllDigits(s: seq<CChar>) { forall k :: 0 <= k < |s| ==> IsDigit(s[k]) }

  /** The shapes the check accepts, as pieces: letters, hyphen or not, digits, and a tail. */
  predicate UmdShape(id: seq<CChar>, letters: seq<CChar>, hyphen: seq<CChar>, digits: seq<CChar>, tail: seq<CChar>)
  {
    && |letters| == 4 && AllUpper(letters)
    && (hyphen == [] || hyphen == ['-'])
    && |digits| == 5 && AllDigits(digits)
    && (tail == [] || tail[0] == ' ' || tail[0] == '\0')
    && id == letters + hyphen + digits + tail
  }

  /** An id passes the check exactly when it splits into one of the accepted shapes. */
  lemma UmdGameIdShape(id: seq<CChar>)
    ensures IsUmdGameId(id) <==> exists letters, hyphen, digits, tail :: UmdShape(id, letters, hyphen, digits, tail)
  {
    if IsUmdGameId(id) {
      var p := if CharAt(id, 4) == '-' then 5 else 4;
      assert IsDigit(CharAt(id, p + 4));
      var h: seq<CChar> := if p == 5 then ['-'] else [];
      var letters, digits, tail := id[..4], id[p..p + 5], id[p + 5..];
      assert id == letters + h + digits + tail;
      forall k | 0 <= k < 4 ensures IsUpper(letters[k]) {
        assert IsUpper(CharAt(id, k));
      }
      forall k | 0 <= k < 5 ensures IsDigit(digits[k]) {
        assert IsDigit(CharAt(id, p + k));
      }
      assert tail != [] ==> tail[0] == CharAt(id, p + 5);
      assert UmdShape(id, letters, h, digits, tail);
    }
    forall letters, hyphen, digits, tail | UmdShape(id, letters, hyphen, digits, tail)
      ensures IsUmdGameId(id)
    {
      ShapeAccepted(id, letters, hyphen, digits, tail);
    }
  }

  lemma ShapeAccepted(id: seq<CChar>, letters: seq<CChar>, hyphen: seq<CChar>, digits: seq<CChar>, tail: seq<CChar>)
    requires UmdShape(id, letters, hyphen, digits, tail)
    ensures IsUmdGameId(id)
  {
    var h := |hyphen|;
    assert forall k :: 0 <= k < 4 ==> CharAt(id, k) == letters[k];
    assert CharAt(id, 4) == (if h == 1 then '-' else digits[0]);
    assert !IsDigit('-');
    var p := if CharAt(id, 4) == '-' then 5 else 4;
    assert p == 4 + h;
    assert forall k :: p <= k < p + 5 ==> CharAt(id, k) == digits[k - p];
    assert CharAt(id, p + 5) == (if tail == [] then '\0' else tail[0]);
  }

  // ---------------------------------------------------------------------
  // determine_state
  // ---------------------------------------------------------------------

  predicate HasPrefix(s: seq<CChar>, p: seq<CChar>)
  {
    |p| <= |s| && s[..|p|] == p
  }

  /** The region prefixes of disc and store ids. */
  predicate HasRegionPrefix(id: seq<CChar>)
  {
    HasPrefix(id, "UC") || HasPrefix(id, "UL") || HasPrefix(id, "NP") || HasPrefix(id, "SC") || HasPrefix(id, "SL")
  }

  predicate HasHomebrewPrefix(id: seq<CChar>)
  {
    HasPrefix(id, "HOMEBREW") || HasPrefix(id, "HB")
  }

  /**
   * `determine_state`: the menu for an empty id, a game for a region
   * prefix, homebrew for "HOMEBREW" or "HB", a game otherwise.
   */
  function DetermineState(id: seq<CChar>): (r: nat)
    ensures r == STATE_XMB || r == STATE_GAME || r == STATE_HOMEBREW
    ensures r == STATE_XMB <==> id == []
  {
    if id == [] then STATE_XMB
    else if HasRegionPrefix(id) then STATE_GAME
    else if HasHomebrewPrefix(id) then STATE_HOMEBREW
    else STATE_GAME
  }

  /**
   * The region test only confirms the default: the state is the menu
   * exactly for an empty id, homebrew exactly for the two homebrew
   * prefixes, and a game otherwise.
   */
  lemma StateByPrefix(id: seq<CChar>)
    ensures DetermineState(id) == STATE_XMB <==> id == []
    ensures DetermineState(id) == STATE_HOMEBREW <==> HasHomebrewPrefix(id)
    ensures DetermineState(id) == STATE_GAME <==> id != [] && !HasHomebrewPrefix(id)
  {
    if HasHomebrewPrefix(id) {
      assert id[0] == 'H' by {
        if HasPrefix(id, "HOMEBREW") { assert id[..8][0] == 'H'; } else { assert id[..2][0] == 'H'; }
      }
    }
    if HasRegionPrefix(id) {
      assert id[0] != 'H' by {
        assert id[..2][0] == id[0];
      }
    }
  }

  // ---------------------------------------------------------------------
  // get_unix_time
  // ---------------------------------------------------------------------

  /** The clock's calendar fields, each an unsigned short. */
  datatype DateTime = DateTime(year: nat, month: nat, day: nat, hour: nat, minute: nat, second: nat)

  predicate ValidFields(t: DateTime)
  {
    t.year < U16_LIMIT && t.day < U16_LIMIT && t.hour < U16_LIMIT && t.minute < U16_LIMIT && t.second < U16_LIMIT
  }

  /** The Gregorian leap rule. */
  predicate IsLeap(y: int)
  {
    y % 4 == 0 && (y % 100 != 0 || y % 400 == 0)
  }

  function YearDays(y: int): nat
  {
    if IsLeap(y) then 366 else 365
  }

  /** Days in the years from 1970 up to, not including, `year`. */
  function DaysBeforeYear(year: nat): (r: nat)
    ensures year >= 1970 ==> r <= 366 * (year - 1970)
  {
    if year <= 1970 then 0 else DaysBeforeYear(year - 1) + YearDays(year - 1)
  }

  const DAYS_IN_MONTH: seq<nat> := [31, 28, 31, 30, 31, 30, 31, 31, 30, 31, 30, 31]

  /** Days in the months before `month` of a year, February lengthened in a leap year. */
  function DaysBeforeMonth(month: nat, leap: bool): (r: nat)
    requires month <= 13
    ensures r <= 31 * month
  {
    if month <= 1 then 0
    else DaysBeforeMonth(month - 1, leap) + DAYS_IN_MONTH[month - 2] + (if month - 1 == 2 && leap then 1 else 0)
  }

  /**
   * `get_unix_time` on a clock reading: days before the year and the month,
   * plus the day of the month less one, as seconds with the time of day,
   * all in 32-bit unsigned arithmetic.  Months past 13 would read past the
   * month table.
   */
  function UnixSeconds(t: DateTime): (r: nat)
    requires t.month <= 13
    ensures r < U32_LIMIT
  {
    var days := (DaysBeforeYear(t.year) + DaysBeforeMonth(t.month, IsLeap(t.year)) + t.day - 1) % U32_LIMIT;
    (days * 86400 + t.hour * 3600 + t.minute * 60 + t.second) % U32_LIMIT
  }

  /** The count of leap years before `y`, from the rule. */
  function LeapsBefore(y: nat): int
  {
    if y == 0 then 0 else (y - 1) / 4 - (y - 1) / 100 + (y - 1) / 400
  }

  lemma DivStep(y: nat, d: nat)
    requires y >= 1 && d > 0
    ensures y / d - (y - 1) / d == (if y % d == 0 then 1 else 0)
  {
    var q, r := (y - 1) / d, (y - 1) % d;
    assert y - 1 == d * q + r;
    if r == d - 1 {
      assert y == d * (q + 1) + 0;
      DivUnique(y, d, q + 1, 0);
    } else {
      assert y == d * q + (r + 1);
      DivUnique(y, d, q, r + 1);
    }
  }

  lemma Divides(y: nat, a: nat, b: nat)
    requires a > 0 && b > 0 && y % (a * b) == 0
    ensures y % a == 0
  {
    var k := y / (a * b);
    assert y == (a * b) * k;
    assert y == a * (b * k) + 0;
    DivUnique(y, a, b * k, 0);
  }

  lemma LeapStep(y: nat)
    requires y >= 1
    ensures LeapsBefore(y + 1) - LeapsBefore(y) == (if IsLeap(y) then 1 else 0)
  {
    DivStep(y, 4);
    DivStep(y, 100);
    DivStep(y, 400);
    if y % 400 == 0 {
      Divides(y, 100, 4);
      Divides(y, 4, 100);
    } else if y % 100 == 0 {
      Divides(y, 4, 25);
    }
  }

  /** The year loop agrees with the closed-form count of leap days. */
  lemma {:induction false} DaysBeforeYearClosed(year: nat)
    requires year >= 1970
    ensures DaysBeforeYear(year) == 365 * (year - 1970) + LeapsBefore(year) - LeapsBefore(1970)
  {
    if year > 1970 {
      DaysBeforeYearClosed(year - 1);
      LeapStep(year - 1);
    }
  }

  /** The first second of 2000 is 946684800, as in Unix time. */
  lemma Y2K()
    ensures UnixSeconds(DateTime(2000, 1, 1, 0, 0, 0)) == 946684800
  {
    DaysBeforeYearClosed(2000);
    DivUnique(1999, 4, 499, 3);
    DivUnique(1999, 100, 19, 99);
    DivUnique(1999, 400, 4, 399);
    DivUnique(1969, 4, 492, 1);
    DivUnique(1969, 100, 19, 69);
    DivUnique(1969, 400, 4, 369);
    assert LeapsBefore(2000) == 484 && LeapsBefore(1970) == 477;
    assert DaysBeforeYear(2000) == 10957;
  }

  /** `get_unix_time`: 0 when the clock cannot be read, otherwise the loops over years and months. */
  method GetUnixTime(clock: Option<DateTime>) returns (r: nat)
    requires clock.Some? ==> clock.value.month <= 13 && ValidFields(clock.value)
    ensures clock.None? ==> r == 0
    ensures clock.Some? ==> r == UnixSeconds(clock.value)
  {
    if clock.None? {
      return 0;
    }
    var t := clock.value;
    var days := YearLoop(t.year);
    days := MonthLoop(days, t.month, IsLeap(t.year));
    days := (days + t.day - 1) % U32_LIMIT;
    r := (days * 86400 + t.hour * 3600 + t.minute * 60 + t.second) % U32_LIMIT;
  }

  /** The year loop of `get_unix_time`: the days of the years from 1970 up to `year`. */
  method YearLoop(year: nat) returns (days: nat)
    ensures days == DaysBeforeYear(year)
  {
    days := 0;
    var y := 1970;
    while y < year
      invariant 1970 <= y && (year >= 1970 ==> y <= year) && (year < 1970 ==> y == 1970)
      invariant days == DaysBeforeYear(y)
      decreases year - y
    {
      days := days + (if IsLeap(y) then 366 else 365);
      y := y + 1;
    }
  }

  /** The month loop of `get_unix_time`: `days` plus the days of the months before `month`. */
  method MonthLoop(start: nat, month: nat, leap: bool) returns (days: nat)
    requires month <= 13
    ensures days == start + DaysBeforeMonth(month, leap)
  {
    days := start;
    var m := 1;
    while m < month
      invariant 1 <= m <= 13 && (month >= 1 ==> m <= month) && (month < 1 ==> m == 1)
      invariant days == start + DaysBeforeMonth(m, leap)
      decreases month - m
    {
      days := days + DAYS_IN_MONTH[m - 1];
      if m == 2 && leap {
        days := days + 1;
      }
      m := m + 1;
    }
  }

  // ---------------------------------------------------------------------
  // game_detect_current
  // ---------------------------------------------------------------------

  /** The detector's record. */
  datatype GameInfo = GameInfo(gameId: seq<CChar>, title: seq<CChar>, state: nat, startTime: nat, hasIcon: bool)

  /** What the detector reports when every way of finding a game failed. */
  function Unknown(): (r: GameInfo)
  {
    GameInfo("UNKNOWN", "Unknown Game", STATE_GAME, 0, false)
  }

  /** The first detector, in order, that returned 0 with a non-empty id. */
  function FirstFound(results: seq<(int, GameInfo)>, i: nat): (r: Option<nat>)
    ensures r.Some? ==> i <= r.value < |results| && results[r.value].0 == 0 && results[r.value].1.gameId != []
    ensures r.Some? ==> forall k :: i <= k < r.value ==> !(results[k].0 == 0 && results[k].1.gameId != [])
    ensures r.None? ==> forall k :: i <= k < |results| ==> !(results[k].0 == 0 && results[k].1.gameId != [])
    decreases |results| - i
  {
    if i >= |results| then None
    else if results[i].0 == 0 && results[i].1.gameId != [] then Some(i)
    else FirstFound(results, i + 1)
  }

  /** `g_game_start_time`: the moment the detector first found a game. */
  class Detector {
    var startTime: nat

    /** `game_detect_init`. */
    constructor ()
      ensures startTime == 0
    {
      startTime := 0;
    }

    /**
     * `game_detect_current`, given what the UMD, ISO, EBOOT and module
     * detectors returned in turn and the clock reading: the first record
     * with a game id, its state set from the id and its start time the
     * time of the first detection; else the unknown game, leaving the start
     * time alone.
     */
    method Current(results: seq<(int, GameInfo)>, clock: nat) returns (info: GameInfo)
      modifies this`startTime
      ensures FirstFound(results, 0).None? ==> info == Unknown() && startTime == old(startTime)
      ensures FirstFound(results, 0).Some? ==>
        && startTime == (if old(startTime) == 0 then clock else old(startTime))
        && var found := results[FirstFound(results, 0).value].1;
        && info == found.(state := DetermineState(found.gameId), startTime := startTime)
    {
      var first := FirstFound(results, 0);
      if first.None? {
        return Unknown();
      }
      var found := results[first.value].1;
      if startTime == 0 {
        startTime := clock;
      }
      info := found.(state := DetermineState(found.gameId), startTime := startTime);
    }
  }
}
