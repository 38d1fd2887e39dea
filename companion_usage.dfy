/**
 * The desktop companion's usage tracker: the per-PSP playtime records kept
 * in its data file, the in-memory sessions of connected PSPs, the delta
 * accounting that saves a running session repeatedly, the high-water-mark
 * merge of the statistics a PSP uploads, and the per-title aggregations
 * read back out of the file.
 *
 * The data file is the `psps` field: loading it yields the field, saving it
 * replaces the field.  Clocks are parameters: `now` is the monotonic clock
 * in seconds, `stamp` and `today` the formatted local time and date,
 * `unixNow` the wall clock.
 */
module CompanionUsage {
  import opened Common
  import opened Protocol

  /** Sessions shorter than this are not recorded. */
  const MIN_SESSION_SECONDS: nat := 1

  datatype TrackedGame = TrackedGame(
    gameId: string, title: string, totalSeconds: nat, firstPlayed: string,
    lastPlayed: string, sessionCount: nat, playDates: set<string>,
    daily: map<string, nat>, hidden: bool)

  /** One PSP's games, keyed by "id:state" for sessions and by id for merged data. */
  type Games = map<string, TrackedGame>

  datatype ActiveSession = ActiveSession(gameId: string, title: string, state: PspState, startTime: nat, savedSeconds: nat)

  datatype PspTracker = PspTracker(name: string, session: Option<ActiveSession>)

  datatype Addr = Addr(ip: seq<Byte>, port: nat)

  /** The fields of a game update the tracker reads. */
  datatype Update = Update(gameId: string, title: string, state: PspState, pspName: string)

  function Get(m: map<string, nat>, k: string): nat
  {
    if k in m then m[k] else 0
  }

  function Max(a: nat, b: nat): nat { if a < b then b else a }

  function GamesOf(psps: map<string, Games>, name: string): Games
  {
    if name in psps then psps[name] else map[]
  }

  function Fresh(gameId: string, title: string, firstPlayed: string): TrackedGame
  {
    TrackedGame(gameId, title, 0, firstPlayed, "", 0, {}, map[], false)
  }

  /** The key a session's time is filed under: the id, a colon, and the state's number. */
  function GameKey(gameId: string, state: PspState): string
  {
    gameId + ":" + Decimal(StateCode(state) as nat)
  }

  /** `Instant::elapsed`, in whole seconds; never negative. */
  function Elapsed(start: nat, now: nat): nat
  {
    if now >= start then now - start else 0
  }

  function SaturatingSub(a: nat, b: nat): nat
  {
    if a >= b then a - b else 0
  }

  // ---------------------------------------------------------------------
  // Recording time
  // ---------------------------------------------------------------------

  /**
   * What `save_session` and `finish_session` write: the game entry created
   * if missing, `delta` seconds added to its total and to today's count,
   * today added to its dates, and, when a session ends, one more session.
   */
  function Record(games: Games, key: string, s: ActiveSession, delta: nat, stamp: string, today: string, finish: bool): (r: Games)
    ensures r.Keys == games.Keys + {key}
    ensures forall k :: k in games && k != key ==> r[k] == games[k]
  {
    var g := if key in games then games[key] else Fresh(s.gameId, s.title, stamp);
    games[key := g.(totalSeconds := g.totalSeconds + delta, lastPlayed := stamp,
                    sessionCount := if finish then g.sessionCount + 1 else g.sessionCount,
                    playDates := g.playDates + {today},
                    daily := g.daily[today := Get(g.daily, today) + delta])]
  }

  /** Recording adds the delta to the total and to the day, and one session when finishing. */
  lemma RecordAdds(games: Games, key: string, s: ActiveSession, delta: nat, stamp: string, today: string, finish: bool)
    ensures var before := if key in games then games[key] else Fresh(s.gameId, s.title, stamp);
      var after := Record(games, key, s, delta, stamp, today, finish)[key];
      && after.totalSeconds == before.totalSeconds + delta
      && Get(after.daily, today) == Get(before.daily, today) + delta
      && (forall d :: d != today ==> Get(after.daily, d) == Get(before.daily, d))
      && after.sessionCount == before.sessionCount + (if finish then 1 else 0)
      && today in after.playDates && before.playDates <= after.playDates
      && after.title == before.title && after.gameId == before.gameId
  {
  }

  /**
   * `save_session` on an elapsed time: the unsaved time since the last
   * save, and the new saved total, or nothing when under the minimum.
   */
  function Save(saved: nat, elapsed: nat): (r: (nat, nat))
  {
    var delta := SaturatingSub(elapsed, saved);
    if delta < MIN_SESSION_SECONDS then (saved, 0) else (elapsed, delta)
  }

  /** `finish_session`: the remaining unsaved time, or nothing for a session under the minimum. */
  function Finish(saved: nat, elapsed: nat): (r: Option<nat>)
  {
    if elapsed < MIN_SESSION_SECONDS then None else Some(SaturatingSub(elapsed, saved))
  }

  /** Repeated saves at the given elapsed times: the final saved total and the time recorded. */
  function SaveAll(saved: nat, readings: seq<nat>): (r: (nat, nat))
  {
    if readings == [] then (saved, 0)
    else
      var prev := SaveAll(saved, readings[..|readings| - 1]);
      var step := Save(prev.0, readings[|readings| - 1]);
      (step.0, prev.1 + step.1)
  }

  predicate Nondecreasing(readings: seq<nat>)
  {
    forall i, j :: 0 <= i < j < |readings| ==> readings[i] <= readings[j]
  }

  lemma {:induction false} SaveAllInvariant(readings: seq<nat>)
    requires Nondecreasing(readings)
    ensures SaveAll(0, readings).1 == SaveAll(0, readings).0
    ensures readings == [] ==> SaveAll(0, readings).0 == 0
    ensures readings != [] ==> SaveAll(0, readings).0 <= readings[|readings| - 1]
  {
    if readings != [] {
      var init := readings[..|readings| - 1];
      assert Nondecreasing(init);
      SaveAllInvariant(init);
    }
  }

  /**
   * The delta accounting is exact: however often a running session is
   * saved, on a clock that does not go back, the time recorded by the saves
   * and by the final finish together equal the session's elapsed time.
   */
  lemma SessionAccounting(readings: seq<nat>, final: nat)
    requires Nondecreasing(readings)
    requires forall i :: 0 <= i < |readings| ==> readings[i] <= final
    ensures var saved := SaveAll(0, readings);
      saved.1 + (match Finish(saved.0, final) case Some(d) => d case None => 0) == final
  {
    SaveAllInvariant(readings);
  }

  // ---------------------------------------------------------------------
  // The merge of uploaded statistics
  // ---------------------------------------------------------------------

  datatype DailyEntry = DailyEntry(date: string, secs: nat)

  /**
   * One element of the uploaded "games" array, its fields already chosen:
   * "game_id" or else "id", "seconds" or else "total_seconds", "sessions" or
   * else "session_count", each missing one read as empty or 0.
   */
  datatype RemoteGame = RemoteGame(gameId: string, title: string, seconds: nat, sessions: nat, daily: seq<DailyEntry>)

  /** The daily entries with a date, taking the larger count per date. */
  function MergeDaily(daily: map<string, nat>, dates: set<string>, entries: seq<DailyEntry>): (r: (map<string, nat>, set<string>))
  {
    if entries == [] then (daily, dates)
    else
      var prev := MergeDaily(daily, dates, entries[..|entries| - 1]);
      var e := entries[|entries| - 1];
      if e.date == "" then prev
      else (prev.0[e.date := Max(Get(prev.0, e.date), e.secs)], prev.1 + {e.date})
  }

  /** The largest count the entries give a date. */
  function MaxSecs(entries: seq<DailyEntry>, date: string): nat
  {
    if entries == [] then 0
    else
      var e := entries[|entries| - 1];
      Max(MaxSecs(entries[..|entries| - 1], date), if e.date == date then e.secs else 0)
  }

  function DatesOf(entries: seq<DailyEntry>): set<string>
  {
    set i | 0 <= i < |entries| && entries[i].date != "" :: entries[i].date
  }

  /**
   * Per date, the merged count is the larger of the local one and every
   * uploaded one, and the dates played gain exactly the uploaded dates.
   */
  lemma {:induction false} MergeDailyPointwise(daily: map<string, nat>, dates: set<string>, entries: seq<DailyEntry>)
    ensures var r := MergeDaily(daily, dates, entries);
      && r.0.Keys == daily.Keys + DatesOf(entries)
      && r.1 == dates + DatesOf(entries)
      && forall d :: d != "" ==> Get(r.0, d) == Max(Get(daily, d), MaxSecs(entries, d))
  {
    if entries != [] {
      var init := entries[..|entries| - 1];
      MergeDailyPointwise(daily, dates, init);
      DatesOfSnoc(entries);
    }
  }

  lemma DatesOfSnoc(entries: seq<DailyEntry>)
    requires entries != []
    ensures var e := entries[|entries| - 1];
      DatesOf(entries) == DatesOf(entries[..|entries| - 1]) + (if e.date == "" then {} else {e.date})
  {
    var init := entries[..|entries| - 1];
    var e := entries[|entries| - 1];
    forall x | x in DatesOf(entries) ensures x in DatesOf(init) + (if e.date == "" then {} else {e.date}) {
      var i :| 0 <= i < |entries| && entries[i].date != "" && entries[i].date == x;
      if i < |init| { assert init[i] == entries[i]; }
    }
    forall x | x in DatesOf(init) ensures x in DatesOf(entries) {
      var i :| 0 <= i < |init| && init[i].date != "" && init[i].date == x;
      assert entries[i] == init[i];
    }
  }

  /** The entry an uploaded game starts from: the stored one, or a new one titled from the upload. */
  function Prior(games: Games, rg: RemoteGame): TrackedGame
  {
    if rg.gameId in games then games[rg.gameId] else Fresh(rg.gameId, rg.title, "")
  }

  /**
   * One uploaded game: skipped without an id; otherwise the larger total
   * and session count, the title filled only when empty, and the daily
   * counts merged.  The second value is 1 when the total rose.
   */
  function MergeOne(games: Games, rg: RemoteGame): (r: (Games, nat))
  {
    if rg.gameId == "" then (games, 0)
    else
      var g := Prior(games, rg);
      var sessions := rg.sessions % U32_LIMIT;
      var merged := MergeDaily(g.daily, g.playDates, rg.daily);
      var g' := g.(totalSeconds := Max(g.totalSeconds, rg.seconds),
                   sessionCount := Max(g.sessionCount, sessions),
                   title := if g.title == "" && rg.title != "" then rg.title else g.title,
                   daily := merged.0, playDates := merged.1);
      (games[rg.gameId := g'], if rg.seconds > g.totalSeconds then 1 else 0)
  }

  /** The whole uploaded array, in order: the merged games and how many totals rose. */
  function MergeAll(games: Games, remote: seq<RemoteGame>): (r: (Games, nat))
    ensures r.1 <= |remote|
    ensures games.Keys <= r.0.Keys
  {
    if remote == [] then (games, 0)
    else
      var prev := MergeAll(games, remote[..|remote| - 1]);
      var step := MergeOne(prev.0, remote[|remote| - 1]);
      (step.0, prev.1 + step.1)
  }

  function Total(games: Games, k: string): nat
  {
    if k in games then games[k].totalSeconds else 0
  }

  function Sessions(games: Games, k: string): nat
  {
    if k in games then games[k].sessionCount else 0
  }

  /** The largest total the upload gives an id (entries without an id count for none). */
  function MaxSeconds(remote: seq<RemoteGame>, k: string): nat
  {
    if remote == [] then 0
    else
      var rg := remote[|remote| - 1];
      Max(MaxSeconds(remote[..|remote| - 1], k), if rg.gameId == k && k != "" then rg.seconds else 0)
  }

  function MaxSessions(remote: seq<RemoteGame>, k: string): nat
  {
    if remote == [] then 0
    else
      var rg := remote[|remote| - 1];
      Max(MaxSessions(remote[..|remote| - 1], k), if rg.gameId == k && k != "" then rg.sessions % U32_LIMIT else 0)
  }

  function IdsOf(remote: seq<RemoteGame>): set<string>
  {
    set i | 0 <= i < |remote| && remote[i].gameId != "" :: remote[i].gameId
  }

  /**
   * The high-water mark: after a merge every game's total and session
   * count are the larger of the local value and every uploaded value,
   * entries without an id are skipped, and games are only ever added.
   */
  lemma {:induction false} MergeHighWater(games: Games, remote: seq<RemoteGame>)
    ensures var r := MergeAll(games, remote).0;
      && r.Keys == games.Keys + IdsOf(remote)
      && (forall k :: Total(r, k) == Max(Total(games, k), MaxSeconds(remote, k)))
      && (forall k :: Sessions(r, k) == Max(Sessions(games, k), MaxSessions(remote, k)))
  {
    if remote != [] {
      var init := remote[..|remote| - 1];
      MergeHighWater(games, init);
      IdsSnoc(remote);
      MergeOneStep(MergeAll(games, init).0, remote[|remote| - 1]);
    }
  }

  /** One uploaded game raises its own entry to the high-water mark and touches no other. */
  lemma MergeOneStep(games: Games, rg: RemoteGame)
    ensures var r := MergeOne(games, rg).0;
      && r.Keys == games.Keys + (if rg.gameId == "" then {} else {rg.gameId})
      && (forall k :: Total(r, k) == Max(Total(games, k), if rg.gameId == k && k != "" then rg.seconds else 0))
      && (forall k :: Sessions(r, k) == Max(Sessions(games, k), if rg.gameId == k && k != "" then rg.sessions % U32_LIMIT else 0))
  {
  }

  lemma IdsSnoc(remote: seq<RemoteGame>)
    requires remote != []
    ensures var rg := remote[|remote| - 1];
      IdsOf(remote) == IdsOf(remote[..|remote| - 1]) + (if rg.gameId == "" then {} else {rg.gameId})
  {
    var init := remote[..|remote| - 1];
    var rg := remote[|remote| - 1];
    forall x | x in IdsOf(remote) ensures x in IdsOf(init) + (if rg.gameId == "" then {} else {rg.gameId}) {
      var i :| 0 <= i < |remote| && remote[i].gameId != "" && remote[i].gameId == x;
      if i < |init| { assert init[i] == remote[i]; }
    }
    forall x | x in IdsOf(init) ensures x in IdsOf(remote) {
      var i :| 0 <= i < |init| && init[i].gameId != "" && init[i].gameId == x;
      assert remote[i] == init[i];
    }
  }

  /** The count of an upload counts the uploaded games whose total rose, so it is 0 when none rose. */
  lemma {:induction false} MergeCountNoRise(games: Games, remote: seq<RemoteGame>)
    requires forall i :: 0 <= i < |remote| && remote[i].gameId != "" ==> remote[i].seconds <= Total(games, remote[i].gameId)
    ensures MergeAll(games, remote).1 == 0
    ensures forall k :: Total(MergeAll(games, remote).0, k) == Total(games, k)
  {
    if remote != [] {
      var init := remote[..|remote| - 1];
      forall i | 0 <= i < |init| && init[i].gameId != "" ensures init[i].seconds <= Total(games, init[i].gameId) {
        assert init[i] == remote[i];
      }
      MergeCountNoRise(games, init);
    }
  }

  /** The largest upload for an id is at least each of its entries. */
  lemma {:induction false} MaxSecondsBound(remote: seq<RemoteGame>, i: nat)
    requires i < |remote| && remote[i].gameId != ""
    ensures remote[i].seconds <= MaxSeconds(remote, remote[i].gameId)
  {
    if i < |remote| - 1 {
      var init := remote[..|remote| - 1];
      assert init[i] == remote[i];
      MaxSecondsBound(init, i);
    }
  }

  /** Uploading the same statistics twice changes no total the second time and counts nothing. */
  lemma MergeAgainCountsNothing(games: Games, remote: seq<RemoteGame>)
    ensures var once := MergeAll(games, remote).0;
      && MergeAll(once, remote).1 == 0
      && forall k :: Total(MergeAll(once, remote).0, k) == Total(once, k)
  {
    var once := MergeAll(games, remote).0;
    MergeHighWater(games, remote);
    forall i | 0 <= i < |remote| && remote[i].gameId != ""
      ensures remote[i].seconds <= Total(once, remote[i].gameId)
    {
      MaxSecondsBound(remote, i);
    }
    MergeCountNoRise(once, remote);
  }

  /** A merged game's daily counts are the larger of its local and uploaded ones, and its dates gain the uploaded dates. */
  lemma MergeOneDaily(games: Games, rg: RemoteGame)
    requires rg.gameId != ""
    ensures var g := Prior(games, rg);
      var after := MergeOne(games, rg).0[rg.gameId];
      && after.playDates == g.playDates + DatesOf(rg.daily)
      && (forall d :: d != "" ==> Get(after.daily, d) == Max(Get(g.daily, d), MaxSecs(rg.daily, d)))
      && after.title == (if g.title == "" then rg.title else g.title)
  {
    var g := Prior(games, rg);
    MergeDailyPointwise(g.daily, g.playDates, rg.daily);
  }

  // ---------------------------------------------------------------------
  // Aggregation by title
  // ---------------------------------------------------------------------

  type Pair = (string, nat)

  function TitlesOf(s: seq<Pair>): set<string>
  {
    set i | 0 <= i < |s| :: s[i].0
  }

  predicate DistinctTitles(s: seq<Pair>)
  {
    forall i, j :: 0 <= i < j < |s| ==> s[i].0 != s[j].0
  }

  /** The seconds the pairs give a title, added up. */
  function SumFor(s: seq<Pair>, t: string): nat
  {
    if s == [] then 0 else SumFor(s[..|s| - 1], t) + (if s[|s| - 1].0 == t then s[|s| - 1].1 else 0)
  }

  lemma {:induction false} SumForCons(p: Pair, s: seq<Pair>, t: string)
    ensures SumFor([p] + s, t) == (if p.0 == t then p.1 else 0) + SumFor(s, t)
  {
    if s != [] {
      assert ([p] + s)[..|s|] == [p] + s[..|s| - 1];
      SumForCons(p, s[..|s| - 1], t);
    } else {
      assert ([p] + s)[..0] == [];
    }
  }

  lemma {:induction false} SumForUpdate(s: seq<Pair>, i: nat, v: nat, t: string)
    requires i < |s|
    ensures SumFor(s[i := (s[i].0, v)], t) + (if s[i].0 == t then s[i].1 else 0) == SumFor(s, t) + (if s[i].0 == t then v else 0)
  {
    var u := s[i := (s[i].0, v)];
    if i < |s| - 1 {
      assert u[..|u| - 1] == s[..|s| - 1][i := (s[i].0, v)];
      SumForUpdate(s[..|s| - 1], i, v, t);
    } else {
      assert u[..|u| - 1] == s[..|s| - 1];
    }
  }

  lemma TitlesSnoc(s: seq<Pair>)
    requires s != []
    ensures TitlesOf(s) == TitlesOf(s[..|s| - 1]) + {s[|s| - 1].0}
  {
    var init := s[..|s| - 1];
    forall y | y in TitlesOf(s) ensures y in TitlesOf(init) + {s[|s| - 1].0} {
      var i :| 0 <= i < |s| && s[i].0 == y;
      if i < |init| { assert init[i] == s[i]; }
    }
    forall y | y in TitlesOf(init) ensures y in TitlesOf(s) {
      var i :| 0 <= i < |init| && init[i].0 == y;
      assert s[i] == init[i];
    }
  }

  lemma {:induction false} SumForAbsent(s: seq<Pair>, t: string)
    requires t !in TitlesOf(s)
    ensures SumFor(s, t) == 0
  {
    if s != [] {
      TitlesSnoc(s);
      SumForAbsent(s[..|s| - 1], t);
    }
  }

  /** In a list with one entry per title, an entry's seconds are that title's sum. */
  lemma {:induction false} SumForDistinct(s: seq<Pair>, j: nat)
    requires DistinctTitles(s) && j < |s|
    ensures SumFor(s, s[j].0) == s[j].1
  {
    var init := s[..|s| - 1];
    if j == |s| - 1 {
      assert s[j].0 !in TitlesOf(init);
      SumForAbsent(init, s[j].0);
    } else {
      assert init[j] == s[j];
      SumForDistinct(init, j);
    }
  }

  /** The position of a title in the aggregate, if there. */
  function Find(acc: seq<Pair>, t: string): (r: Option<nat>)
    ensures r.Some? ==> r.value < |acc| && acc[r.value].0 == t
    ensures r.None? ==> t !in TitlesOf(acc)
  {
    if acc == [] then None
    else if acc[|acc| - 1].0 == t then Some(|acc| - 1)
    else
      TitlesSnoc(acc);
      Find(acc[..|acc| - 1], t)
  }

  /** One step of the aggregation loop: add to the title's entry, or append a new one. */
  function AddTo(acc: seq<Pair>, p: Pair): (r: seq<Pair>)
    requires DistinctTitles(acc)
    ensures DistinctTitles(r)
    ensures TitlesOf(r) == TitlesOf(acc) + {p.0}
    ensures forall t :: SumFor(r, t) == SumFor(acc, t) + (if t == p.0 then p.1 else 0)
  {
    match Find(acc, p.0)
    case Some(i) =>
      var r := acc[i := (p.0, acc[i].1 + p.1)];
      assert TitlesOf(r) == TitlesOf(acc) by {
        forall x | x in TitlesOf(acc) ensures x in TitlesOf(r) {
          var j :| 0 <= j < |acc| && acc[j].0 == x;
          assert r[j].0 == x;
        }
      }
      assert forall t :: SumFor(r, t) == SumFor(acc, t) + (if t == p.0 then p.1 else 0) by {
        forall t ensures SumFor(r, t) == SumFor(acc, t) + (if t == p.0 then p.1 else 0) {
          SumForUpdate(acc, i, acc[i].1 + p.1, t);
        }
      }
      r
    case None =>
      var r := acc + [p];
      assert r[..|r| - 1] == acc;
      TitlesSnoc(r);
      r
  }

  /** Games aggregated by title in the order they are walked. */
  function Aggregate(pairs: seq<Pair>): (r: seq<Pair>)
    ensures DistinctTitles(r)
    ensures TitlesOf(r) == TitlesOf(pairs)
    ensures forall t :: SumFor(r, t) == SumFor(pairs, t)
  {
    if pairs == [] then []
    else
      var init := pairs[..|pairs| - 1];
      TitlesSnoc(pairs);
      AddTo(Aggregate(init), pairs[|pairs| - 1])
  }

  predicate SortedDesc(s: seq<Pair>)
  {
    forall i, j :: 0 <= i < j < |s| ==> s[i].1 >= s[j].1
  }

  /** Insertion after every entry with at least as many seconds, as a stable sort places it. */
  function InsertDesc(s: seq<Pair>, x: Pair): (r: seq<Pair>)
    requires SortedDesc(s)
    ensures Inserted(s, x, r)
  {
    if s == [] then
      assert [x][..0] == [];
      [x]
    else if s[0].1 >= x.1 then
      var rest := InsertDesc(s[1..], x);
      InsertBehind(s, x, rest);
      [s[0]] + rest
    else
      InsertFront(s, x);
      [x] + s
  }

  /** `r` is `s` with `x` put in, still largest first. */
  ghost predicate Inserted(s: seq<Pair>, x: Pair, r: seq<Pair>)
  {
    && SortedDesc(r) && |r| == |s| + 1
    && multiset(r) == multiset(s) + multiset{x}
    && TitlesOf(r) == TitlesOf(s) + {x.0}
    && (forall t :: SumFor(r, t) == SumFor(s, t) + (if x.0 == t then x.1 else 0))
    && (DistinctTitles(s) && x.0 !in TitlesOf(s) ==> DistinctTitles(r))
  }

  lemma InsertFront(s: seq<Pair>, x: Pair)
    requires SortedDesc(s) && s != [] && s[0].1 < x.1
    ensures Inserted(s, x, [x] + s)
  {
    var r := [x] + s;
    forall t ensures SumFor(r, t) == SumFor(s, t) + (if x.0 == t then x.1 else 0) {
      SumForCons(x, s, t);
    }
    assert TitlesOf(r) == TitlesOf(s) + {x.0} by {
      forall y | y in TitlesOf(r) ensures y in TitlesOf(s) + {x.0} {
        var i :| 0 <= i < |r| && r[i].0 == y;
        if i > 0 { assert s[i - 1].0 == y; }
      }
      forall y | y in TitlesOf(s) ensures y in TitlesOf(r) {
        var i :| 0 <= i < |s| && s[i].0 == y;
        assert r[i + 1].0 == y;
      }
      assert r[0].0 == x.0;
    }
    forall i, j | 0 <= i < j < |r| ensures r[i].1 >= r[j].1 {
      if i > 0 { assert r[i] == s[i - 1] && r[j] == s[j - 1]; }
      else { assert r[j] == s[j - 1] && s[0].1 >= s[j - 1].1; }
    }
  }

  lemma TitlesTail(s: seq<Pair>)
    requires s != []
    ensures TitlesOf(s) == TitlesOf(s[1..]) + {s[0].0}
  {
    forall y | y in TitlesOf(s) ensures y in TitlesOf(s[1..]) + {s[0].0} {
      var i :| 0 <= i < |s| && s[i].0 == y;
      if i > 0 { assert s[1..][i - 1].0 == y; }
    }
    forall y | y in TitlesOf(s[1..]) ensures y in TitlesOf(s) {
      var i :| 0 <= i < |s[1..]| && s[1..][i].0 == y;
      assert s[i + 1].0 == y;
    }
  }

  lemma InsertBehind(s: seq<Pair>, x: Pair, rest: seq<Pair>)
    requires SortedDesc(s) && s != [] && s[0].1 >= x.1
    requires Inserted(s[1..], x, rest)
    ensures Inserted(s, x, [s[0]] + rest)
  {
    BehindCounts(s, x, rest);
    BehindSorted(s, x, rest);
    if DistinctTitles(s) && x.0 !in TitlesOf(s) {
      BehindDistinct(s, x, rest);
    }
  }

  /** The elements, titles and sums of `s[0]` put in front of an insertion into `s[1..]`. */
  lemma BehindCounts(s: seq<Pair>, x: Pair, rest: seq<Pair>)
    requires s != [] && |rest| == |s[1..]| + 1
    requires multiset(rest) == multiset(s[1..]) + multiset{x}
    requires TitlesOf(rest) == TitlesOf(s[1..]) + {x.0}
    requires forall t :: SumFor(rest, t) == SumFor(s[1..], t) + (if x.0 == t then x.1 else 0)
    ensures var r := [s[0]] + rest;
      && multiset(r) == multiset(s) + multiset{x}
      && TitlesOf(r) == TitlesOf(s) + {x.0}
      && forall t :: SumFor(r, t) == SumFor(s, t) + (if x.0 == t then x.1 else 0)
  {
    var r := [s[0]] + rest;
    assert s == [s[0]] + s[1..];
    assert r[1..] == rest;
    TitlesTail(s);
    TitlesTail(r);
    forall t ensures SumFor(r, t) == SumFor(s, t) + (if x.0 == t then x.1 else 0) {
      SumForCons(s[0], rest, t);
      SumForCons(s[0], s[1..], t);
    }
  }

  lemma BehindSorted(s: seq<Pair>, x: Pair, rest: seq<Pair>)
    requires SortedDesc(s) && s != [] && s[0].1 >= x.1
    requires SortedDesc(rest) && multiset(rest) == multiset(s[1..]) + multiset{x}
    ensures SortedDesc([s[0]] + rest)
  {
    var r := [s[0]] + rest;
    forall j | 0 < j < |r| ensures r[0].1 >= r[j].1 {
      assert r[j] == rest[j - 1];
      assert rest[j - 1] in multiset(rest);
      if r[j] != x {
        assert r[j] in multiset(s[1..]);
        var k :| 0 <= k < |s[1..]| && s[1..][k] == r[j];
        assert s[k + 1] == r[j];
      }
    }
    forall i, j | 0 < i < j < |r| ensures r[i].1 >= r[j].1 {
      assert r[i] == rest[i - 1] && r[j] == rest[j - 1];
    }
  }

  lemma BehindDistinct(s: seq<Pair>, x: Pair, rest: seq<Pair>)
    requires s != [] && DistinctTitles(s) && x.0 !in TitlesOf(s)
    requires TitlesOf(rest) == TitlesOf(s[1..]) + {x.0}
    requires DistinctTitles(s[1..]) && x.0 !in TitlesOf(s[1..]) ==> DistinctTitles(rest)
    ensures DistinctTitles([s[0]] + rest)
  {
    var r := [s[0]] + rest;
    TitlesTail(s);
    assert DistinctTitles(s[1..]) by {
      forall i, j | 0 <= i < j < |s[1..]| ensures s[1..][i].0 != s[1..][j].0 {
        assert s[1..][i] == s[i + 1] && s[1..][j] == s[j + 1];
      }
    }
    assert s[0].0 !in TitlesOf(s[1..]);
    forall i, j | 0 <= i < j < |r| ensures r[i].0 != r[j].0 {
      if i == 0 {
        assert r[j] == rest[j - 1];
        assert r[j].0 in TitlesOf(rest);
      } else {
        assert r[i] == rest[i - 1] && r[j] == rest[j - 1];
      }
    }
  }

  /** `sort_by` on seconds, largest first, ties in their earlier order. */
  function SortDesc(s: seq<Pair>): (r: seq<Pair>)
    ensures SortedDesc(r) && |r| == |s|
    ensures multiset(r) == multiset(s)
    ensures TitlesOf(r) == TitlesOf(s)
    ensures forall t :: SumFor(r, t) == SumFor(s, t)
    ensures DistinctTitles(s) ==> DistinctTitles(r)
  {
    if s == [] then []
    else
      var init := s[..|s| - 1];
      var x := s[|s| - 1];
      assert s == init + [x];
      TitlesSnoc(s);
      assert DistinctTitles(s) ==> DistinctTitles(init) && x.0 !in TitlesOf(init);
      InsertDesc(SortDesc(init), x)
  }

  /** The (title, total) of every stored game with a title, in walking order. */
  function TitledTotals(games: seq<TrackedGame>): (r: seq<Pair>)
    ensures forall i :: 0 <= i < |r| ==> r[i].0 != ""
  {
    if games == [] then []
    else
      var g := games[|games| - 1];
      TitledTotals(games[..|games| - 1]) + (if g.title == "" then [] else [(g.title, g.totalSeconds)])
  }

  /**
   * `get_top_played`: every PSP's games, given in the order the maps are
   * walked, added up per non-empty title, largest first, cut to `count`.
   */
  function TopPlayed(games: seq<TrackedGame>, count: nat): (r: seq<Pair>)
    ensures |r| <= count
    ensures forall p :: p in r ==> p.0 in TitlesOf(TitledTotals(games))
  {
    Truncate(SortDesc(Aggregate(TitledTotals(games))), count)
  }

  /**
   * The top list holds distinct non-empty titles with their summed totals,
   * largest first, at most `count` of them, and no title left out has more
   * seconds than any title kept.
   */
  lemma TopPlayedSpec(games: seq<TrackedGame>, count: nat)
    ensures var r := TopPlayed(games, count);
      var pairs := TitledTotals(games);
      && |r| == Min(|TitlesOf(pairs)|, count)
      && SortedDesc(r) && DistinctTitles(r)
      && (forall j :: 0 <= j < |r| ==> r[j].0 != "" && r[j].1 == SumFor(pairs, r[j].0))
      && (forall t, j :: t in TitlesOf(pairs) - TitlesOf(r) && 0 <= j < |r| ==> SumFor(pairs, t) <= r[j].1)
  {
    var pairs := TitledTotals(games);
    var all := SortDesc(Aggregate(pairs));
    var r := TopPlayed(games, count);
    assert r == all[..|r|];
    DistinctCount(all);
    PrefixKeeps(all, |r|);
    forall j | 0 <= j < |r| ensures r[j].0 != "" && r[j].1 == SumFor(pairs, r[j].0) {
      assert r[j] == all[j];
      assert r[j].0 in TitlesOf(all);
      SumForDistinct(all, j);
    }
    forall t, j | t in TitlesOf(pairs) - TitlesOf(r) && 0 <= j < |r|
      ensures SumFor(pairs, t) <= r[j].1
    {
      LeftOut(all, |r|, t, j);
    }
  }

  lemma PrefixKeeps(s: seq<Pair>, n: nat)
    requires n <= |s| && SortedDesc(s) && DistinctTitles(s)
    ensures SortedDesc(s[..n]) && DistinctTitles(s[..n])
  {
  }

  /** In a list sorted largest first, a title past the first n has no more seconds than any of them. */
  lemma LeftOut(s: seq<Pair>, n: nat, t: string, j: nat)
    requires n <= |s| && SortedDesc(s) && DistinctTitles(s)
    requires t in TitlesOf(s) && t !in TitlesOf(s[..n]) && j < n
    ensures SumFor(s, t) <= s[j].1
  {
    var k :| 0 <= k < |s| && s[k].0 == t;
    SumForDistinct(s, k);
  }

  /** A list with one entry per title is as long as its set of titles. */
  lemma {:induction false} DistinctCount(s: seq<Pair>)
    requires DistinctTitles(s)
    ensures |TitlesOf(s)| == |s|
  {
    if s != [] {
      var init := s[..|s| - 1];
      assert DistinctTitles(init);
      DistinctCount(init);
      TitlesSnoc(s);
      assert s[|s| - 1].0 !in TitlesOf(init);
    }
  }

  /** The (title, seconds that day) of every titled game played on `date`. */
  function DatePairs(games: seq<TrackedGame>, date: string): (r: seq<Pair>)
    ensures forall i :: 0 <= i < |r| ==> r[i].0 != ""
  {
    if games == [] then []
    else
      var g := games[|games| - 1];
      DatePairs(games[..|games| - 1], date) + (if g.title == "" || date !in g.daily then [] else [(g.title, g.daily[date])])
  }

  /** `get_game_stats_for_date`: per title, the seconds played that day, largest first. */
  function StatsForDate(games: seq<TrackedGame>, date: string): (r: seq<Pair>)
    ensures SortedDesc(r) && DistinctTitles(r)
    ensures TitlesOf(r) == TitlesOf(DatePairs(games, date))
  {
    SortDesc(Aggregate(DatePairs(games, date)))
  }

  /**
   * The day's list has one entry per title played that day, holding the
   * seconds every game with that title was played on it, largest first.
   */
  lemma StatsForDateSpec(games: seq<TrackedGame>, date: string)
    ensures var r := StatsForDate(games, date);
      var pairs := DatePairs(games, date);
      && SortedDesc(r) && DistinctTitles(r)
      && TitlesOf(r) == TitlesOf(pairs)
      && (forall j :: 0 <= j < |r| ==> r[j].0 != "" && r[j].1 == SumFor(pairs, r[j].0))
  {
    var pairs := DatePairs(games, date);
    var r := StatsForDate(games, date);
    forall j | 0 <= j < |r| ensures r[j].0 != "" && r[j].1 == SumFor(pairs, r[j].0) {
      assert r[j].0 in TitlesOf(r);
      SumForDistinct(r, j);
    }
  }

  // ---------------------------------------------------------------------
  // The tracker
  // ---------------------------------------------------------------------

  /** A session must be restarted when the game or the state differs, or there is none. */
  predicate Changed(session: Option<ActiveSession>, info: Update)
  {
    match session
    case None => true
    case Some(s) => s.gameId != info.gameId || s.state != info.state
  }

  /** The name a PSP is known by after an update: the packet's name when it has one. */
  function NameAfter(trackers: map<Addr, PspTracker>, addr: Addr, info: Update): string
  {
    if info.pspName != "" then info.pspName
    else if addr in trackers then trackers[addr].name
    else "PSP-" + Decimal(addr.port)
  }

  /** The data file after `save_session` records the unsaved time of `s` under the PSP `name`. */
  function SavedPsps(psps: map<string, Games>, name: string, s: ActiveSession, now: nat, stamp: string, today: string): (r: map<string, Games>)
    ensures psps.Keys <= r.Keys && r.Keys <= psps.Keys + {name}
    ensures forall n :: n in psps && n != name ==> r[n] == psps[n]
  {
    var step := Save(s.savedSeconds, Elapsed(s.startTime, now));
    if step.1 == 0 then psps
    else psps[name := Record(GamesOf(psps, name), GameKey(s.gameId, s.state), s, step.1, stamp, today, false)]
  }

  /** The data file after `finish_session` records the rest of `s` under the PSP `name`. */
  function FinishedPsps(psps: map<string, Games>, name: string, s: ActiveSession, now: nat, stamp: string, today: string): (r: map<string, Games>)
    ensures psps.Keys <= r.Keys && r.Keys <= psps.Keys + {name}
    ensures forall n :: n in psps && n != name ==> r[n] == psps[n]
  {
    match Finish(s.savedSeconds, Elapsed(s.startTime, now))
    case None => psps
    case Some(delta) => psps[name := Record(GamesOf(psps, name), GameKey(s.gameId, s.state), s, delta, stamp, today, true)]
  }

  /** The data file after the sessions of the addresses in `order` are finished, one after another. */
  function FlushedPsps(psps: map<string, Games>, trackers: map<Addr, PspTracker>, order: seq<Addr>, now: nat, stamp: string, today: string): (r: map<string, Games>)
    decreases |order|
  {
    if order == [] then psps
    else
      var prev := FlushedPsps(psps, trackers, order[..|order| - 1], now, stamp, today);
      var a := order[|order| - 1];
      if a in trackers && trackers[a].session.Some? then FinishedPsps(prev, trackers[a].name, trackers[a].session.value, now, stamp, today)
      else prev
  }

  /** The names of the PSPs among `order` that have a running session. */
  function SessionNames(trackers: map<Addr, PspTracker>, order: seq<Addr>): (r: set<string>)
    ensures forall i :: 0 <= i < |order| && order[i] in trackers && trackers[order[i]].session.Some? ==> trackers[order[i]].name in r
  {
    set i | 0 <= i < |order| && order[i] in trackers && trackers[order[i]].session.Some? :: trackers[order[i]].name
  }

  /**
   * Flushing only touches the entries of PSPs that had a running session:
   * every other PSP's games are as they were, and no PSP disappears.
   */
  lemma {:induction false} FlushTouchesOnlySessions(psps: map<string, Games>, trackers: map<Addr, PspTracker>, order: seq<Addr>, now: nat, stamp: string, today: string)
    ensures var r := FlushedPsps(psps, trackers, order, now, stamp, today);
      && psps.Keys <= r.Keys && r.Keys <= psps.Keys + SessionNames(trackers, order)
      && (forall n :: n in psps && n !in SessionNames(trackers, order) ==> r[n] == psps[n])
    decreases |order|
  {
    if order != [] {
      var init := order[..|order| - 1];
      FlushTouchesOnlySessions(psps, trackers, init, now, stamp, today);
      assert SessionNames(trackers, init) <= SessionNames(trackers, order) by {
        forall n | n in SessionNames(trackers, init) ensures n in SessionNames(trackers, order) {
          var i :| 0 <= i < |init| && init[i] in trackers && trackers[init[i]].session.Some? && trackers[init[i]].name == n;
          assert order[i] == init[i];
        }
      }
    }
  }

  class UsageTracker {
    /** The data file: per PSP name, its games. */
    var psps: map<string, Games>
    var lastUpdated: Option<nat>
    /** Per connected address, the PSP's name and running session. */
    var trackers: map<Addr, PspTracker>
    const enabled: bool

    /** `UsageTracker::new`, over the data file as it is. */
    constructor (enabled: bool, psps: map<string, Games>, lastUpdated: Option<nat>)
      ensures this.enabled == enabled && this.psps == psps && this.lastUpdated == lastUpdated
      ensures trackers == map[]
    {
      this.enabled := enabled;
      this.psps := psps;
      this.lastUpdated := lastUpdated;
      trackers := map[];
    }

    /** `register_psp`: add the address, or rename it. */
    method RegisterPsp(addr: Addr, name: string)
      modifies this`trackers
      ensures !enabled ==> trackers == old(trackers)
      ensures enabled ==> trackers == old(trackers)[addr := if addr in old(trackers) then old(trackers)[addr].(name := name) else PspTracker(name, None)]
    {
      if !enabled {
        return;
      }
      if addr in trackers {
        trackers := trackers[addr := trackers[addr].(name := name)];
      } else {
        trackers := trackers[addr := PspTracker(name, None)];
      }
    }

    /** `save_session`: record the unsaved time of a running session; returns the new saved total. */
    method SaveSession(name: string, s: ActiveSession, now: nat, stamp: string, today: string) returns (saved: nat)
      modifies this`psps
      ensures saved == Save(s.savedSeconds, Elapsed(s.startTime, now)).0
      ensures psps == SavedPsps(old(psps), name, s, now, stamp, today)
    {
      var elapsed := Elapsed(s.startTime, now);
      var delta := SaturatingSub(elapsed, s.savedSeconds);
      if delta < MIN_SESSION_SECONDS {
        return s.savedSeconds;
      }
      var games := GamesOf(psps, name);
      psps := psps[name := Record(games, GameKey(s.gameId, s.state), s, delta, stamp, today, false)];
      saved := elapsed;
    }

    /** `finish_session`: record the rest of a session and count it, unless it lasted under the minimum. */
    method FinishSession(name: string, s: ActiveSession, now: nat, stamp: string, today: string)
      modifies this`psps
      ensures psps == FinishedPsps(old(psps), name, s, now, stamp, today)
    {
      var elapsed := Elapsed(s.startTime, now);
      var delta := SaturatingSub(elapsed, s.savedSeconds);
      if elapsed < MIN_SESSION_SECONDS {
        return;
      }
      var games := GamesOf(psps, name);
      psps := psps[name := Record(games, GameKey(s.gameId, s.state), s, delta, stamp, today, true)];
    }

    /** `unregister_psp`: forget the address, saving (not finishing) its session. */
    method UnregisterPsp(addr: Addr, now: nat, stamp: string, today: string)
      modifies this`trackers, this`psps
      ensures !enabled ==> trackers == old(trackers) && psps == old(psps)
      ensures enabled ==> trackers == old(trackers) - {addr}
      ensures enabled && (addr !in old(trackers) || old(trackers)[addr].session.None?) ==> psps == old(psps)
      ensures enabled && addr in old(trackers) && old(trackers)[addr].session.Some? ==>
        psps == SavedPsps(old(psps), old(trackers)[addr].name, old(trackers)[addr].session.value, now, stamp, today)
    {
      if !enabled || addr !in trackers {
        return;
      }
      var t := trackers[addr];
      trackers := trackers - {addr};
      if t.session.Some? {
        var _ := SaveSession(t.name, t.session.value, now, stamp, today);
      }
    }

    /**
     * `update_game`: register or rename the PSP; for the same game and state
     * save the running session, otherwise finish it and start a new one
     * with nothing saved.
     */
    method UpdateGame(addr: Addr, info: Update, now: nat, stamp: string, today: string)
      modifies this`trackers, this`psps
      ensures !enabled ==> trackers == old(trackers) && psps == old(psps)
      ensures enabled ==> addr in trackers && trackers.Keys == old(trackers).Keys + {addr}
      ensures enabled ==> forall a :: a in old(trackers) && a != addr ==> trackers[a] == old(trackers)[a]
      ensures enabled ==> trackers[addr].name == NameAfter(old(trackers), addr, info)
      ensures enabled ==>
        var before := if addr in old(trackers) then old(trackers)[addr].session else None;
        var s := trackers[addr].session;
        && s.Some? && s.value.gameId == (if Changed(before, info) then info.gameId else before.value.gameId)
        && s.value.state == info.state
        && (Changed(before, info) ==> s.value == ActiveSession(info.gameId, info.title, info.state, now, 0))
        && (!Changed(before, info) ==> (s.value.startTime == before.value.startTime
              && s.value.savedSeconds == Save(before.value.savedSeconds, Elapsed(before.value.startTime, now)).0))
      ensures enabled ==>
        var before := if addr in old(trackers) then old(trackers)[addr].session else None;
        var name := NameAfter(old(trackers), addr, info);
        psps == if !Changed(before, info) then SavedPsps(old(psps), name, before.value, now, stamp, today)
                else if before.Some? then FinishedPsps(old(psps), name, before.value, now, stamp, today)
                else old(psps)
    {
      if !enabled {
        return;
      }
      if addr in trackers {
        if info.pspName != "" && trackers[addr].name != info.pspName {
          trackers := trackers[addr := trackers[addr].(name := info.pspName)];
        }
      } else {
        trackers := trackers[addr := PspTracker(NameAfter(trackers, addr, info), None)];
      }
      var t := trackers[addr];
      if !Changed(t.session, info) {
        var s := t.session.value;
        var saved := SaveSession(t.name, s, now, stamp, today);
        trackers := trackers[addr := t.(session := Some(s.(savedSeconds := saved)))];
      } else {
        if t.session.Some? {
          FinishSession(t.name, t.session.value, now, stamp, today);
        }
        trackers := trackers[addr := t.(session := Some(ActiveSession(info.gameId, info.title, info.state, now, 0)))];
      }
    }

    /**
     * `flush_all`: finish every running session and forget every address.
     * The addresses are taken in the map's own order, which is returned as
     * `order`.
     */
    method FlushAll(now: nat, stamp: string, today: string) returns (ghost order: seq<Addr>)
      modifies this`trackers, this`psps
      ensures !enabled ==> trackers == old(trackers) && psps == old(psps)
      ensures enabled ==> trackers == map[]
      ensures enabled ==> (forall a :: a in order <==> a in old(trackers)) && |order| == |old(trackers).Keys|
      ensures enabled ==> psps == FlushedPsps(old(psps), old(trackers), order, now, stamp, today)
      ensures enabled ==> old(psps).Keys <= psps.Keys
    {
      order := [];
      if !enabled {
        return;
      }
      ghost var t0 := trackers;
      while trackers != map[]
        invariant forall a :: a in trackers ==> a in t0 && trackers[a] == t0[a] && a !in order
        invariant forall a :: a in t0 ==> a in trackers || a in order
        invariant forall a :: a in order ==> a in t0
        invariant |order| + |trackers.Keys| == |t0.Keys|
        invariant psps == FlushedPsps(old(psps), t0, order, now, stamp, today)
        decreases |trackers.Keys|
      {
        var a :| a in trackers;
        var t := trackers[a];
        ghost var before := trackers.Keys;
        trackers := trackers - {a};
        assert trackers.Keys < before by {
          assert a in before && a !in trackers.Keys;
        }
        assert before == trackers.Keys + {a};
        if t.session.Some? {
          FinishSession(t.name, t.session.value, now, stamp, today);
        }
        assert (order + [a])[..|order|] == order;
        order := order + [a];
      }
      FlushTouchesOnlySessions(old(psps), t0, order, now, stamp, today);
    }

    /**
     * `merge_from_psp`: `None` for an upload that is not JSON, leaving the
     * file alone; otherwise every uploaded game merged into the PSP's entry,
     * the file stamped with the wall clock, and the number of totals that rose.
     */
    method MergeFromPsp(name: string, upload: Option<seq<RemoteGame>>, unixNow: nat) returns (count: Option<nat>)
      modifies this`psps, this`lastUpdated
      ensures upload.None? ==> count.None? && psps == old(psps) && lastUpdated == old(lastUpdated)
      ensures upload.Some? ==>
        var merged := MergeAll(GamesOf(old(psps), name), upload.value);
        && count == Some(merged.1)
        && psps == old(psps)[name := merged.0]
        && lastUpdated == Some(unixNow)
    {
      if upload.None? {
        return None;
      }
      var remote := upload.value;
      var games := GamesOf(psps, name);
      var n := 0;
      var i := 0;
      while i < |remote|
        invariant 0 <= i <= |remote|
        invariant (games, n) == MergeAll(GamesOf(old(psps), name), remote[..i])
        invariant psps == old(psps) && lastUpdated == old(lastUpdated)
      {
        assert remote[..i + 1][..i] == remote[..i];
        var rg := remote[i];
        var inc;
        games, inc := MergeGame(games, rg);
        n := n + inc;
        i := i + 1;
      }
      assert remote[..i] == remote;
      psps := psps[name := games];
      lastUpdated := Some(unixNow);
      count := Some(n);
    }

    /** `get_last_updated`: the file's stamp, or 0 without one. */
    function LastUpdated(): (r: nat)
      reads this
      ensures lastUpdated.Some? ==> r == lastUpdated.value
      ensures lastUpdated.None? ==> r == 0
    {
      match lastUpdated
      case Some(t) => t
      case None => 0
    }
  }

  /** The body of the merge loop for one uploaded game. */
  method MergeGame(games: Games, rg: RemoteGame) returns (games': Games, inc: nat)
    ensures (games', inc) == MergeOne(games, rg)
  {
    if rg.gameId == "" {
      return games, 0;
    }
    var g := Prior(games, rg);
    var daily, dates := MergeDailyEntries(g.daily, g.playDates, rg.daily);
    inc := if rg.seconds > g.totalSeconds then 1 else 0;
    var title := if g.title == "" && rg.title != "" then rg.title else g.title;
    games' := games[rg.gameId := g.(totalSeconds := Max(g.totalSeconds, rg.seconds),
                                    sessionCount := Max(g.sessionCount, rg.sessions % U32_LIMIT),
                                    title := title, daily := daily, playDates := dates)];
  }

  /** The inner loop of the merge over one game's "daily" array. */
  method MergeDailyEntries(daily: map<string, nat>, dates: set<string>, entries: seq<DailyEntry>)
    returns (d: map<string, nat>, ds: set<string>)
    ensures (d, ds) == MergeDaily(daily, dates, entries)
  {
    d, ds := daily, dates;
    var i := 0;
    while i < |entries|
      invariant 0 <= i <= |entries|
      invariant (d, ds) == MergeDaily(daily, dates, entries[..i])
    {
      assert entries[..i + 1][..i] == entries[..i];
      var e := entries[i];
      if e.date != "" {
        var existing := Get(d, e.date);
        d := d[e.date := if e.secs > existing then e.secs else existing];
        ds := ds + {e.date};
      }
      i := i + 1;
    }
    assert entries[..i] == entries;
  }
}
