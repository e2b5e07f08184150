/**
 Fixed-window rate limiting (crates/chisl-auth/src/rate_limit.rs).

 `RateLimiter` is the limiter object.  Its calls are then put in runs in the order of their
 clock readings, and the auth middleware, which checks before a request and records
 after it, is a transition system with several requests in flight.
 */
module RateLimit {
  import opened Wrappers

  datatype Entry = Entry(count: nat, resetTime: nat)
  datatype Config = Config(max: nat, window: nat)
  datatype AppError = RateLimited

  type Entries = map<string, Entry>

  /** The entry of a window that is still open. */
  function Live(entries: Entries, key: string, now: nat): Option<Entry> {
    if key in entries && now < entries[key].resetTime then Some(entries[key]) else None
  }

  /** The open window's entry, or the one that opens now. */
  function Current(cfg: Config, entries: Entries, key: string, now: nat): Entry {
    Live(entries, key, now).GetOr(Entry(0, now + cfg.window))
  }

  predicate Blocked(cfg: Config, entries: Entries, key: string, now: nat) {
    Live(entries, key, now).Some? && Live(entries, key, now).value.count >= cfg.max
  }

  predicate Granted(cfg: Config, entries: Entries, key: string, now: nat) {
    Current(cfg, entries, key, now).count < cfg.max
  }

  /** One more counted in the current window, or just the window opened. */
  function Counted(cfg: Config, entries: Entries, key: string, now: nat, counts: bool): Entries {
    var e := Current(cfg, entries, key, now);
    entries[key := if counts then e.(count := e.count + 1) else e]
  }

  function Swept(entries: Entries, now: nat): Entries {
    map key | key in entries && now < entries[key].resetTime :: entries[key]
  }

  class RateLimiter {
    const cfg: Config
    var entries: Entries

    constructor (max: nat, window: nat)
      ensures cfg == Config(max, window) && entries == map[]
    {
      cfg := Config(max, window);
      entries := map[];
    }

    constructor Auth()
      ensures cfg == Config(5, 15 * 60 * 1000) && entries == map[]
    {
      cfg := Config(5, 15 * 60 * 1000);
      entries := map[];
    }

    method Check(key: string, now: nat) returns (r: Result<(), AppError>)
      ensures r == if Blocked(cfg, entries, key, now) then Failure(RateLimited) else Success(())
      ensures r.Failure? <==> key in entries && now < entries[key].resetTime && entries[key].count >= cfg.max
    {
      if key in entries && now < entries[key].resetTime && entries[key].count >= cfg.max {
        return Failure(RateLimited);
      }
      r := Success(());
    }

    method CheckAndIncrement(key: string, now: nat) returns (r: Result<(), AppError>)
      modifies this`entries
      ensures r == if Granted(cfg, old(entries), key, now) then Success(()) else Failure(RateLimited)
      ensures entries == Counted(cfg, old(entries), key, now, Granted(cfg, old(entries), key, now))
    {
      var entry := if key in entries then entries[key] else Entry(0, now + cfg.window);
      if now >= entry.resetTime {
        entry := Entry(0, now + cfg.window);
      }
      if entry.count >= cfg.max {
        entries := entries[key := entry];
        return Failure(RateLimited);
      }
      entries := entries[key := entry.(count := entry.count + 1)];
      r := Success(());
    }

    method RecordAttempt(key: string, now: nat)
      modifies this`entries
      ensures entries == Counted(cfg, old(entries), key, now, true)
    {
      var entry := if key in entries then entries[key] else Entry(0, now + cfg.window);
      if now >= entry.resetTime {
        entry := Entry(0, now + cfg.window);
      }
      entries := entries[key := entry.(count := entry.count + 1)];
    }

    /** One request through the auth middleware: checked on arrival, recorded when it comes back unsuccessful. */
    method AuthMiddleware(ip: string, arrived: nat, answered: nat, success: bool) returns (r: Result<bool, AppError>)
      modifies this`entries
      ensures r.Failure? <==> Blocked(cfg, old(entries), ip, arrived)
      ensures r.Success? ==> r.value == success
      ensures entries == if r == Success(false) then Counted(cfg, old(entries), ip, answered, true) else old(entries)
    {
      var allowed := Check(ip, arrived);
      if allowed.Failure? {
        return Failure(RateLimited);
      }
      if !success {
        RecordAttempt(ip, answered);
      }
      r := Success(success);
    }

    method Cleanup(now: nat)
      modifies this`entries
      ensures entries == Swept(old(entries), now)
      ensures forall key :: key in entries <==> key in old(entries) && now < old(entries)[key].resetTime
      ensures forall key :: key in entries ==> entries[key] == old(entries)[key]
    {
      entries := map key | key in entries && now < entries[key].resetTime :: entries[key];
    }

    method EntryCount() returns (n: nat)
      ensures n == |entries.Keys|
    {
      n := |entries|;
    }
  }

  // ------------------------------------------------------------------
  // Runs
  // ------------------------------------------------------------------

  datatype Call =
    | Check(key: string, now: nat)
    | CheckAndIncrement(key: string, now: nat)
    | RecordAttempt(key: string, now: nat)
    | Cleanup(now: nat)

  function Step(cfg: Config, entries: Entries, call: Call): Entries {
    match call
    case Check(_, _) => entries
    case CheckAndIncrement(key, now) => Counted(cfg, entries, key, now, Granted(cfg, entries, key, now))
    case RecordAttempt(key, now) => Counted(cfg, entries, key, now, true)
    case Cleanup(now) => Swept(entries, now)
  }

  /** Whether the call answers Ok. */
  predicate Ok(cfg: Config, entries: Entries, call: Call) {
    match call
    case Check(key, now) => !Blocked(cfg, entries, key, now)
    case CheckAndIncrement(key, now) => Granted(cfg, entries, key, now)
    case RecordAttempt(_, _) => true
    case Cleanup(_) => true
  }

  function After(cfg: Config, calls: seq<Call>): Entries {
    if calls == [] then map[] else Step(cfg, After(cfg, calls[..|calls| - 1]), calls[|calls| - 1])
  }

  /**
   The calls take effect in the order of their clock readings.  Each reads the clock before it locks its entry,
   so this asks of the scheduler, besides a clock that never goes back, that no call is overtaken in between.
   */
  predicate Monotone(calls: seq<Call>) {
    forall i, j | 0 <= i < j < |calls| :: calls[i].now <= calls[j].now
  }

  // ------------------------------------------------------------------
  // Cleanup cannot be observed
  // ------------------------------------------------------------------

  /** What callers see of a run: the answers of everything but cleanup. */
  function Answers(cfg: Config, calls: seq<Call>): seq<bool> {
    if calls == [] then [] else
    var init, last := calls[..|calls| - 1], calls[|calls| - 1];
    Answers(cfg, init) + (if last.Cleanup? then [] else [Ok(cfg, After(cfg, init), last)])
  }

  function WithoutCleanup(calls: seq<Call>): seq<Call> {
    if calls == [] then [] else
    var init, last := calls[..|calls| - 1], calls[|calls| - 1];
    WithoutCleanup(init) + (if last.Cleanup? then [] else [last])
  }

  /** No call's clock reading is earlier than that of a cleanup that took effect before it. */
  predicate NotOvertaken(calls: seq<Call>) {
    forall i, j | 0 <= i < j < |calls| && calls[i].Cleanup? && !calls[j].Cleanup? :: calls[i].now <= calls[j].now
  }

  /** The latest reading of a cleanup. */
  function LastSweep(calls: seq<Call>): nat {
    if calls == [] then 0 else
    var before, last := LastSweep(calls[..|calls| - 1]), calls[|calls| - 1];
    if last.Cleanup? && last.now > before then last.now else before
  }

  lemma {:induction false} SweepsUpTo(calls: seq<Call>, now: nat)
    requires forall i | 0 <= i < |calls| && calls[i].Cleanup? :: calls[i].now <= now
    ensures LastSweep(calls) <= now
  {
    if calls != [] {
      SweepsUpTo(calls[..|calls| - 1], now);
    }
  }

  lemma PrefixNotOvertaken(init: seq<Call>, last: Call)
    requires NotOvertaken(init + [last])
    ensures NotOvertaken(init) && (!last.Cleanup? ==> LastSweep(init) <= last.now)
  {
    var calls := init + [last];
    assert forall i | 0 <= i < |init| :: calls[i] == init[i];
    if !last.Cleanup? {
      assert calls[|init|] == last;
      SweepsUpTo(init, last.now);
    }
  }

  /** An absent entry and an expired one are the same to every reading from `from` on. */
  ghost predicate Bisimilar(a: Entries, b: Entries, from: nat) {
    forall key, now: nat | from <= now :: Live(a, key, now) == Live(b, key, now)
  }

  lemma StepBisimilar(cfg: Config, a: Entries, b: Entries, from: nat, call: Call)
    requires Bisimilar(a, b, from) && !call.Cleanup? && from <= call.now
    ensures Ok(cfg, a, call) == Ok(cfg, b, call)
    ensures Bisimilar(Step(cfg, a, call), Step(cfg, b, call), from)
  {
    assert Live(a, call.key, call.now) == Live(b, call.key, call.now);
    forall key, now: nat | from <= now
      ensures Live(Step(cfg, a, call), key, now) == Live(Step(cfg, b, call), key, now)
    {
      assert Live(a, key, now) == Live(b, key, now);
    }
  }

  lemma SweepBisimilar(a: Entries, b: Entries, from: nat, now: nat)
    requires Bisimilar(a, b, from)
    ensures Bisimilar(Swept(a, now), b, if from < now then now else from)
  {
  }

  lemma AfterSnoc(cfg: Config, calls: seq<Call>, call: Call)
    ensures After(cfg, calls + [call]) == Step(cfg, After(cfg, calls), call)
  {
    assert (calls + [call])[..|calls|] == calls;
  }

  lemma AnswersSnoc(cfg: Config, calls: seq<Call>, call: Call)
    ensures Answers(cfg, calls + [call]) ==
            Answers(cfg, calls) + if call.Cleanup? then [] else [Ok(cfg, After(cfg, calls), call)]
  {
    assert (calls + [call])[..|calls|] == calls;
  }

  lemma WithoutSnoc(calls: seq<Call>, call: Call)
    ensures WithoutCleanup(calls + [call]) == WithoutCleanup(calls) + if call.Cleanup? then [] else [call]
  {
    assert (calls + [call])[..|calls|] == calls;
  }

  /** The same answers as a limiter that never cleans up, and states no later call can tell apart. */
  lemma {:induction false} CleanupIsUnobservable(cfg: Config, calls: seq<Call>)
    requires NotOvertaken(calls)
    ensures Answers(cfg, calls) == Answers(cfg, WithoutCleanup(calls))
    ensures Bisimilar(After(cfg, calls), After(cfg, WithoutCleanup(calls)), LastSweep(calls))
  {
    if calls != [] {
      var init, last := calls[..|calls| - 1], calls[|calls| - 1];
      assert calls == init + [last];
      PrefixNotOvertaken(init, last);
      CleanupIsUnobservable(cfg, init);
      var a, b, from := After(cfg, init), After(cfg, WithoutCleanup(init)), LastSweep(init);
      AfterSnoc(cfg, init, last);
      AnswersSnoc(cfg, init, last);
      WithoutSnoc(init, last);
      if last.Cleanup? {
        SweepBisimilar(a, b, from, last.now);
        assert WithoutCleanup(init) + [] == WithoutCleanup(init) && Answers(cfg, init) + [] == Answers(cfg, init);
      } else {
        StepBisimilar(cfg, a, b, from, last);
        AfterSnoc(cfg, WithoutCleanup(init), last);
        AnswersSnoc(cfg, WithoutCleanup(init), last);
      }
    }
  }

  // A cleanup that overtakes.

  /** What one cleanup changes for one call: it must drop an entry used up and, to that call's reading, still open. */
  lemma CleanupChangesAnswer(cfg: Config, entries: Entries, swept: nat, call: Call)
    requires !call.Cleanup?
    ensures Ok(cfg, Swept(entries, swept), call) != Ok(cfg, entries, call) <==>
            && call.key in entries && call.now < entries[call.key].resetTime <= swept
            && entries[call.key].count >= cfg.max && (call.Check? || (call.CheckAndIncrement? && cfg.max > 0))
  {
  }

  /** One attempt recorded at 1 and n more, overtaken, whose readings are 0. */
  function Records(key: string, n: nat): seq<Call> {
    if n == 0 then [RecordAttempt(key, 1)] else Records(key, n - 1) + [RecordAttempt(key, 0)]
  }

  lemma {:induction false} RecordsCount(cfg: Config, key: string, n: nat)
    ensures After(cfg, Records(key, n)) == map[key := Entry(1 + n, 1 + cfg.window)]
  {
    if n == 0 {
      AfterSnoc(cfg, [], RecordAttempt(key, 1));
      assert [] + [RecordAttempt(key, 1)] == Records(key, 0);
    } else {
      RecordsCount(cfg, key, n - 1);
      AfterSnoc(cfg, Records(key, n - 1), RecordAttempt(key, 0));
      OneMoreRecord(cfg, key, n);
    }
  }

  lemma OneMoreRecord(cfg: Config, key: string, n: nat)
    requires n > 0
    ensures Step(cfg, map[key := Entry(n, 1 + cfg.window)], RecordAttempt(key, 0)) ==
            map[key := Entry(1 + n, 1 + cfg.window)]
  {
  }

  lemma {:induction false} RecordsAreKept(key: string, n: nat)
    ensures WithoutCleanup(Records(key, n)) == Records(key, n)
  {
    assert WithoutCleanup([]) == [];
    hide WithoutCleanup;
    if n == 0 {
      WithoutSnoc([], RecordAttempt(key, 1));
      assert [] + [RecordAttempt(key, 1)] == Records(key, 0);
    } else {
      RecordsAreKept(key, n - 1);
      WithoutSnoc(Records(key, n - 1), RecordAttempt(key, 0));
    }
  }

  lemma AnswerAfterSweep(cfg: Config, calls: seq<Call>, swept: nat, call: Call)
    requires !call.Cleanup?
    ensures Answers(cfg, calls + [Cleanup(swept)] + [call]) ==
            Answers(cfg, calls) + [Ok(cfg, Swept(After(cfg, calls), swept), call)]
  {
    hide After, Answers, Ok, Swept;
    AfterSnoc(cfg, calls, Cleanup(swept));
    AnswersSnoc(cfg, calls, Cleanup(swept));
    AnswersSnoc(cfg, calls + [Cleanup(swept)], call);
    assert Answers(cfg, calls) + [] == Answers(cfg, calls);
  }

  lemma SweepLeftOut(calls: seq<Call>, swept: nat, call: Call)
    requires !call.Cleanup?
    ensures WithoutCleanup(calls + [Cleanup(swept)] + [call]) == WithoutCleanup(calls) + [call]
  {
    hide WithoutCleanup;
    WithoutSnoc(calls, Cleanup(swept));
    WithoutSnoc(calls + [Cleanup(swept)], call);
  }

  lemma LastDiffers(answers: seq<bool>, a: bool, b: bool)
    requires a != b
    ensures answers + [a] != answers + [b]
  {
    assert (answers + [a])[|answers|] == a && (answers + [b])[|answers|] == b;
  }

  /** A cleanup between a run and one more call shows if it changes that call's answer. */
  lemma ShowsAfter(cfg: Config, calls: seq<Call>, swept: nat, call: Call)
    requires WithoutCleanup(calls) == calls && !call.Cleanup?
    requires Ok(cfg, Swept(After(cfg, calls), swept), call) != Ok(cfg, After(cfg, calls), call)
    ensures var run := calls + [Cleanup(swept)] + [call];
            Answers(cfg, run) != Answers(cfg, WithoutCleanup(run))
  {
    hide After, Answers, WithoutCleanup, Ok, Swept;
    AnswerAfterSweep(cfg, calls, swept, call);
    SweepLeftOut(calls, swept, call);
    AnswersSnoc(cfg, calls, call);
    LastDiffers(Answers(cfg, calls), Ok(cfg, Swept(After(cfg, calls), swept), call), Ok(cfg, After(cfg, calls), call));
  }

  /** For every limiter there is a run in which a cleanup overtakes a check and changes its answer. */
  lemma OvertakingCleanupShows(cfg: Config, key: string)
    ensures exists calls :: Answers(cfg, calls) != Answers(cfg, WithoutCleanup(calls))
  {
    hide After, Answers, WithoutCleanup, Records, Ok, Swept;
    var used := Records(key, cfg.max);
    RecordsCount(cfg, key, cfg.max);
    RecordsAreKept(key, cfg.max);
    CleanupChangesAnswer(cfg, After(cfg, used), 1 + cfg.window, Check(key, 0));
    ShowsAfter(cfg, used, 1 + cfg.window, Check(key, 0));
  }

  // ------------------------------------------------------------------
  // Windows, and how much an interval of window length can grant
  // ------------------------------------------------------------------

  /** When a window opened, whether what opened it is counted in `Times`, and what came later. */
  datatype Window = Window(start: nat, opener: bool, later: seq<nat>)

  function Times(w: Window): seq<nat> {
    (if w.opener then [w.start] else []) + w.later
  }

  function AllTimes(ws: seq<Window>): seq<nat> {
    if ws == [] then [] else AllTimes(ws[..|ws| - 1]) + Times(ws[|ws| - 1])
  }

  /** One more event at time `now`: in the last window while its entry is live, else in a new one. */
  function Extended(ws: seq<Window>, live: bool, now: nat, counts: bool): seq<Window> {
    if live && ws != [] then
      var w := ws[|ws| - 1];
      ws[..|ws| - 1] + [if counts then w.(later := w.later + [now]) else w]
    else
      ws + [Window(now, counts, [])]
  }

  /** The windows of a key in a run, each with the times of its granted requests. */
  function WindowsOf(cfg: Config, calls: seq<Call>, key: string): seq<Window> {
    if calls == [] then [] else
    var init, last := calls[..|calls| - 1], calls[|calls| - 1];
    var before := WindowsOf(cfg, init, key);
    var entries := After(cfg, init);
    if last.CheckAndIncrement? && last.key == key then
      Extended(before, Live(entries, key, last.now).Some?, last.now, Granted(cfg, entries, key, last.now))
    else if last.RecordAttempt? && last.key == key then
      Extended(before, Live(entries, key, last.now).Some?, last.now, false)
    else before
  }

  /** When `check_and_increment(key)` answered Ok. */
  function Grants(cfg: Config, calls: seq<Call>, key: string): seq<nat> {
    if calls == [] then [] else
    var init, last := calls[..|calls| - 1], calls[|calls| - 1];
    Grants(cfg, init, key)
    + if last.CheckAndIncrement? && last.key == key && Ok(cfg, After(cfg, init), last) then [last.now] else []
  }

  function CountIn(times: seq<nat>, from: nat, to: nat): nat {
    if times == [] then 0 else
    CountIn(times[..|times| - 1], from, to) + if from <= times[|times| - 1] < to then 1 else 0
  }

  ghost predicate WindowOk(w: Window, window: nat, limit: nat) {
    && |Times(w)| <= limit && (|w.later| < limit || w.later == [])
    && forall i | 0 <= i < |w.later| :: w.start <= w.later[i] < w.start + window
  }

  /** Windows of length `window` that do not overlap, of at most `limit` events, `limit - 1` after the opener. */
  ghost predicate WellSpaced(ws: seq<Window>, window: nat, limit: nat) {
    && (forall i, j | 0 <= i < j < |ws| :: ws[i].start + window <= ws[j].start)
    && (forall i | 0 <= i < |ws| :: WindowOk(ws[i], window, limit))
  }

  /** How the entry kept for a key follows its last window. */
  ghost predicate Follows(cfg: Config, entries: Entries, key: string, ws: seq<Window>, now: nat) {
    && (key in entries ==>
          && ws != [] && entries[key].resetTime == ws[|ws| - 1].start + cfg.window
          && |Times(ws[|ws| - 1])| <= entries[key].count
          && (entries[key].count == 0 || 1 + |ws[|ws| - 1].later| <= entries[key].count)
          && (entries[key].count == 0 ==> cfg.max == 0))
    && (key !in entries && ws != [] ==> ws[|ws| - 1].start + cfg.window <= now)
    && (ws != [] ==> ws[|ws| - 1].start <= now)
  }

  lemma ExtendedIsWellSpaced(ws: seq<Window>, window: nat, limit: nat, live: bool, now: nat, counts: bool)
    requires WellSpaced(ws, window, limit)
    requires ws != [] && !live ==> ws[|ws| - 1].start + window <= now
    requires ws != [] && live ==> ws[|ws| - 1].start <= now < ws[|ws| - 1].start + window
    requires live ==> ws != []
    requires counts && live ==> |Times(ws[|ws| - 1])| < limit && 1 + |ws[|ws| - 1].later| < limit
    requires counts && !live ==> 0 < limit
    ensures WellSpaced(Extended(ws, live, now, counts), window, limit)
  {
    hide WellSpaced;
    if live {
      var w := ws[|ws| - 1];
      LastOk(ws, window, limit);
      assert WindowOk(if counts then w.(later := w.later + [now]) else w, window, limit);
      LastReplaced(ws, if counts then w.(later := w.later + [now]) else w, window, limit);
    } else {
      assert WindowOk(Window(now, counts, []), window, limit);
      WindowAdded(ws, Window(now, counts, []), window, limit);
    }
  }

  lemma LastOk(ws: seq<Window>, window: nat, limit: nat)
    requires WellSpaced(ws, window, limit) && ws != []
    ensures WindowOk(ws[|ws| - 1], window, limit)
  {
  }

  lemma LastReplaced(ws: seq<Window>, w: Window, window: nat, limit: nat)
    requires WellSpaced(ws, window, limit) && ws != [] && w.start == ws[|ws| - 1].start && WindowOk(w, window, limit)
    ensures WellSpaced(ws[..|ws| - 1] + [w], window, limit)
  {
    hide WindowOk;
  }

  lemma WindowAdded(ws: seq<Window>, w: Window, window: nat, limit: nat)
    requires WellSpaced(ws, window, limit) && WindowOk(w, window, limit)
    requires ws != [] ==> ws[|ws| - 1].start + window <= w.start
    ensures WellSpaced(ws + [w], window, limit)
  {
    hide WindowOk;
  }

  lemma CountedFollows(cfg: Config, entries: Entries, key: string, ws: seq<Window>, before: nat, now: nat,
                       inc: bool, counts: bool)
    requires before <= now && WellSpaced(ws, cfg.window, cfg.max) && Follows(cfg, entries, key, ws, before)
    requires counts ==> inc && Granted(cfg, entries, key, now)
    requires !inc ==> !Granted(cfg, entries, key, now)
    ensures var ws' := Extended(ws, Live(entries, key, now).Some?, now, counts);
            && WellSpaced(ws', cfg.window, cfg.max)
            && Follows(cfg, Counted(cfg, entries, key, now, inc), key, ws', now)
  {
    hide WellSpaced, WindowOk;
    ExtendedIsWellSpaced(ws, cfg.window, cfg.max, Live(entries, key, now).Some?, now, counts);
  }

  lemma FollowsStep(cfg: Config, entries: Entries, key: string, ws: seq<Window>, before: nat, call: Call)
    requires before <= call.now && WellSpaced(ws, cfg.window, cfg.max) && Follows(cfg, entries, key, ws, before)
    requires call.CheckAndIncrement? || call.RecordAttempt? ==> call.key != key
    ensures Follows(cfg, Step(cfg, entries, call), key, ws, call.now)
  {
  }

  lemma {:induction false} WindowsFollow(cfg: Config, calls: seq<Call>, key: string)
    requires Monotone(calls)
    ensures WellSpaced(WindowsOf(cfg, calls, key), cfg.window, cfg.max)
    ensures Follows(cfg, After(cfg, calls), key, WindowsOf(cfg, calls, key), Latest(calls))
  {
    if calls != [] {
      var init, last := calls[..|calls| - 1], calls[|calls| - 1];
      WindowsFollow(cfg, init, key);
      var entries, ws := After(cfg, init), WindowsOf(cfg, init, key);
      if (last.CheckAndIncrement? || last.RecordAttempt?) && last.key == key {
        var counts := last.CheckAndIncrement? && Granted(cfg, entries, key, last.now);
        CountedFollows(cfg, entries, key, ws, Latest(init), last.now, last.RecordAttempt? || counts, counts);
      } else {
        FollowsStep(cfg, entries, key, ws, Latest(init), last);
      }
    }
  }

  function Latest(calls: seq<Call>): nat {
    if calls == [] then 0 else calls[|calls| - 1].now
  }

  /** Every grant is in exactly one window, in order. */
  lemma {:induction false} WindowsHoldGrants(cfg: Config, calls: seq<Call>, key: string)
    ensures AllTimes(WindowsOf(cfg, calls, key)) == Grants(cfg, calls, key)
  {
    if calls != [] {
      var init, last := calls[..|calls| - 1], calls[|calls| - 1];
      WindowsHoldGrants(cfg, init, key);
      var entries, ws := After(cfg, init), WindowsOf(cfg, init, key);
      if (last.CheckAndIncrement? || last.RecordAttempt?) && last.key == key {
        var counts := last.CheckAndIncrement? && Granted(cfg, entries, key, last.now);
        AllTimesExtended(ws, Live(entries, key, last.now).Some?, last.now, counts);
      }
    }
  }

  lemma AllTimesExtended(ws: seq<Window>, live: bool, now: nat, counts: bool)
    ensures AllTimes(Extended(ws, live, now, counts)) == AllTimes(ws) + if counts then [now] else []
  {
    var ws' := Extended(ws, live, now, counts);
    if live && ws != [] {
      assert ws'[..|ws'| - 1] == ws[..|ws| - 1];
      var w, w' := ws[|ws| - 1], ws'[|ws'| - 1];
      assert Times(w') == Times(w) + if counts then [now] else [];
    } else {
      assert ws'[..|ws'| - 1] == ws;
    }
  }

  // What windows contribute to a half-open interval of window length.

  lemma {:induction false} CountAppend(a: seq<nat>, b: seq<nat>, from: nat, to: nat)
    ensures CountIn(a + b, from, to) == CountIn(a, from, to) + CountIn(b, from, to)
  {
    if b == [] {
      assert a + b == a;
    } else {
      assert (a + b)[..|a + b| - 1] == a + b[..|b| - 1];
      CountAppend(a, b[..|b| - 1], from, to);
    }
  }

  lemma {:induction false} CountBound(times: seq<nat>, from: nat, to: nat)
    ensures CountIn(times, from, to) <= |times|
    ensures (forall t | t in times :: !(from <= t < to)) ==> CountIn(times, from, to) == 0
  {
    if times != [] {
      var init := times[..|times| - 1];
      CountBound(init, from, to);
      assert forall t | t in init :: t in times;
      assert times[|times| - 1] in times;
    }
  }

  /** A window no part of whose events the interval can miss contributes one less than the limit if it began earlier. */
  lemma WindowContribution(w: Window, window: nat, limit: nat, from: nat)
    requires WindowOk(w, window, limit)
    ensures CountIn(Times(w), from, from + window) <= limit
    ensures w.start < from ==> CountIn(Times(w), from, from + window) <= if limit == 0 then 0 else limit - 1
    ensures from + window <= w.start || (w.start + window <= from && 0 < window) ==>
              CountIn(Times(w), from, from + window) == 0
  {
    var opener := if w.opener then [w.start] else [];
    CountAppend(opener, w.later, from, from + window);
    CountBound(opener, from, from + window);
    CountBound(w.later, from, from + window);
    CountBound(Times(w), from, from + window);
  }

  lemma {:induction false} OldWindowsContributeNothing(ws: seq<Window>, window: nat, limit: nat, from: nat)
    requires WellSpaced(ws, window, limit) && 0 < window
    requires ws != [] ==> ws[|ws| - 1].start + window <= from
    ensures CountIn(AllTimes(ws), from, from + window) == 0
  {
    hide CountIn, Times, WindowOk;
    if ws == [] {
      CountBound(AllTimes(ws), from, from + window);
    } else {
      var init, w := ws[..|ws| - 1], ws[|ws| - 1];
      LastContribution(ws, window, limit, from);
      OldWindowsContributeNothing(init, window, limit, from);
      CountAppend(AllTimes(init), Times(w), from, from + window);
    }
  }

  /** The most events that windows of at most `limit` events put into an interval as long as a window. */
  function IntervalLimit(window: nat, limit: nat): nat {
    if window == 0 || limit == 0 then 0 else if window == 1 then limit else 2 * limit - 1
  }

  /** The windows that began before the interval: only the last of them reaches into it. */
  lemma EarlierWindows(ws: seq<Window>, window: nat, limit: nat, from: nat)
    requires WellSpaced(ws, window, limit) && 0 < window && (ws != [] ==> ws[|ws| - 1].start < from)
    ensures CountIn(AllTimes(ws), from, from + window) <= IntervalLimit(window, limit) - if limit == 0 then 0 else limit
  {
    hide CountIn, Times, WindowOk;
    if ws == [] {
      CountBound(AllTimes(ws), from, from + window);
    } else {
      var older, v := ws[..|ws| - 1], ws[|ws| - 1];
      CountAppend(AllTimes(older), Times(v), from, from + window);
      LastContribution(ws, window, limit, from);
      OldWindowsContributeNothing(older, window, limit, from);
    }
  }

  lemma {:induction false} IntervalBound(ws: seq<Window>, window: nat, limit: nat, from: nat)
    requires WellSpaced(ws, window, limit)
    ensures CountIn(AllTimes(ws), from, from + window) <= IntervalLimit(window, limit)
  {
    hide CountIn, Times, WindowOk;
    if window == 0 || ws == [] {
      CountBound(AllTimes(ws), from, from + window);
    } else {
      var init, w := ws[..|ws| - 1], ws[|ws| - 1];
      CountAppend(AllTimes(init), Times(w), from, from + window);
      LastContribution(ws, window, limit, from);
      if from + window <= w.start {
        IntervalBound(init, window, limit, from);
      } else {
        EarlierWindows(init, window, limit, from);
      }
    }
  }

  lemma LastContribution(ws: seq<Window>, window: nat, limit: nat, from: nat)
    requires WellSpaced(ws, window, limit) && ws != [] && 0 < window
    ensures var w := ws[|ws| - 1];
            var n := CountIn(Times(w), from, from + window);
            && n <= limit && (w.start < from && limit > 0 ==> n <= limit - 1)
            && (from + window <= w.start || w.start + window <= from ==> n == 0)
  {
    hide CountIn, Times;
    WindowContribution(ws[|ws| - 1], window, limit, from);
  }

  lemma CountInWindows(ws: seq<Window>, times: seq<nat>, window: nat, limit: nat, from: nat)
    requires AllTimes(ws) == times && WellSpaced(ws, window, limit)
    ensures CountIn(times, from, from + window) <= IntervalLimit(window, limit)
  {
    IntervalBound(ws, window, limit, from);
  }

  /** Every grant is in one window, and a window holds at most `max`. */
  lemma GrantsPerWindow(cfg: Config, calls: seq<Call>, key: string)
    requires Monotone(calls)
    ensures AllTimes(WindowsOf(cfg, calls, key)) == Grants(cfg, calls, key)
    ensures WellSpaced(WindowsOf(cfg, calls, key), cfg.window, cfg.max)
  {
    WindowsFollow(cfg, calls, key);
    WindowsHoldGrants(cfg, calls, key);
  }

  /** At most 2 * max - 1 grants in any half-open interval as long as a window, and max if a window is one tick long. */
  lemma GrantsPerInterval(cfg: Config, calls: seq<Call>, key: string, from: nat)
    requires Monotone(calls)
    ensures CountIn(Grants(cfg, calls, key), from, from + cfg.window) <= IntervalLimit(cfg.window, cfg.max)
  {
    hide Monotone, Grants, CountIn, WellSpaced, AllTimes, IntervalLimit;
    var ws, times := GrantWindows(cfg, calls, key);
    CountInWindows(ws, times, cfg.window, cfg.max, from);
  }

  lemma GrantWindows(cfg: Config, calls: seq<Call>, key: string) returns (ws: seq<Window>, times: seq<nat>)
    requires Monotone(calls)
    ensures times == Grants(cfg, calls, key) && AllTimes(ws) == times && WellSpaced(ws, cfg.window, cfg.max)
  {
    GrantsPerWindow(cfg, calls, key);
    ws, times := WindowsOf(cfg, calls, key), Grants(cfg, calls, key);
  }

  // That bound is reached: one request opens a window, the rest of it is spent at its end,
  // and the next window is spent at once.

  /** The run continued by n requests at once. */
  function Filled(calls: seq<Call>, key: string, now: nat, n: nat): seq<Call> {
    if n == 0 then calls else Filled(calls, key, now, n - 1) + [CheckAndIncrement(key, now)]
  }

  lemma {:induction false} FilledMonotone(calls: seq<Call>, key: string, now: nat, n: nat)
    requires Monotone(calls) && Latest(calls) <= now
    ensures Monotone(Filled(calls, key, now, n)) && Latest(Filled(calls, key, now, n)) <= now
  {
    if n > 0 {
      FilledMonotone(calls, key, now, n - 1);
      OneMoreCall(Filled(calls, key, now, n - 1), CheckAndIncrement(key, now));
    }
  }

  lemma OneMoreCall(calls: seq<Call>, call: Call)
    requires Monotone(calls) && Latest(calls) <= call.now
    ensures Monotone(calls + [call]) && Latest(calls + [call]) == call.now
  {
  }

  lemma OneMoreGrant(cfg: Config, calls: seq<Call>, key: string, now: nat)
    requires Granted(cfg, After(cfg, calls), key, now)
    ensures var calls' := calls + [CheckAndIncrement(key, now)];
            && After(cfg, calls') == Counted(cfg, After(cfg, calls), key, now, true)
            && Grants(cfg, calls', key) == Grants(cfg, calls, key) + [now]
  {
    assert (calls + [CheckAndIncrement(key, now)])[..|calls|] == calls;
  }

  lemma NoGrant(cfg: Config, calls: seq<Call>, call: Call, key: string)
    requires !call.CheckAndIncrement?
    ensures Grants(cfg, calls + [call], key) == Grants(cfg, calls, key)
  {
    assert (calls + [call])[..|calls|] == calls;
  }

  /** The entries once n more are counted in the current window. */
  function Bumped(cfg: Config, entries: Entries, key: string, now: nat, n: nat): Entries {
    if n == 0 then entries else
    var e := Current(cfg, entries, key, now);
    entries[key := e.(count := e.count + n)]
  }

  lemma BumpedNext(cfg: Config, entries: Entries, key: string, now: nat, n: nat)
    requires 0 < cfg.window && Current(cfg, entries, key, now).count + n < cfg.max
    ensures Granted(cfg, Bumped(cfg, entries, key, now, n), key, now)
    ensures Counted(cfg, Bumped(cfg, entries, key, now, n), key, now, true) == Bumped(cfg, entries, key, now, n + 1)
  {
  }

  lemma {:induction false} FilledEntries(cfg: Config, calls: seq<Call>, key: string, now: nat, n: nat)
    requires 0 < cfg.window && Current(cfg, After(cfg, calls), key, now).count + n <= cfg.max
    ensures After(cfg, Filled(calls, key, now, n)) == Bumped(cfg, After(cfg, calls), key, now, n)
  {
    hide After, Current, Live, Counted;
    if n > 0 {
      FilledEntries(cfg, calls, key, now, n - 1);
      OneMoreBumped(cfg, After(cfg, calls), Filled(calls, key, now, n - 1), key, now, n - 1);
    }
  }

  /** The request after n others at once, in a run that had the entries `start` before them. */
  lemma OneMoreBumped(cfg: Config, start: Entries, calls: seq<Call>, key: string, now: nat, n: nat)
    requires 0 < cfg.window && Current(cfg, start, key, now).count + n < cfg.max
    requires After(cfg, calls) == Bumped(cfg, start, key, now, n)
    ensures var calls' := calls + [CheckAndIncrement(key, now)];
            && After(cfg, calls') == Bumped(cfg, start, key, now, n + 1)
            && Grants(cfg, calls', key) == Grants(cfg, calls, key) + [now]
  {
    hide After, Grants, Bumped, Counted;
    BumpedNext(cfg, start, key, now, n);
    OneMoreGrant(cfg, calls, key, now);
  }

  /** What n requests at once add to the grants of an interval. */
  lemma {:induction false} FilledGrants(cfg: Config, calls: seq<Call>, key: string, now: nat, n: nat,
                                        from: nat, to: nat)
    requires 0 < cfg.window && Current(cfg, After(cfg, calls), key, now).count + n <= cfg.max
    ensures CountIn(Grants(cfg, Filled(calls, key, now, n), key), from, to) ==
            CountIn(Grants(cfg, calls, key), from, to) + if from <= now < to then n else 0
  {
    hide After, Grants, CountIn, Bumped, Current, Live;
    if n > 0 {
      FilledGrants(cfg, calls, key, now, n - 1, from, to);
      FilledEntries(cfg, calls, key, now, n - 1);
      OneMoreCounted(cfg, After(cfg, calls), Filled(calls, key, now, n - 1), key, now, n - 1, from, to);
    }
  }

  lemma OneMoreCounted(cfg: Config, start: Entries, calls: seq<Call>, key: string, now: nat, n: nat, from: nat, to: nat)
    requires 0 < cfg.window && Current(cfg, start, key, now).count + n < cfg.max
    requires After(cfg, calls) == Bumped(cfg, start, key, now, n)
    ensures CountIn(Grants(cfg, calls + [CheckAndIncrement(key, now)], key), from, to) ==
            CountIn(Grants(cfg, calls, key), from, to) + if from <= now < to then 1 else 0
  {
    hide After, Grants, CountIn, Bumped;
    OneMoreBumped(cfg, start, calls, key, now, n);
    CountOneMore(Grants(cfg, calls, key), now, from, to);
  }

  lemma CountOneMore(times: seq<nat>, now: nat, from: nat, to: nat)
    ensures CountIn(times + [now], from, to) == CountIn(times, from, to) + if from <= now < to then 1 else 0
  {
    assert (times + [now])[..|times|] == times;
  }

  /** How much a run grants in the interval as long as a window that begins at `from`. */
  function GrantsIn(cfg: Config, calls: seq<Call>, key: string, from: nat): nat {
    CountIn(Grants(cfg, calls, key), from, from + cfg.window)
  }

  /** One request opens a window, and the rest of it is spent at its end. */
  function FirstWindow(cfg: Config, key: string): seq<Call>
    requires cfg.window > 0 && cfg.max > 0
  {
    Filled(Filled([], key, 0, 1), key, cfg.window - 1, cfg.max - 1)
  }

  lemma EmptyRun(cfg: Config, key: string, from: nat, to: nat)
    ensures After(cfg, []) == map[] && CountIn(Grants(cfg, [], key), from, to) == 0
  {
  }

  lemma FirstWindowSpent(cfg: Config, key: string)
    requires cfg.window > 0 && cfg.max > 0
    ensures After(cfg, FirstWindow(cfg, key)) == map[key := Entry(cfg.max, cfg.window)]
    ensures CountIn(Grants(cfg, FirstWindow(cfg, key), key), 1, 1 + cfg.window) ==
            if cfg.window == 1 then 0 else cfg.max - 1
  {
    hide After, Grants, CountIn, Filled;
    var w := cfg.window;
    var begun := Filled([], key, 0, 1);
    EmptyRun(cfg, key, 1, 1 + w);
    FilledEntries(cfg, [], key, 0, 1);
    FilledGrants(cfg, [], key, 0, 1, 1, 1 + w);
    assert After(cfg, begun) == map[key := Entry(1, w)];
    FilledEntries(cfg, begun, key, w - 1, cfg.max - 1);
    FilledGrants(cfg, begun, key, w - 1, cfg.max - 1, 1, 1 + w);
    assert map[key := Entry(1, w)][key := Entry(cfg.max, w)] == map[key := Entry(cfg.max, w)];
  }

  lemma FirstWindowMonotone(cfg: Config, key: string)
    requires cfg.window > 0 && cfg.max > 0
    ensures Monotone(FirstWindow(cfg, key)) && Latest(FirstWindow(cfg, key)) <= cfg.window
  {
    FilledMonotone([], key, 0, 1);
    FilledMonotone(Filled([], key, 0, 1), key, cfg.window - 1, cfg.max - 1);
  }

  /** For every limiter some ordered run grants that many. */
  lemma IntervalBoundIsReached(cfg: Config, key: string)
    ensures exists calls, from: nat ::
              Monotone(calls) && GrantsIn(cfg, calls, key, from) == IntervalLimit(cfg.window, cfg.max)
  {
    if cfg.window == 0 || cfg.max == 0 {
      assert Monotone([]) && GrantsIn(cfg, [], key, 0) == 0;
    } else {
      hide After, Grants, CountIn, Filled, FirstWindow, Monotone;
      var first := FirstWindow(cfg, key);
      FirstWindowSpent(cfg, key);
      FirstWindowMonotone(cfg, key);
      SecondWindow(cfg, first, key);
    }
  }

  lemma SecondWindow(cfg: Config, first: seq<Call>, key: string)
    requires cfg.window > 0 && cfg.max > 0 && Monotone(first) && Latest(first) <= cfg.window
    requires After(cfg, first) == map[key := Entry(cfg.max, cfg.window)]
    ensures var both := Filled(first, key, cfg.window, cfg.max);
            Monotone(both) && GrantsIn(cfg, both, key, 1) == GrantsIn(cfg, first, key, 1) + cfg.max
  {
    hide After, Grants, CountIn, Filled;
    FilledMonotone(first, key, cfg.window, cfg.max);
    FilledGrants(cfg, first, key, cfg.window, cfg.max, 1, 1 + cfg.window);
  }

  // Without that order.

  /** In whatever order the readings take effect, an entry never counts more grants than `max`. */
  lemma {:induction false} CountNeverExceedsMax(cfg: Config, calls: seq<Call>, key: string)
    requires forall call | call in calls :: !call.RecordAttempt?
    ensures key in After(cfg, calls) ==> After(cfg, calls)[key].count <= cfg.max
  {
    if calls != [] {
      var init, last := calls[..|calls| - 1], calls[|calls| - 1];
      assert last in calls && forall call | call in init :: call in calls;
      CountNeverExceedsMax(cfg, init, key);
    }
  }

  /** No run, in any order of readings, grants more than `bound` in an interval as long as a window. */
  ghost predicate BoundedInAnyOrder(cfg: Config, bound: nat) {
    forall calls, key, from: nat :: GrantsIn(cfg, calls, key, from) <= bound
  }

  /** Without the order there is no bound at all, unless windows are empty or nothing is ever granted. */
  lemma BoundedIffTrivial(cfg: Config)
    ensures (exists bound: nat :: BoundedInAnyOrder(cfg, bound)) <==> cfg.window == 0 || cfg.max == 0
    ensures BoundedInAnyOrder(cfg, IntervalLimit(cfg.window, cfg.max)) <==> cfg.window == 0 || cfg.max == 0
  {
    if cfg.window == 0 || cfg.max == 0 {
      forall calls, key, from: nat ensures GrantsIn(cfg, calls, key, from) == 0 {
        if cfg.max == 0 {
          NothingGranted(cfg, calls, key);
        } else {
          CountBound(Grants(cfg, calls, key), from, from);
        }
      }
      assert BoundedInAnyOrder(cfg, 0);
    } else {
      forall bound: nat ensures !BoundedInAnyOrder(cfg, bound) {
        OvertakenGrants(cfg, "k", bound + 1);
        assert GrantsIn(cfg, OvertakenRun(cfg, "k", bound + 1), "k", 0) == bound + 1;
      }
    }
  }

  lemma {:induction false} NothingGranted(cfg: Config, calls: seq<Call>, key: string)
    requires cfg.max == 0
    ensures Grants(cfg, calls, key) == []
  {
    if calls != [] {
      NothingGranted(cfg, calls[..|calls| - 1], key);
    }
  }

  /** Requests that all read the clock at 0, each overtaken by a cleanup at the end of its window. */
  function OvertakenRun(cfg: Config, key: string, n: nat): seq<Call> {
    if n == 0 then [] else OvertakenRun(cfg, key, n - 1) + [CheckAndIncrement(key, 0)] + [Cleanup(cfg.window)]
  }

  lemma {:induction false} OvertakenGrants(cfg: Config, key: string, n: nat)
    requires cfg.window > 0 && cfg.max > 0
    ensures After(cfg, OvertakenRun(cfg, key, n)) == map[]
    ensures CountIn(Grants(cfg, OvertakenRun(cfg, key, n), key), 0, cfg.window) == n
  {
    if n == 0 {
      EmptyRun(cfg, key, 0, cfg.window);
    } else {
      hide After, Grants, CountIn;
      OvertakenGrants(cfg, key, n - 1);
      OneMoreOvertaken(cfg, OvertakenRun(cfg, key, n - 1), key);
    }
  }

  lemma OneMoreOvertaken(cfg: Config, calls: seq<Call>, key: string)
    requires cfg.window > 0 && cfg.max > 0 && After(cfg, calls) == map[]
    ensures var calls' := calls + [CheckAndIncrement(key, 0)] + [Cleanup(cfg.window)];
            && After(cfg, calls') == map[]
            && CountIn(Grants(cfg, calls', key), 0, cfg.window) == CountIn(Grants(cfg, calls, key), 0, cfg.window) + 1
  {
    hide CountIn;
    var granted := calls + [CheckAndIncrement(key, 0)];
    OneMoreGrant(cfg, calls, key, 0);
    CountOneMore(Grants(cfg, calls, key), 0, 0, cfg.window);
    assert After(cfg, granted) == map[key := Entry(1, cfg.window)];
    AfterSnoc(cfg, granted, Cleanup(cfg.window));
    NoGrant(cfg, granted, Cleanup(cfg.window), key);
  }

  // ------------------------------------------------------------------
  // The auth middleware: check, run the request, record its failure
  // ------------------------------------------------------------------

  /** `inFlight` holds, for every key, the requests that passed the check and have not come back. */
  datatype Gate = Gate(entries: Entries, inFlight: multiset<string>, now: nat)

  datatype GateEvent =
    | Admit(key: string, at: nat)
    | Finish(key: string, success: bool, at: nat)
    | Sweep(at: nat)

  /** `c` is the number of requests of one key that may be running at the same time. */
  predicate GateEnabled(cfg: Config, c: nat, s: Gate, e: GateEvent) {
    && s.now <= e.at
    && match e
       case Admit(key, at) => !Blocked(cfg, s.entries, key, at) && s.inFlight[key] < c
       case Finish(key, _, _) => key in s.inFlight
       case Sweep(_) => true
  }

  function GateStep(cfg: Config, s: Gate, e: GateEvent): Gate {
    match e
    case Admit(key, at) => Gate(s.entries, s.inFlight + multiset{key}, at)
    case Finish(key, success, at) =>
      Gate(if success then s.entries else Counted(cfg, s.entries, key, at, true), s.inFlight - multiset{key}, at)
    case Sweep(at) => Gate(Swept(s.entries, at), s.inFlight, at)
  }

  const GATE_INIT := Gate(map[], multiset{}, 0)

  ghost predicate GateExecution(cfg: Config, c: nat, ss: seq<Gate>, es: seq<GateEvent>) {
    && |ss| == |es| + 1 && ss[0] == GATE_INIT
    && forall i | 0 <= i < |es| :: GateEnabled(cfg, c, ss[i], es[i]) && ss[i + 1] == GateStep(cfg, ss[i], es[i])
  }

  /** The windows of a key, each with the times of the failures recorded in it. */
  function FailureWindows(cfg: Config, ss: seq<Gate>, es: seq<GateEvent>, key: string): seq<Window>
    requires |ss| == |es| + 1
    decreases |es|
  {
    if es == [] then [] else
    var n := |es| - 1;
    var before := FailureWindows(cfg, ss[..n + 1], es[..n], key);
    if es[n].Finish? && es[n].key == key && !es[n].success then
      Extended(before, Live(ss[n].entries, key, es[n].at).Some?, es[n].at, true)
    else before
  }

  function Failures(es: seq<GateEvent>, key: string): seq<nat> {
    if es == [] then [] else
    var e := es[|es| - 1];
    Failures(es[..|es| - 1], key) + if e.Finish? && e.key == key && !e.success then [e.at] else []
  }

  /** The most failures a window can hold: with max = 0 the first request to come back opens the count. */
  function FailureBound(cfg: Config, c: nat): nat {
    if c == 0 then 0 else if cfg.window == 0 then 1 else (if cfg.max == 0 then 1 else cfg.max) + c - 1
  }

  /** A key's count, with the requests that may still add to it, stays within the bound. */
  ghost predicate GateInv(cfg: Config, c: nat, s: Gate) {
    && (forall key :: s.inFlight[key] <= c)
    && (forall key | key in s.entries ::
          s.entries[key].count <= FailureBound(cfg, c) && s.entries[key].resetTime <= s.now + cfg.window)
    && (forall key | Live(s.entries, key, s.now).Some? ::
          s.entries[key].count + s.inFlight[key] <= FailureBound(cfg, c))
  }

  lemma GateCounts(cfg: Config, c: nat, s: Gate, e: GateEvent)
    requires GateInv(cfg, c, s) && GateEnabled(cfg, c, s, e)
    ensures forall key | key in GateStep(cfg, s, e).entries ::
              GateStep(cfg, s, e).entries[key].count <= FailureBound(cfg, c)
              && GateStep(cfg, s, e).entries[key].resetTime <= e.at + cfg.window
  {
    assert e.Finish? ==> s.inFlight[e.key] <= c;
    if e.Finish? && Live(s.entries, e.key, e.at).Some? {
      assert s.entries[e.key].count + s.inFlight[e.key] <= FailureBound(cfg, c);
    }
  }

  lemma GateStepKeepsInv(cfg: Config, c: nat, s: Gate, e: GateEvent)
    requires GateInv(cfg, c, s) && GateEnabled(cfg, c, s, e)
    ensures GateInv(cfg, c, GateStep(cfg, s, e))
  {
    var s' := GateStep(cfg, s, e);
    GateCounts(cfg, c, s, e);
    forall key ensures s'.inFlight[key] <= c && (e.Finish? && e.key == key ==> s'.inFlight[key] < s.inFlight[key]) {
      assert s.inFlight[key] <= c;
    }
    forall key | Live(s'.entries, key, s'.now).Some?
      ensures s'.entries[key].count + s'.inFlight[key] <= FailureBound(cfg, c)
    {
      // An entry open now was open before, unless this very event opened it.
      assert Live(s.entries, key, s.now).Some? || (e.Finish? && e.key == key && s'.entries[key].count == 1);
    }
  }

  lemma {:induction false} GateRunKeepsInv(cfg: Config, c: nat, ss: seq<Gate>, es: seq<GateEvent>, i: nat)
    requires GateExecution(cfg, c, ss, es) && i < |ss|
    ensures GateInv(cfg, c, ss[i])
  {
    if i > 0 {
      GateRunKeepsInv(cfg, c, ss, es, i - 1);
      GateStepKeepsInv(cfg, c, ss[i - 1], es[i - 1]);
    }
  }

  /** The entry counts the failures of its window. */
  ghost predicate CountsFailures(cfg: Config, s: Gate, key: string, ws: seq<Window>) {
    && (key in s.entries ==>
          && ws != [] && s.entries[key].resetTime == ws[|ws| - 1].start + cfg.window
          && |Times(ws[|ws| - 1])| == s.entries[key].count)
    && (key !in s.entries && ws != [] ==> ws[|ws| - 1].start + cfg.window <= s.now)
    && (ws != [] ==> ws[|ws| - 1].start <= s.now && ws[|ws| - 1].opener)
  }

  lemma FailureStep(cfg: Config, c: nat, s: Gate, e: GateEvent, key: string, ws: seq<Window>)
    requires GateInv(cfg, c, s) && GateInv(cfg, c, GateStep(cfg, s, e)) && GateEnabled(cfg, c, s, e)
    requires WellSpaced(ws, cfg.window, FailureBound(cfg, c)) && CountsFailures(cfg, s, key, ws)
    ensures var ws' := if e.Finish? && e.key == key && !e.success
                       then Extended(ws, Live(s.entries, key, e.at).Some?, e.at, true) else ws;
            && WellSpaced(ws', cfg.window, FailureBound(cfg, c))
            && CountsFailures(cfg, GateStep(cfg, s, e), key, ws')
  {
    hide FailureBound, WellSpaced;
    if e.Finish? && e.key == key && !e.success {
      var live := Live(s.entries, key, e.at).Some?;
      if live {
        assert GateStep(cfg, s, e).entries[key].count <= FailureBound(cfg, c);
        LastOk(ws, cfg.window, FailureBound(cfg, c));
      }
      ExtendedIsWellSpaced(ws, cfg.window, FailureBound(cfg, c), live, e.at, true);
    }
  }

  lemma {:induction false} FailureWindowsFollow(cfg: Config, c: nat, ss: seq<Gate>, es: seq<GateEvent>, key: string)
    requires GateExecution(cfg, c, ss, es)
    ensures WellSpaced(FailureWindows(cfg, ss, es, key), cfg.window, FailureBound(cfg, c))
    ensures CountsFailures(cfg, ss[|es|], key, FailureWindows(cfg, ss, es, key))
    decreases |es|
  {
    if es != [] {
      var n := |es| - 1;
      FailureWindowsFollow(cfg, c, ss[..n + 1], es[..n], key);
      GateRunKeepsInv(cfg, c, ss, es, n);
      GateRunKeepsInv(cfg, c, ss, es, n + 1);
      FailureStep(cfg, c, ss[n], es[n], key, FailureWindows(cfg, ss[..n + 1], es[..n], key));
    }
  }

  lemma {:induction false} WindowsHoldFailures(cfg: Config, ss: seq<Gate>, es: seq<GateEvent>, key: string)
    requires |ss| == |es| + 1
    ensures AllTimes(FailureWindows(cfg, ss, es, key)) == Failures(es, key)
    decreases |es|
  {
    if es != [] {
      var n := |es| - 1;
      WindowsHoldFailures(cfg, ss[..n + 1], es[..n], key);
      if es[n].Finish? && es[n].key == key && !es[n].success {
        var before := FailureWindows(cfg, ss[..n + 1], es[..n], key);
        AllTimesExtended(before, Live(ss[n].entries, key, es[n].at).Some?, es[n].at, true);
      }
    }
  }

  /** With c requests in flight a window records at most max + c - 1 failures, every failure being in one window. */
  lemma FailuresPerWindow(cfg: Config, c: nat, ss: seq<Gate>, es: seq<GateEvent>, key: string)
    requires GateExecution(cfg, c, ss, es)
    ensures AllTimes(FailureWindows(cfg, ss, es, key)) == Failures(es, key)
    ensures WellSpaced(FailureWindows(cfg, ss, es, key), cfg.window, FailureBound(cfg, c))
    ensures key in ss[|es|].entries ==> ss[|es|].entries[key].count <= FailureBound(cfg, c)
  {
    FailureWindowsFollow(cfg, c, ss, es, key);
    WindowsHoldFailures(cfg, ss, es, key);
    GateRunKeepsInv(cfg, c, ss, es, |es|);
  }

  /** And an interval as long as a window, wherever it begins, holds less than two such windows. */
  lemma FailuresPerInterval(cfg: Config, c: nat, ss: seq<Gate>, es: seq<GateEvent>, key: string, from: nat)
    requires GateExecution(cfg, c, ss, es)
    ensures CountIn(Failures(es, key), from, from + cfg.window) <= IntervalLimit(cfg.window, FailureBound(cfg, c))
  {
    hide GateExecution, Failures, CountIn, WellSpaced, AllTimes, IntervalLimit, FailureBound;
    var ws, times := SomeFailureWindows(cfg, c, ss, es, key);
    CountInWindows(ws, times, cfg.window, FailureBound(cfg, c), from);
  }

  lemma SomeFailureWindows(cfg: Config, c: nat, ss: seq<Gate>, es: seq<GateEvent>, key: string)
      returns (ws: seq<Window>, times: seq<nat>)
    requires GateExecution(cfg, c, ss, es)
    ensures times == Failures(es, key) && AllTimes(ws) == times && WellSpaced(ws, cfg.window, FailureBound(cfg, c))
  {
    FailuresPerWindow(cfg, c, ss, es, key);
    ws, times := FailureWindows(cfg, ss, es, key), Failures(es, key);
  }

  // The bound is reached, so the limit of `max` failures holds exactly for one request at a time.

  ghost predicate GateReaches(cfg: Config, c: nat, s: Gate) {
    exists ss: seq<Gate>, es: seq<GateEvent> :: GateExecution(cfg, c, ss, es) && ss[|es|] == s
  }

  lemma GateReachesNext(cfg: Config, c: nat, s: Gate, e: GateEvent)
    requires GateReaches(cfg, c, s) && GateEnabled(cfg, c, s, e)
    ensures GateReaches(cfg, c, GateStep(cfg, s, e))
  {
    var ss: seq<Gate>, es: seq<GateEvent> :| GateExecution(cfg, c, ss, es) && ss[|es|] == s;
    var ss', es' := ss + [GateStep(cfg, s, e)], es + [e];
    assert GateExecution(cfg, c, ss', es') && ss'[|es'|] == GateStep(cfg, s, e);
  }

  /** n failures recorded in a window opened at time 0, and m requests still running. */
  function Busy(cfg: Config, key: string, n: nat, m: nat): Gate {
    Gate(if n == 0 then map[] else map[key := Entry(n, cfg.window)], multiset{}[key := m], 0)
  }

  lemma BusyAdmit(cfg: Config, c: nat, key: string, n: nat, m: nat)
    requires n == 0 || n < cfg.max || cfg.window == 0
    requires m < c && GateReaches(cfg, c, Busy(cfg, key, n, m))
    ensures GateReaches(cfg, c, Busy(cfg, key, n, m + 1))
  {
    GateReachesNext(cfg, c, Busy(cfg, key, n, m), Admit(key, 0));
    assert multiset{}[key := m] + multiset{key} == multiset{}[key := m + 1];
  }

  lemma BusyFail(cfg: Config, c: nat, key: string, n: nat, m: nat)
    requires (n == 0 || cfg.window >= 1) && m > 0 && GateReaches(cfg, c, Busy(cfg, key, n, m))
    ensures GateReaches(cfg, c, Busy(cfg, key, n + 1, m - 1))
  {
    GateReachesNext(cfg, c, Busy(cfg, key, n, m), Finish(key, false, 0));
    assert multiset{}[key := m] - multiset{key} == multiset{}[key := m - 1];
    assert map[key := Entry(n, cfg.window)][key := Entry(n + 1, cfg.window)] == map[key := Entry(n + 1, cfg.window)];
  }

  /** Every count up to the bound is reached, with as many requests still running as it leaves room for. */
  lemma {:induction false} BusyReachable(cfg: Config, c: nat, key: string, n: nat, m: nat)
    requires n <= FailureBound(cfg, c) && m <= c
    requires n == 0 || cfg.window == 0 || n + m <= FailureBound(cfg, c)
    ensures GateReaches(cfg, c, Busy(cfg, key, n, m))
    decreases n, m
  {
    if m > 0 && (n == 0 || n < cfg.max || cfg.window == 0) {
      BusyReachable(cfg, c, key, n, m - 1);
      BusyAdmit(cfg, c, key, n, m - 1);
    } else if n > 0 {
      BusyReachable(cfg, c, key, n - 1, m + 1);
      BusyFail(cfg, c, key, n - 1, m + 1);
    } else {
      assert multiset{}[key := 0] == multiset{};
      var ss: seq<Gate>, es: seq<GateEvent> := [GATE_INIT], [];
      assert GateExecution(cfg, c, ss, es) && ss[|es|] == GATE_INIT;
    }
  }

  /** A limit of zero lets through as many failures as there can be requests at a time. */
  lemma ZeroLimitLetsThrough(cfg: Config, c: nat, key: string)
    requires cfg.max == 0 && cfg.window >= 1
    ensures GateReaches(cfg, c, Busy(cfg, key, c, 0))
  {
    BusyReachable(cfg, c, key, c, 0);
  }

  ghost predicate LimitHolds(cfg: Config, c: nat) {
    forall s, key | GateReaches(cfg, c, s) && key in s.entries :: s.entries[key].count <= cfg.max
  }

  /** No key ever counts more failures than `max`, exactly for these limiters. */
  lemma LimitHoldsIffSequential(cfg: Config, c: nat)
    ensures LimitHolds(cfg, c) <==> c == 0 || (cfg.max >= 1 && (c == 1 || cfg.window == 0))
  {
    if FailureBound(cfg, c) <= cfg.max {
      forall s, key | GateReaches(cfg, c, s) && key in s.entries ensures s.entries[key].count <= cfg.max {
        var ss: seq<Gate>, es: seq<GateEvent> :| GateExecution(cfg, c, ss, es) && ss[|es|] == s;
        GateRunKeepsInv(cfg, c, ss, es, |es|);
      }
    } else {
      BusyReachable(cfg, c, "k", FailureBound(cfg, c), 0);
      assert "k" in Busy(cfg, "k", FailureBound(cfg, c), 0).entries;
    }
  }
}
