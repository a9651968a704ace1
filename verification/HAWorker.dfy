/**
 The heartbeat and sync loop of a paired node, in nanoseconds since its tickers were started, and how old the last
 stored heartbeat can get. A ticker's channel holds one tick: a tick that finds it full is dropped.
 */
module HAWorker {
  import opened Text

  const SECOND := 1_000_000_000
  const BEAT_PERIOD := 60 * SECOND
  const SYNC_PERIOD := 300 * SECOND
  const BEAT_TIMEOUT := 10 * SECOND
  const SYNC_TIMEOUT := 30 * SECOND
  const STALE_AFTER := 180

  /** A heartbeat run: CheckedAt is taken and, when the peer answers well, stored within the run. */
  datatype Run = Run(duration: int, checkedAfter: int, storedAfter: int, ok: bool)

  /** What one turn of the select loop meets: the pick if both ticks are waiting, and how each kind of run would go. */
  datatype Turn = Turn(syncFirst: bool, beat: Run, syncDuration: int)

  datatype Beat = Beat(start: int, checked: int, stored: int, ok: bool)

  /** The loop's state: the time, and for each ticker the tick that waits or comes next. */
  datatype Clock = Clock(now: int, nextBeat: int, nextSync: int)

  predicate InTime(r: Run) {
    0 <= r.checkedAfter <= r.storedAfter <= r.duration <= BEAT_TIMEOUT
  }

  predicate TurnInTime(t: Turn) {
    InTime(t.beat) && 0 <= t.syncDuration <= SYNC_TIMEOUT
  }

  /** The first tick after `at`; those that came while the channel was full are gone. */
  function NextTick(period: int, at: int): int
    requires period > 0
  {
    (at / period + 1) * period
  }

  function BeatAt(start: int, r: Run): Beat {
    Beat(start, start + r.checkedAfter, start + r.storedAfter, r.ok)
  }

  /** When the select returns. */
  function Woken(c: Clock): int {
    if c.nextBeat <= c.now || c.nextSync <= c.now then c.now
    else if c.nextBeat <= c.nextSync then c.nextBeat
    else c.nextSync
  }

  predicate PicksSync(c: Clock, t: Turn) {
    c.nextSync <= Woken(c) && (c.nextBeat > Woken(c) || t.syncFirst)
  }

  function Advance(c: Clock, t: Turn): Clock {
    var start := Woken(c);
    if PicksSync(c, t) then c.(now := start + t.syncDuration, nextSync := NextTick(SYNC_PERIOD, start))
    else c.(now := start + t.beat.duration, nextBeat := NextTick(BEAT_PERIOD, start))
  }

  /** The worker beats once before it first selects. */
  function Started(first: Run): Clock {
    Clock(first.duration, BEAT_PERIOD, SYNC_PERIOD)
  }

  function ClockAfter(first: Run, turns: seq<Turn>): Clock {
    if turns == [] then Started(first) else Advance(ClockAfter(first, turns[..|turns| - 1]), turns[|turns| - 1])
  }

  function Beats(first: Run, turns: seq<Turn>): (b: seq<Beat>)
    ensures b != [] && b[0] == BeatAt(0, first)
  {
    if turns == [] then [BeatAt(0, first)] else
      var n := |turns| - 1;
      var c := ClockAfter(first, turns[..n]);
      Beats(first, turns[..n]) + if PicksSync(c, turns[n]) then [] else [BeatAt(Woken(c), turns[n].beat)]
  }

  /** The next tick is the first multiple of a minute, or of five, after the time. */
  lemma {:induction false} TicksAre(at: int)
    ensures var beat := NextTick(BEAT_PERIOD, at); beat % 60_000_000_000 == 0 && at < beat <= at + 60_000_000_000
    ensures var sync := NextTick(SYNC_PERIOD, at); sync % 300_000_000_000 == 0 && at < sync <= at + 300_000_000_000
  {
  }

  /** A turn starts when a tick waits; it takes its run's time, and drains that ticker. */
  lemma {:induction false} TurnIs(first: Run, c: Clock, t: Turn)
    ensures ClockAfter(first, []) == Clock(first.duration, 60_000_000_000, 300_000_000_000)
    ensures c.now <= Woken(c) && (c.nextBeat <= Woken(c) || c.nextSync <= Woken(c))
    ensures Woken(c) == c.now || (Woken(c) <= c.nextBeat && Woken(c) <= c.nextSync)
    ensures var start := Woken(c);
            if c.nextSync <= start && (c.nextBeat > start || t.syncFirst)
            then PicksSync(c, t) && Advance(c, t) == Clock(start + t.syncDuration, c.nextBeat, NextTick(SYNC_PERIOD, start))
            else !PicksSync(c, t) && Advance(c, t) == Clock(start + t.beat.duration, NextTick(BEAT_PERIOD, start), c.nextSync)
  {
    hide NextTick;
  }

  /** StartHAWorker's loop over any number of turns. */
  method Work(first: Run, turns: seq<Turn>) returns (beats: seq<Beat>)
    ensures beats == Beats(first, turns)
  {
    var now, nextBeat, nextSync := 0, BEAT_PERIOD, SYNC_PERIOD;
    beats := [BeatAt(now, first)];
    now := now + first.duration;
    for i := 0 to |turns|
      invariant Clock(now, nextBeat, nextSync) == ClockAfter(first, turns[..i])
      invariant beats == Beats(first, turns[..i])
    {
      assert turns[..i + 1][..i] == turns[..i];
      if nextBeat > now && nextSync > now {
        now := if nextBeat <= nextSync then nextBeat else nextSync;
      }
      if nextSync <= now && (nextBeat > now || turns[i].syncFirst) {
        nextSync := NextTick(SYNC_PERIOD, now);
        now := now + turns[i].syncDuration;
        assert beats + [] == beats;
      } else {
        nextBeat := NextTick(BEAT_PERIOD, now);
        beats := beats + [BeatAt(now, turns[i].beat)];
        now := now + turns[i].beat.duration;
      }
    }
    assert turns[..|turns|] == turns;
  }

  // ---------------------------------------------------------------- the schedule

  /** The k-th heartbeat starts within 30 seconds of the k-th tick, and ends within 10 more. */
  ghost predicate OnSchedule(beats: seq<Beat>) {
    forall k :: 0 <= k < |beats| ==>
      && k * BEAT_PERIOD <= beats[k].start <= k * BEAT_PERIOD + SYNC_TIMEOUT
      && beats[k].start <= beats[k].checked <= beats[k].stored <= beats[k].start + BEAT_TIMEOUT
  }

  /**
   Where the loop stands when it selects with the n-th heartbeat due next, the sync tick being m heartbeats away:
   either no sync waits, or one does that came with the heartbeat just run.
   */
  ghost predicate Standing(c: Clock, n: int, m: int) {
    && n >= 1 && c.nextBeat == n * BEAT_PERIOD && c.nextSync == c.nextBeat + m * BEAT_PERIOD
    && (n + m) % 5 == 0
    && c.now <= c.nextBeat + SYNC_TIMEOUT
    && (0 <= m <= 5 || (m == -1 && c.nextSync <= c.now <= c.nextSync + BEAT_TIMEOUT))
    && (m == 0 ==> c.now <= c.nextBeat)
  }

  lemma {:induction false} NextBeatTick(n: int, at: int)
    requires n * BEAT_PERIOD <= at < (n + 1) * BEAT_PERIOD
    ensures NextTick(BEAT_PERIOD, at) == (n + 1) * BEAT_PERIOD
  {
    assert at / BEAT_PERIOD == n;
  }

  lemma {:induction false} NextSyncTick(n: int, at: int)
    requires n % 5 == 0 && n * BEAT_PERIOD <= at < (n + 5) * BEAT_PERIOD
    ensures NextTick(SYNC_PERIOD, at) == (n + 5) * BEAT_PERIOD
  {
    assert at / SYNC_PERIOD == n / 5;
  }

  lemma {:induction false} TurnStands(c: Clock, t: Turn, n: int, m: int)
    requires Standing(c, n, m) && TurnInTime(t)
    ensures PicksSync(c, t) ==> Standing(Advance(c, t), n, m + 5)
    ensures !PicksSync(c, t) ==> n * BEAT_PERIOD <= Woken(c) <= n * BEAT_PERIOD + SYNC_TIMEOUT && Standing(Advance(c, t), n + 1, m - 1)
  {
    if PicksSync(c, t) {
      NextSyncTick(n + m, Woken(c));
    } else {
      NextBeatTick(n, Woken(c));
    }
  }

  /** However the ticks fall and whatever the runs take, no heartbeat tick is dropped and each is answered in time. */
  lemma {:induction false} EveryTickIsAnswered(first: Run, turns: seq<Turn>) returns (m: int)
    requires InTime(first) && forall i :: 0 <= i < |turns| ==> TurnInTime(turns[i])
    ensures OnSchedule(Beats(first, turns))
    ensures Standing(ClockAfter(first, turns), |Beats(first, turns)|, m)
  {
    if turns == [] {
      m := 4;
    } else {
      var k := |turns| - 1;
      var before := Beats(first, turns[..k]);
      var c := ClockAfter(first, turns[..k]);
      m := EveryTickIsAnswered(first, turns[..k]);
      TurnStands(c, turns[k], |before|, m);
      hide Standing, Advance, PicksSync, Woken;
      m := if PicksSync(c, turns[k]) then m + 5 else m - 1;
    }
  }

  // ---------------------------------------------------------------- staleness

  /** The heartbeat time in the settings at time t. */
  function StoredAt(beats: seq<Beat>, t: int): Option<int> {
    if beats == [] then None else
      var last := beats[|beats| - 1];
      if last.ok && last.stored <= t then Some(last.checked) else StoredAt(beats[..|beats| - 1], t)
  }

  /** HAHealth of an enabled node. */
  predicate Stale(stored: Option<int>, t: int) {
    stored.None? || (t - stored.value) / SECOND > STALE_AFTER
  }

  ghost predicate SomeSucceeds(beats: seq<Beat>, i: int, f: nat) {
    exists j :: 0 <= j < |beats| && i <= j <= i + f && beats[j].ok
  }

  /** From the good beat m on, no more than f beats in a row fail. */
  ghost predicate AtMostFailing(beats: seq<Beat>, m: nat, f: nat) {
    m < |beats| && beats[m].ok && forall i :: m <= i < |beats| - f ==> SomeSucceeds(beats, i, f)
  }

  lemma {:induction false} LastSuccess(beats: seq<Beat>, m: nat, f: nat) returns (j: int)
    requires AtMostFailing(beats, m, f)
    ensures m <= j < |beats| && |beats| - 1 - f <= j && beats[j].ok && forall i :: j < i < |beats| ==> !beats[i].ok
  {
    j := |beats| - 1;
    while !beats[j].ok
      invariant m <= j < |beats|
      invariant forall i :: j < i < |beats| ==> !beats[i].ok
      decreases j
    {
      j := j - 1;
    }
    if m <= |beats| - 1 - f {
      assert SomeSucceeds(beats, |beats| - 1 - f, f);
    }
  }

  lemma {:induction false} StoredIsLastSuccess(beats: seq<Beat>, j: nat, t: int)
    requires j < |beats| && beats[j].ok && beats[j].stored <= t && forall i :: j < i < |beats| ==> !beats[i].ok
    ensures StoredAt(beats, t) == Some(beats[j].checked)
  {
    if j < |beats| - 1 {
      StoredIsLastSuccess(beats[..|beats| - 1], j, t);
    }
  }

  lemma {:induction false} FewerFailing(beats: seq<Beat>, m: nat, f: nat)
    requires AtMostFailing(beats, m, f) && m < |beats| - 1
    ensures AtMostFailing(beats[..|beats| - 1], m, f)
  {
    var b := beats[..|beats| - 1];
    forall i | m <= i < |b| - f
      ensures SomeSucceeds(b, i, f)
    {
      assert SomeSucceeds(beats, i, f);
      var j :| 0 <= j < |beats| && i <= j <= i + f && beats[j].ok;
      assert b[j].ok;
    }
  }

  /** Once every beat's deadline has passed, the age is set by the last one that succeeded. */
  lemma {:induction false} AgeAfterDeadline(beats: seq<Beat>, j: nat, f: nat, t: int)
    requires OnSchedule(beats) && j < |beats| && |beats| - 1 - f <= j && beats[j].ok && beats[j].stored <= t
    requires forall i :: j < i < |beats| ==> !beats[i].ok
    requires t <= |beats| * BEAT_PERIOD + SYNC_TIMEOUT + BEAT_TIMEOUT
    ensures var s := StoredAt(beats, t); s.Some? && t - s.value <= 100 * SECOND + f * BEAT_PERIOD
  {
    StoredIsLastSuccess(beats, j, t);
    assert (|beats| - j) * BEAT_PERIOD <= (f + 1) * BEAT_PERIOD;
  }

  /** With at most f failures in a row, the stored heartbeat is at most 100 + 60 f seconds old, until the next is due. */
  lemma {:induction false} HeartbeatAge(beats: seq<Beat>, m: nat, f: nat, t: int)
    requires OnSchedule(beats) && AtMostFailing(beats, m, f)
    requires beats[m].stored <= t <= |beats| * BEAT_PERIOD + SYNC_TIMEOUT + BEAT_TIMEOUT
    ensures var s := StoredAt(beats, t); s.Some? && t - s.value <= 100 * SECOND + f * BEAT_PERIOD
  {
    hide AtMostFailing, NextTick;
    var n := |beats| - 1;
    if m < n && t <= n * BEAT_PERIOD + SYNC_TIMEOUT + BEAT_TIMEOUT && !(beats[n].ok && beats[n].stored <= t) {
      FewerFailing(beats, m, f);
      HeartbeatAge(beats[..n], m, f, t);
    } else {
      var j := LastSuccess(beats, m, f);
      assert j < n ==> j * BEAT_PERIOD <= n * BEAT_PERIOD - BEAT_PERIOD;
      AgeAfterDeadline(beats, j, f, t);
    }
  }

  /**
   From its first good heartbeat on, a node whose heartbeats never fail twice in a row is never stale, whatever the
   order and length of the runs; when none fail, the stored heartbeat is never older than 100 seconds.
   */
  lemma {:induction false} HealthyPeersAreNeverStale(first: Run, turns: seq<Turn>, m: nat, f: nat, t: int)
    requires InTime(first) && forall i :: 0 <= i < |turns| ==> TurnInTime(turns[i])
    requires f <= 1 && AtMostFailing(Beats(first, turns), m, f)
    requires Beats(first, turns)[m].stored <= t <= ClockAfter(first, turns).now
    ensures var s := StoredAt(Beats(first, turns), t);
            s.Some? && !Stale(s, t) && t - s.value <= if f == 0 then 100 * SECOND else 160 * SECOND
  {
    var x := EveryTickIsAnswered(first, turns);
    HeartbeatAge(Beats(first, turns), m, f, t);
  }

  // ---------------------------------------------------------------- exactly when it is stale

  /** Beats j and k succeed, and none between them. */
  ghost predicate NextSuccess(beats: seq<Beat>, j: nat, k: nat) {
    j < k < |beats| && beats[j].ok && beats[k].ok && forall i :: j < i < k ==> !beats[i].ok
  }

  lemma {:induction false} StoredBetween(beats: seq<Beat>, j: nat, k: nat, t: int)
    requires OnSchedule(beats) && j < |beats| && beats[j].ok && beats[j].stored <= t
    requires forall i :: j < i < |beats| && i < k ==> !beats[i].ok
    requires k < |beats| ==> t < beats[k].stored
    ensures StoredAt(beats, t) == Some(beats[j].checked)
  {
    var n := |beats| - 1;
    if j < n {
      if k < n {
        LaterIsStoredLater(beats, k, n);
      }
      StoredBetween(beats[..n], j, k, t);
    }
  }

  lemma {:induction false} LaterIsStoredLater(beats: seq<Beat>, k: nat, n: nat)
    requires OnSchedule(beats) && k < n < |beats|
    ensures beats[k].stored < beats[n].stored
  {
    assert k * BEAT_PERIOD + BEAT_PERIOD <= n * BEAT_PERIOD;
  }

  lemma {:induction false} StaleBySeconds(checked: int, t: int)
    ensures Stale(Some(checked), t) <==> t - checked >= (STALE_AFTER + 1) * SECOND
  {
  }

  /** Between two successes the node is stale at some time if and only if the second was stored over 181 s after the first was checked. */
  lemma {:induction false} StaleBetweenIff(beats: seq<Beat>, j: nat, k: nat)
    requires OnSchedule(beats) && NextSuccess(beats, j, k)
    ensures (exists t :: beats[j].stored <= t < beats[k].stored && Stale(StoredAt(beats, t), t)) <==>
            beats[k].stored - beats[j].checked > 181_000_000_000
  {
    hide StoredAt, Stale;
    forall t | beats[j].stored <= t < beats[k].stored
      ensures Stale(StoredAt(beats, t), t) <==> t - beats[j].checked >= (STALE_AFTER + 1) * SECOND
    {
      StoredBetween(beats, j, k, t);
      StaleBySeconds(beats[j].checked, t);
    }
    var t := beats[j].checked + (STALE_AFTER + 1) * SECOND;
    if t < beats[k].stored {
      assert Stale(StoredAt(beats, t), t);
    }
  }

  /** After three failures in a row it is always stale when the next beat is due, however the runs went. */
  lemma {:induction false} ThreeFailuresAreStale(beats: seq<Beat>, j: nat)
    requires OnSchedule(beats) && |beats| == j + 4 && beats[j].ok && forall i :: j < i < |beats| ==> !beats[i].ok
    ensures Stale(StoredAt(beats, |beats| * BEAT_PERIOD), |beats| * BEAT_PERIOD)
  {
    hide StoredAt, Stale;
    var t := |beats| * BEAT_PERIOD;
    StoredBetween(beats, j, |beats|, t);
    StaleBySeconds(beats[j].checked, t);
  }

  /** A turn that beats adds one heartbeat, with the times of its run. */
  lemma {:induction false} BeatTurn(first: Run, turns: seq<Turn>, t: Turn)
    requires !PicksSync(ClockAfter(first, turns), t)
    ensures ClockAfter(first, turns + [t]) == Advance(ClockAfter(first, turns), t)
    ensures var start, r := Woken(ClockAfter(first, turns)), t.beat;
            Beats(first, turns + [t]) == Beats(first, turns) + [Beat(start, start + r.checkedAfter, start + r.storedAfter, r.ok)]
  {
    assert (turns + [t])[..|turns|] == turns;
  }

  lemma {:induction false} LateStoreIsStale(good: Beat, bad: seq<Beat>, late: Beat, t: int)
    requires good.ok && good.stored <= t && (forall i :: 0 <= i < |bad| ==> !bad[i].ok) && late.stored > t
    requires t - good.checked >= (STALE_AFTER + 1) * SECOND
    ensures Stale(StoredAt([good] + bad + [late], t), t)
  {
    var beats := [good] + bad;
    assert (beats + [late])[..|beats|] == beats;
    StoredIsLastSuccess(beats, 0, t);
  }

  /** Two failures in a row can make it stale: the run after them may store its heartbeat too late. */
  lemma {:induction false} TwoFailuresCanGoStale(first: Run, bad: Turn, late: Turn)
    requires first == Run(0, 0, 0, true) && bad == Turn(false, Run(BEAT_TIMEOUT, 0, 0, false), 0)
    requires late == Turn(false, Run(BEAT_TIMEOUT, 0, BEAT_TIMEOUT, true), 0)
    ensures InTime(first) && TurnInTime(bad) && TurnInTime(late)
    ensures var turns, t := [] + [bad] + [bad] + [late], 185 * SECOND;
            && AtMostFailing(Beats(first, turns), 0, 2)
            && Stale(StoredAt(Beats(first, turns), t), t) && t <= ClockAfter(first, turns).now
  {
    var turns: seq<Turn> := [];
    BeatTurn(first, turns, bad);
    turns := turns + [bad];
    BeatTurn(first, turns, bad);
    turns := turns + [bad];
    BeatTurn(first, turns, late);
    turns := turns + [late];
    var good, b1 := BeatAt(0, first), BeatAt(BEAT_PERIOD, bad.beat);
    var b2, b3 := BeatAt(2 * BEAT_PERIOD, bad.beat), BeatAt(3 * BEAT_PERIOD, late.beat);
    var beats := [good] + [b1, b2] + [b3];
    assert Beats(first, turns) == beats;
    LateStoreIsStale(good, [b1, b2], b3, 185 * SECOND);
    assert beats[0].ok && beats[3].ok;
    assert SomeSucceeds(beats, 0, 2) && SomeSucceeds(beats, 1, 2);
  }
}
