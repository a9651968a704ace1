/**
 One cache of the Store under concurrent calls. A read checks the flag, queries, and installs, with the lock dropped
 between; a write commits and then invalidates. `V` is what the query reads: a rule list, the static records, or the
 map of blocklist entries.
 */
module CacheRuns {
  import opened Text

  type Thread = nat

  datatype Step<V> =
    | Check(t: Thread)
    | Query(t: Thread)
    | Install(t: Thread)
    | Abandon(t: Thread)
    | Commit(t: Thread, v: V)
    | Invalidate(t: Thread)

  /** `history` is every committed value, newest last; `missed`, `fills` and `pending` are the calls in progress. */
  datatype Cache<V> = Cache(
    history: seq<V>,
    cached: Option<V>,
    missed: set<Thread>,
    fills: map<Thread, V>,
    pending: set<Thread>)

  function Opened<V>(v: V): Cache<V> {
    Cache([v], None, {}, map[], {})
  }

  function Current<V>(s: Cache<V>): V
    requires s.history != []
  {
    s.history[|s.history| - 1]
  }

  predicate Idle<V>(s: Cache<V>, t: Thread) {
    t !in s.missed && t !in s.fills && t !in s.pending
  }

  predicate Enabled<V>(s: Cache<V>, step: Step<V>) {
    match step
    case Check(t) => Idle(s, t)
    case Query(t) => t in s.missed
    case Install(t) => t in s.fills
    case Abandon(t) => t in s.missed || t in s.fills
    case Commit(t, _) => Idle(s, t)
    case Invalidate(t) => t in s.pending
  }

  function Next<V>(s: Cache<V>, step: Step<V>): (r: Cache<V>)
    requires s.history != [] && Enabled(s, step)
    ensures r.history != []
  {
    match step
    case Check(t) => if s.cached.Some? then s else s.(missed := s.missed + {t})
    case Query(t) => s.(missed := s.missed - {t}, fills := s.fills[t := Current(s)])
    case Install(t) => s.(cached := Some(s.fills[t]), fills := s.fills - {t})
    case Abandon(t) => s.(missed := s.missed - {t}, fills := s.fills - {t})
    case Commit(t, v) => s.(history := s.history + [v], pending := s.pending + {t})
    case Invalidate(t) => s.(cached := None, pending := s.pending - {t})
  }

  /** What the reader gets when the step ends its call: the cached value on a hit, its own query's value on a fill. */
  function Returned<V>(s: Cache<V>, step: Step<V>): Option<V> {
    match step
    case Check(_) => s.cached
    case Install(t) => if t in s.fills then Some(s.fills[t]) else None
    case _ => None
  }

  predicate IsRun<V>(v: V, steps: seq<Step<V>>)
    decreases |steps|, 0
  {
    steps == [] || (IsRun(v, steps[..|steps| - 1]) && Enabled(After(v, steps[..|steps| - 1]), steps[|steps| - 1]))
  }

  /** The state a run reaches from a store that was opened on the value v. */
  function After<V>(v: V, steps: seq<Step<V>>): (s: Cache<V>)
    requires IsRun(v, steps)
    ensures s.history != []
    decreases |steps|, 1
  {
    if steps == [] then Opened(v) else Next(After(v, steps[..|steps| - 1]), steps[|steps| - 1])
  }

  // ---------------------------------------------------------------- what every run keeps

  ghost predicate OnlyCommitted<V>(s: Cache<V>) {
    && (s.cached.Some? ==> s.cached.value in s.history)
    && (forall t :: t in s.fills ==> s.fills[t] in s.history)
    && (forall t :: t in s.fills ==> t !in s.missed)
  }

  /** A cached value, and anything a read returns, is the table's value at some commit. */
  lemma {:induction false} ReadsReturnCommittedValues<V>(v: V, steps: seq<Step<V>>)
    requires IsRun(v, steps)
    ensures OnlyCommitted(After(v, steps))
    ensures forall step :: Enabled(After(v, steps), step) && Returned(After(v, steps), step).Some?
                           ==> Returned(After(v, steps), step).value in After(v, steps).history
    decreases |steps|
  {
    if steps != [] {
      var before := steps[..|steps| - 1];
      ReadsReturnCommittedValues(v, before);
      CommittedStep(After(v, before), steps[|steps| - 1]);
    }
  }

  lemma {:induction false} CommittedStep<V>(s: Cache<V>, step: Step<V>)
    requires s.history != [] && OnlyCommitted(s) && Enabled(s, step)
    ensures OnlyCommitted(Next(s, step))
  {
    var r := Next(s, step);
    assert forall x :: x in s.history ==> x in r.history;
    assert Current(s) in s.history;
  }

  /** A write with no other step between its two: the value is committed, and the cache is empty. */
  lemma {:induction false} WriteAlone<V>(s: Cache<V>, t: Thread, v: V)
    requires s.history != [] && Idle(s, t)
    ensures Enabled(s, Commit(t, v))
    ensures var committed := Next(s, Commit(t, v));
            Enabled(committed, Invalidate(t)) && Next(committed, Invalidate(t)) == s.(history := s.history + [v], cached := None)
  {
    assert s.pending + {t} - {t} == s.pending;
  }

  /** A read with no other step between its own: what is cached, or else the present value, which is then cached. */
  lemma {:induction false} ReadAlone<V>(s: Cache<V>, t: Thread)
    requires s.history != [] && Idle(s, t)
    ensures Enabled(s, Check(t)) && Returned(s, Check(t)) == s.cached
    ensures s.cached.Some? ==> Next(s, Check(t)) == s
    ensures s.cached.None? ==>
              var missed := Next(s, Check(t));
              && Enabled(missed, Query(t))
              && var filled := Next(missed, Query(t));
              && Enabled(filled, Install(t)) && Returned(filled, Install(t)) == Some(Current(s))
              && Next(filled, Install(t)) == s.(cached := Some(Current(s)))
  {
    var missed := Next(s, Check(t));
    assert s.cached.None? ==> missed.missed - {t} == s.missed;
    assert s.fills[t := Current(s)] - {t} == s.fills;
  }

  /** A reader whose query fails gives up, before or after its query, and leaves the cache as it is. */
  lemma {:induction false} FailedReadsLeaveNoTrace<V>(s: Cache<V>, t: Thread)
    requires s.history != [] && Idle(s, t) && s.cached.None?
    ensures var missed := Next(s, Check(t));
            && Enabled(missed, Abandon(t)) && Next(missed, Abandon(t)) == s
            && Enabled(missed, Query(t))
            && var filled := Next(missed, Query(t));
            && filled.fills[t] == Current(s) && Enabled(filled, Abandon(t)) && Next(filled, Abandon(t)) == s
  {
    var missed := Next(s, Check(t));
    assert missed.missed - {t} == s.missed;
    assert s.fills[t := Current(s)] - {t} == s.fills;
    assert s.fills - {t} == s.fills;
  }

  // ---------------------------------------------------------------- when the cache is stale

  /** Loaded, every write call finished, and yet not what the table holds. */
  ghost predicate Stale<V>(s: Cache<V>)
    requires s.history != []
  {
    s.cached.Some? && s.pending == {} && s.cached.value != Current(s)
  }

  ghost predicate LatestQuery<V>(steps: seq<Step<V>>, t: Thread, i: nat) {
    i < |steps| && steps[i] == Query(t) && forall m :: i < m < |steps| ==> steps[m] != Query(t)
  }

  /** Some invalidation follows the latest query of thread t. */
  ghost predicate Disturbed<V>(steps: seq<Step<V>>, t: Thread) {
    exists i: nat, k :: LatestQuery(steps, t, i) && i < k < |steps| && steps[k].Invalidate?
  }

  /** The latest install put in a value that an invalidation had overtaken between its query and itself. */
  ghost predicate OvertakenInstall<V>(steps: seq<Step<V>>) {
    exists j :: 0 <= j < |steps| && steps[j].Install? && Disturbed(steps[..j], steps[j].t)
                && forall m :: j < m < |steps| ==> !steps[m].Install? && !steps[m].Invalidate?
  }

  lemma {:induction false} LatestQueryStep<V>(steps: seq<Step<V>>, step: Step<V>, t: Thread, i: nat)
    requires LatestQuery(steps, t, i) && step != Query(t)
    ensures LatestQuery(steps + [step], t, i)
  {
    assert (steps + [step])[i] == Query(t);
  }

  lemma {:induction false} DisturbedStep<V>(steps: seq<Step<V>>, step: Step<V>, t: Thread)
    requires Disturbed(steps, t) && step != Query(t)
    ensures Disturbed(steps + [step], t)
  {
    var i: nat, k :| LatestQuery(steps, t, i) && i < k < |steps| && steps[k].Invalidate?;
    LatestQueryStep(steps, step, t, i);
    assert (steps + [step])[k].Invalidate?;
  }

  lemma {:induction false} OvertakenStep<V>(steps: seq<Step<V>>, step: Step<V>)
    requires OvertakenInstall(steps) && !step.Install? && !step.Invalidate?
    ensures OvertakenInstall(steps + [step])
  {
    var j :| 0 <= j < |steps| && steps[j].Install? && Disturbed(steps[..j], steps[j].t)
             && forall m :: j < m < |steps| ==> !steps[m].Install? && !steps[m].Invalidate?;
    var all := steps + [step];
    assert all[j] == steps[j] && all[..j] == steps[..j];
  }

  lemma {:induction false} FillsWereQueried<V>(v: V, steps: seq<Step<V>>, t: Thread) returns (i: nat)
    requires IsRun(v, steps) && t in After(v, steps).fills
    ensures LatestQuery(steps, t, i)
    decreases |steps|
  {
    var n := |steps| - 1;
    if steps[n] == Query(t) {
      i := n;
    } else {
      i := FillsWereQueried(v, steps[..n], t);
      LatestQueryStep(steps[..n], steps[n], t, i);
      assert steps[..n] + [steps[n]] == steps;
    }
  }

  /** An undisturbed fill holds the current value, or some writer has still to invalidate. */
  ghost predicate FillsExplained<V>(s: Cache<V>, steps: seq<Step<V>>)
    requires s.history != []
  {
    forall t :: t in s.fills && s.fills[t] != Current(s) && s.pending == {} ==> Disturbed(steps, t)
  }

  lemma {:induction false} FillsExplainedStep<V>(v: V, steps: seq<Step<V>>, step: Step<V>)
    requires IsRun(v, steps) && Enabled(After(v, steps), step) && FillsExplained(After(v, steps), steps)
    ensures FillsExplained(Next(After(v, steps), step), steps + [step])
  {
    var s := After(v, steps);
    var r := Next(s, step);
    forall t | t in r.fills && r.fills[t] != Current(r) && r.pending == {}
      ensures Disturbed(steps + [step], t)
    {
      assert step != Query(t) && t in s.fills && !step.Commit?;
      if step.Invalidate? {
        var i := FillsWereQueried(v, steps, t);
        LatestQueryStep(steps, step, t, i);
        assert (steps + [step])[|steps|] == step;
      } else {
        DisturbedStep(steps, step, t);
      }
    }
  }

  lemma {:induction false} StaleStep<V>(v: V, steps: seq<Step<V>>, step: Step<V>)
    requires IsRun(v, steps) && Enabled(After(v, steps), step) && FillsExplained(After(v, steps), steps)
    requires Stale(After(v, steps)) ==> OvertakenInstall(steps)
    ensures Stale(Next(After(v, steps), step)) ==> OvertakenInstall(steps + [step])
  {
    var s := After(v, steps);
    if Stale(Next(s, step)) {
      if step.Install? {
        assert (steps + [step])[|steps|] == step && (steps + [step])[..|steps|] == steps;
      } else {
        assert Stale(s);
        OvertakenStep(steps, step);
      }
    }
  }

  /** In any run at all, a stale cache was put there by a fill whose query-to-install window held an invalidation. */
  lemma {:induction false} StaleOnlyAfterOvertakenInstall<V>(v: V, steps: seq<Step<V>>)
    requires IsRun(v, steps)
    ensures FillsExplained(After(v, steps), steps)
    ensures Stale(After(v, steps)) ==> OvertakenInstall(steps)
    decreases |steps|
  {
    if steps != [] {
      var n := |steps| - 1;
      StaleOnlyAfterOvertakenInstall(v, steps[..n]);
      FillsExplainedStep(v, steps[..n], steps[n]);
      StaleStep(v, steps[..n], steps[n]);
      assert steps[..n] + [steps[n]] == steps;
    }
  }

  // ---------------------------------------------------------------- exactly when it is stale

  /** Step j installed what step i queried, and nothing has replaced or dropped it since. */
  ghost predicate Filled<V>(steps: seq<Step<V>>, j: nat, i: nat) {
    && j < |steps| && steps[j].Install? && LatestQuery(steps[..j], steps[j].t, i)
    && forall m :: j < m < |steps| ==> !steps[m].Install? && !steps[m].Invalidate?
  }

  ghost predicate CommitAfter<V>(steps: seq<Step<V>>, i: nat) {
    exists c :: i < c < |steps| && steps[c].Commit?
  }

  /** A commit fell between the query and the install of the fill that the cache holds. */
  ghost predicate CommitSlippedIn<V>(steps: seq<Step<V>>) {
    exists j: nat, i: nat :: Filled(steps, j, i) && CommitAfter(steps[..j], i)
  }

  ghost predicate AllDifferent<V>(history: seq<V>) {
    forall a, b :: 0 <= a < b < |history| ==> history[a] != history[b]
  }

  lemma {:induction false} CommitAfterStep<V>(steps: seq<Step<V>>, step: Step<V>, i: nat)
    requires i < |steps|
    ensures CommitAfter(steps + [step], i) <==> CommitAfter(steps, i) || step.Commit?
  {
    var all := steps + [step];
    if CommitAfter(steps, i) {
      var c :| i < c < |steps| && steps[c].Commit?;
      assert all[c].Commit?;
    }
    if step.Commit? {
      assert all[|steps|].Commit?;
    }
  }

  lemma {:induction false} FilledStep<V>(steps: seq<Step<V>>, step: Step<V>, j: nat, i: nat)
    requires Filled(steps, j, i) && !step.Install? && !step.Invalidate?
    ensures Filled(steps + [step], j, i)
  {
    assert (steps + [step])[..j] == steps[..j];
  }

  lemma {:induction false} FilledOnce<V>(steps: seq<Step<V>>, j: nat, i: nat, j': nat, i': nat)
    requires Filled(steps, j, i) && Filled(steps, j', i')
    ensures j == j' && i == i'
  {
  }

  /** A fill in progress differs from the table only if a commit followed its query, and does if all commits differ. */
  lemma {:induction false} FillAge<V>(v: V, steps: seq<Step<V>>, t: Thread) returns (i: nat)
    requires IsRun(v, steps) && t in After(v, steps).fills
    ensures LatestQuery(steps, t, i)
    ensures After(v, steps).fills[t] != Current(After(v, steps)) ==> CommitAfter(steps, i)
    ensures AllDifferent(After(v, steps).history) && CommitAfter(steps, i) ==> After(v, steps).fills[t] != Current(After(v, steps))
    decreases |steps|
  {
    var n := |steps| - 1;
    var before, step := steps[..n], steps[n];
    assert before + [step] == steps;
    hide AllDifferent;
    if step == Query(t) {
      i := n;
      StepEffect(After(v, before), step);
    } else {
      var s := After(v, before);
      assert After(v, steps) == Next(s, step);
      StepEffect(s, step);
      ReadsReturnCommittedValues(v, before);
      hide LatestQuery, CommitAfter, IsRun, Next, AllDifferent;
      i := FillAge(v, before, t);
      LatestQueryStep(before, step, t, i);
      CommitAfterStep(before, step, i);
      AgeStep(s, step, s.fills[t]);
    }
  }

  lemma {:induction false} DifferentBefore<V>(short: seq<V>, long: seq<V>)
    requires short <= long
    ensures AllDifferent(long) ==> AllDifferent(short) && forall x :: x in short && |short| < |long| ==> x != long[|long| - 1]
  {
  }

  /** Only a commit moves the table, and only its own query or install touches a fill or fills the cache. */
  lemma {:induction false} StepEffect<V>(s: Cache<V>, step: Step<V>)
    requires s.history != [] && Enabled(s, step)
    ensures Next(s, step).history == if step.Commit? then s.history + [step.v] else s.history
    ensures step.Install? ==> Next(s, step).cached == Some(s.fills[step.t])
    ensures !step.Install? && Next(s, step).cached.Some? ==> !step.Invalidate? && Next(s, step).cached == s.cached
    ensures forall t :: t in Next(s, step).fills && step != Query(t) ==> t in s.fills && Next(s, step).fills[t] == s.fills[t]
    ensures step.Query? ==> step.t in Next(s, step).fills && Next(s, step).fills[step.t] == Current(s)
  {
  }

  /** What a step does to the question whether a value is the table's. */
  lemma {:induction false} AgeStep<V>(s: Cache<V>, step: Step<V>, x: V)
    requires s.history != [] && Enabled(s, step) && x in s.history
    ensures !step.Commit? ==> Current(Next(s, step)) == Current(s)
    ensures step.Commit? && AllDifferent(Next(s, step).history) ==> x != Current(Next(s, step))
    ensures AllDifferent(Next(s, step).history) ==> AllDifferent(s.history)
  {
    StepEffect(s, step);
    hide Next;
    DifferentBefore(s.history, Next(s, step).history);
  }

  /** The same for the cached value, from the query of the fill that installed it. */
  lemma {:induction false} CacheAge<V>(v: V, steps: seq<Step<V>>) returns (j: nat, i: nat)
    requires IsRun(v, steps) && After(v, steps).cached.Some?
    ensures Filled(steps, j, i) && i < j
    ensures After(v, steps).cached.value != Current(After(v, steps)) ==> CommitAfter(steps, i)
    ensures AllDifferent(After(v, steps).history) && CommitAfter(steps, i) ==> After(v, steps).cached.value != Current(After(v, steps))
    decreases |steps|
  {
    var n := |steps| - 1;
    var before, step := steps[..n], steps[n];
    assert before + [step] == steps;
    var s := After(v, before);
    assert After(v, steps) == Next(s, step);
    StepEffect(s, step);
    ReadsReturnCommittedValues(v, before);
    hide CommitAfter, IsRun, Next, AllDifferent;
    if step.Install? {
      j := n;
      i := FillAge(v, before, step.t);
      CommitAfterStep(before, step, i);
    } else {
      hide Filled;
      j, i := CacheAge(v, before);
      FilledStep(before, step, j, i);
      CommitAfterStep(before, step, i);
      AgeStep(s, step, s.cached.value);
    }
  }

  /** A commit that nothing has invalidated after leaves its writer pending. */
  lemma {:induction false} UnfinishedCommit<V>(v: V, steps: seq<Step<V>>, c: nat)
    requires IsRun(v, steps) && c < |steps| && steps[c].Commit? && forall m :: c < m < |steps| ==> !steps[m].Invalidate?
    ensures steps[c].t in After(v, steps).pending
    decreases |steps|
  {
    var n := |steps| - 1;
    if c < n {
      UnfinishedCommit(v, steps[..n], c);
    }
  }

  lemma {:induction false} CommitBeforeInstall<V>(v: V, steps: seq<Step<V>>, j: nat, i: nat)
    requires IsRun(v, steps) && Filled(steps, j, i) && CommitAfter(steps, i) && After(v, steps).pending == {}
    ensures CommitAfter(steps[..j], i)
  {
    var c :| i < c < |steps| && steps[c].Commit?;
    if c > j {
      UnfinishedCommit(v, steps, c);
    } else {
      assert steps[..j][c].Commit?;
    }
  }

  /**
   A stale cache was filled by a read whose query-to-install window held a commit; and if no two commits write the same
   value, a loaded cache with no writer pending is stale exactly then.
   */
  lemma {:induction false} StaleExactlyIf<V>(v: V, steps: seq<Step<V>>)
    requires IsRun(v, steps)
    ensures Stale(After(v, steps)) ==> CommitSlippedIn(steps)
    ensures AllDifferent(After(v, steps).history) ==>
              (Stale(After(v, steps)) <==> After(v, steps).cached.Some? && After(v, steps).pending == {} && CommitSlippedIn(steps))
  {
    var s := After(v, steps);
    if s.cached.Some? && s.pending == {} {
      var j, i := CacheAge(v, steps);
      if s.cached.value != Current(s) {
        CommitBeforeInstall(v, steps, j, i);
      }
      if CommitSlippedIn(steps) {
        var j': nat, i': nat :| Filled(steps, j', i') && CommitAfter(steps[..j'], i');
        FilledOnce(steps, j, i, j', i');
        var c :| i < c < j && steps[..j][c].Commit?;
        assert steps[c].Commit?;
      }
    }
  }

  /** No invalidation falls between any fill's query and its install. */
  ghost predicate Undisturbed<V>(steps: seq<Step<V>>) {
    forall j :: 0 <= j < |steps| && steps[j].Install? ==> !Disturbed(steps[..j], steps[j].t)
  }

  lemma {:induction false} UndisturbedPrefix<V>(steps: seq<Step<V>>, step: Step<V>)
    requires Undisturbed(steps + [step])
    ensures Undisturbed(steps)
  {
    forall j | 0 <= j < |steps| && steps[j].Install?
      ensures !Disturbed(steps[..j], steps[j].t)
    {
      assert (steps + [step])[j] == steps[j] && (steps + [step])[..j] == steps[..j];
    }
  }

  /** In undisturbed runs every read returns the table's present value, unless some write call has not finished. */
  lemma {:induction false} UndisturbedReadsAreFresh<V>(v: V, steps: seq<Step<V>>, step: Step<V>)
    requires IsRun(v, steps) && Enabled(After(v, steps), step) && Undisturbed(steps + [step])
    ensures var s := After(v, steps);
            Returned(s, step).Some? && s.pending == {} ==> Returned(s, step).value == Current(s)
  {
    StaleOnlyAfterOvertakenInstall(v, steps);
    UndisturbedPrefix(steps, step);
    assert (steps + [step])[|steps|] == step && (steps + [step])[..|steps|] == steps;
  }

  /** The cache and every fill in progress lag behind the table only while a writer has yet to invalidate. */
  ghost predicate Fresh<V>(s: Cache<V>)
    requires s.history != []
  {
    s.pending == {} ==>
      (s.cached.Some? ==> s.cached.value == Current(s)) && forall r :: r in s.fills ==> s.fills[r] == Current(s)
  }

  lemma {:induction false} FreshStep<V>(s: Cache<V>, step: Step<V>)
    requires s.history != [] && Enabled(s, step) && Fresh(s) && !step.Invalidate?
    ensures Fresh(Next(s, step))
  {
  }

  lemma {:induction false} SnocParts<T>(a: seq<T>, x: T, b: seq<T>)
    ensures b == [] ==> (a + [x] + b)[..|a|] == a && (a + [x] + b)[|a|] == x && |a + [x] + b| == |a| + 1
    ensures b != [] ==> (a + [x] + b)[..|a| + |b|] == a + [x] + b[..|b| - 1] && (a + [x] + b)[|a| + |b|] == b[|b| - 1]
  {
  }

  /** An invalidation that no fill straddles makes the cache fresh, however stale it was, until the next one. */
  lemma {:induction false} InvalidationHeals<V>(v: V, steps: seq<Step<V>>, t: Thread, later: seq<Step<V>>)
    requires IsRun(v, steps) && After(v, steps).fills == map[]
    requires IsRun(v, steps + [Invalidate(t)] + later)
    requires forall m :: 0 <= m < |later| ==> !later[m].Invalidate?
    ensures Fresh(After(v, steps + [Invalidate(t)] + later))
    decreases |later|
  {
    SnocParts(steps, Invalidate(t), later);
    if later != [] {
      var before := later[..|later| - 1];
      InvalidationHeals(v, steps, t, before);
      FreshStep(After(v, steps + [Invalidate(t)] + before), later[|later| - 1]);
      hide Fresh, Next, Enabled;
    }
  }

  lemma {:induction false} RunStep<V>(v: V, before: seq<Step<V>>, step: Step<V>)
    requires IsRun(v, before) && Enabled(After(v, before), step)
    ensures IsRun(v, before + [step]) && After(v, before + [step]) == Next(After(v, before), step)
  {
    assert (before + [step])[..|before|] == before;
  }

  /** Without the premise the cache does go stale, and every later read returns the old value until the next write. */
  lemma {:induction false} OvertakenFillGoesStale<V>(was: V, now: V, reader: Thread, writer: Thread, hits: nat)
    returns (steps: seq<Step<V>>)
    requires was != now && reader != writer
    ensures IsRun(was, steps) && |steps| == 5 + hits && forall m :: 5 <= m < |steps| ==> steps[m] == Check(reader)
    ensures Stale(After(was, steps)) && Current(After(was, steps)) == now
    ensures Enabled(After(was, steps), Check(reader)) && Returned(After(was, steps), Check(reader)) == Some(was)
  {
    if hits == 0 {
      steps := [];
      RunStep(was, steps, Check(reader));
      steps := steps + [Check(reader)];
      RunStep(was, steps, Query(reader));
      steps := steps + [Query(reader)];
      RunStep(was, steps, Commit(writer, now));
      steps := steps + [Commit(writer, now)];
      RunStep(was, steps, Invalidate(writer));
      steps := steps + [Invalidate(writer)];
      RunStep(was, steps, Install(reader));
      steps := steps + [Install(reader)];
    } else {
      steps := OvertakenFillGoesStale(was, now, reader, writer, hits - 1);
      RunStep(was, steps, Check(reader));
      steps := steps + [Check(reader)];
    }
  }
}
