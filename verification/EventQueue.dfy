/** The bounded event queue between the DNS handlers and the one writer, in any interleaving of their steps. */
module EventQueue {
  import opened Text

  type Thread = nat

  /** An event the writer is done with, and whether its insert worked. */
  datatype Written<E> = Written(event: E, ok: bool)

  /**
   `counted` are the handlers between queries.Add(1) and their send; `held` is the event the writer has taken off the
   queue. `accepted` lists every event a send put in the queue, oldest first, and `drops` every event one dropped.
   */
  datatype Pipe<E> = Pipe(
    queries: int,
    counted: map<Thread, E>,
    queue: seq<E>,
    dropped: int,
    held: Option<E>,
    stopped: bool,
    written: seq<Written<E>>,
    accepted: seq<E>,
    drops: seq<E>)

  datatype Step<E> =
    | Count(t: Thread, event: E)
    | Send(t: Thread)
    | Take
    | Insert(ok: bool)
    | Stop

  function Opened<E>(): Pipe<E> {
    Pipe(0, map[], [], 0, None, false, [], [], [])
  }

  predicate Enabled<E>(p: Pipe<E>, step: Step<E>) {
    match step
    case Count(t, _) => t !in p.counted
    case Send(t) => t in p.counted
    case Take => p.held.None? && !p.stopped && p.queue != []
    case Insert(_) => p.held.Some?
    case Stop => p.held.None? && !p.stopped
  }

  function Next<E>(p: Pipe<E>, step: Step<E>, capacity: nat): Pipe<E>
    requires Enabled(p, step)
  {
    match step
    case Count(t, e) => p.(queries := p.queries + 1, counted := p.counted[t := e])
    case Send(t) =>
      if |p.queue| < capacity
      then p.(queue := p.queue + [p.counted[t]], accepted := p.accepted + [p.counted[t]], counted := p.counted - {t})
      else p.(dropped := p.dropped + 1, drops := p.drops + [p.counted[t]], counted := p.counted - {t})
    case Take => p.(held := Some(p.queue[0]), queue := p.queue[1..])
    case Insert(ok) => p.(held := None, written := p.written + [Written(p.held.value, ok)])
    case Stop => p.(stopped := true)
  }

  predicate IsRun<E>(p: Pipe<E>, steps: seq<Step<E>>, capacity: nat)
    decreases |steps|
  {
    steps == [] || (Enabled(p, steps[0]) && IsRun(Next(p, steps[0], capacity), steps[1..], capacity))
  }

  function End<E>(p: Pipe<E>, steps: seq<Step<E>>, capacity: nat): Pipe<E>
    requires IsRun(p, steps, capacity)
    decreases |steps|
  {
    if steps == [] then p else End(Next(p, steps[0], capacity), steps[1..], capacity)
  }

  // ---------------------------------------------------------------- what every run keeps

  function Held<E>(p: Pipe<E>): seq<E> {
    if p.held.Some? then [p.held.value] else []
  }

  function Events<E>(w: seq<Written<E>>): seq<E> {
    seq(|w|, i requires 0 <= i < |w| => w[i].event)
  }

  function Inserted<E>(w: seq<Written<E>>, ok: bool): int {
    if w == [] then 0 else Inserted(w[..|w| - 1], ok) + if w[|w| - 1].ok == ok then 1 else 0
  }

  ghost predicate Counted<E>(p: Pipe<E>, capacity: nat) {
    && p.queries == Inserted(p.written, true) + Inserted(p.written, false) + |Held(p)| + |p.queue| + p.dropped + |p.counted|
    && |p.queue| <= capacity
  }

  ghost predicate InOrder<E>(p: Pipe<E>) {
    p.accepted == Events(p.written) + Held(p) + p.queue
  }

  ghost predicate Conserved<E>(p: Pipe<E>, capacity: nat) {
    Counted(p, capacity) && InOrder(p)
  }

  lemma {:induction false} InsertedSnoc<E>(w: seq<Written<E>>, x: Written<E>)
    ensures Events(w + [x]) == Events(w) + [x.event]
    ensures Inserted(w + [x], x.ok) == Inserted(w, x.ok) + 1 && Inserted(w + [x], !x.ok) == Inserted(w, !x.ok)
  {
    assert (w + [x])[..|w|] == w;
  }

  lemma {:induction false} RemoveOne<E>(m: map<Thread, E>, t: Thread)
    requires t in m
    ensures |m - {t}| == |m| - 1
  {
    assert (m - {t}).Keys == m.Keys - {t};
  }

  lemma {:induction false} AddOne<E>(m: map<Thread, E>, t: Thread, e: E)
    requires t !in m
    ensures |m[t := e]| == |m| + 1
  {
    assert m[t := e].Keys == m.Keys + {t};
  }

  lemma {:induction false} StepCounts<E>(p: Pipe<E>, step: Step<E>, capacity: nat)
    requires Counted(p, capacity) && Enabled(p, step)
    ensures Counted(Next(p, step, capacity), capacity)
  {
    hide Events, Inserted;
    match step {
      case Count(t, e) => AddOne(p.counted, t, e);
      case Send(t) => RemoveOne(p.counted, t);
      case Insert(ok) => InsertedSnoc(p.written, Written(p.held.value, ok));
      case _ =>
    }
  }

  lemma {:induction false} StepKeepsOrder<E>(p: Pipe<E>, step: Step<E>, capacity: nat)
    requires InOrder(p) && Enabled(p, step)
    ensures InOrder(Next(p, step, capacity))
  {
    hide Events, Inserted;
    var q := Next(p, step, capacity);
    match step {
      case Send(t) => assert p.accepted + [p.counted[t]] == Events(p.written) + Held(p) + (p.queue + [p.counted[t]]);
      case Take => assert p.queue == [p.queue[0]] + p.queue[1..];
      case Insert(ok) =>
        InsertedSnoc(p.written, Written(p.held.value, ok));
        assert Events(q.written) + Held(q) == Events(p.written) + Held(p);
      case _ =>
    }
  }

  lemma {:induction false} RunConserves<E>(p: Pipe<E>, steps: seq<Step<E>>, capacity: nat)
    requires Conserved(p, capacity) && IsRun(p, steps, capacity)
    ensures Conserved(End(p, steps, capacity), capacity)
    decreases |steps|
  {
    hide Counted, InOrder, Next, Enabled;
    if steps != [] {
      StepCounts(p, steps[0], capacity);
      StepKeepsOrder(p, steps[0], capacity);
      RunConserves(Next(p, steps[0], capacity), steps[1..], capacity);
    }
  }

  /**
   At every moment of every interleaving: each counted query was inserted, failed to insert, is held by the writer,
   waits in the queue, was dropped, or has still to be sent; the queue stays within its capacity; and the writer
   handles the accepted events in the order in which they were accepted.
   */
  lemma {:induction false} EveryEventIsAccountedFor<E>(steps: seq<Step<E>>, capacity: nat)
    requires IsRun(Opened<E>(), steps, capacity)
    ensures var p := End(Opened<E>(), steps, capacity);
            && p.queries == Inserted(p.written, true) + Inserted(p.written, false) + |Held(p)| + |p.queue| + p.dropped + |p.counted|
            && p.accepted == Events(p.written) + Held(p) + p.queue
            && |p.queue| <= capacity
  {
    hide Next, Enabled;
    RunConserves(Opened<E>(), steps, capacity);
  }

  /** An event is dropped only at a moment when as many accepted events wait as the queue can hold. */
  lemma {:induction false} DropsNeedAFullQueue<E>(steps: seq<Step<E>>, step: Step<E>, capacity: nat)
    requires IsRun(Opened<E>(), steps, capacity) && Enabled(End(Opened<E>(), steps, capacity), step)
    ensures var p := End(Opened<E>(), steps, capacity);
            Next(p, step, capacity).dropped != p.dropped ==>
              && |p.accepted| - |p.written| - |Held(p)| == capacity
              && step.Send? && Next(p, step, capacity).drops == p.drops + [p.counted[step.t]]
  {
    RunConserves(Opened<E>(), steps, capacity);
  }

  /** A writer that has stopped holds no event. */
  lemma {:induction false} StoppedHoldsNone<E>(p: Pipe<E>, steps: seq<Step<E>>, capacity: nat)
    requires IsRun(p, steps, capacity) && (p.stopped ==> p.held.None?)
    ensures End(p, steps, capacity).stopped ==> End(p, steps, capacity).held.None?
    decreases |steps|
  {
    if steps != [] {
      StoppedHoldsNone(Next(p, steps[0], capacity), steps[1..], capacity);
    }
  }

  /** What is queued when the writer stops, and what is queued after that, is never written. */
  lemma {:induction false} StoppedWritesNoMore<E>(before: seq<Step<E>>, p: Pipe<E>, steps: seq<Step<E>>, capacity: nat)
    requires IsRun(Opened<E>(), before, capacity) && p == End(Opened<E>(), before, capacity) && p.stopped
    requires IsRun(p, steps, capacity)
    ensures End(p, steps, capacity).written == p.written && p.queue <= End(p, steps, capacity).queue
  {
    StoppedHoldsNone(Opened<E>(), before, capacity);
    StaysStopped(p, steps, capacity);
  }

  lemma {:induction false} StaysStopped<E>(p: Pipe<E>, steps: seq<Step<E>>, capacity: nat)
    requires p.stopped && p.held.None? && IsRun(p, steps, capacity)
    ensures End(p, steps, capacity).written == p.written && p.queue <= End(p, steps, capacity).queue
    decreases |steps|
  {
    if steps != [] {
      StaysStopped(Next(p, steps[0], capacity), steps[1..], capacity);
    }
  }

  lemma {:induction false} RunSnoc<E>(p: Pipe<E>, steps: seq<Step<E>>, step: Step<E>, capacity: nat)
    requires IsRun(p, steps, capacity) && Enabled(End(p, steps, capacity), step)
    ensures IsRun(p, steps + [step], capacity)
    ensures End(p, steps + [step], capacity) == Next(End(p, steps, capacity), step, capacity)
    decreases |steps|
  {
    hide Enabled, Next;
    var all := steps + [step];
    if steps == [] {
      assert all[0] == step && all[1..] == [];
      assert IsRun(Next(p, step, capacity), [], capacity);
      assert End(Next(p, step, capacity), [], capacity) == Next(p, step, capacity);
    } else {
      assert all[0] == steps[0] && all[1..] == steps[1..] + [step];
      RunSnoc(Next(p, steps[0], capacity), steps[1..], step, capacity);
    }
  }

  /** A handler with no other between its two steps: one more query, and its event queued if there is room, else dropped. */
  lemma {:induction false} CountAndSend<E>(p: Pipe<E>, steps: seq<Step<E>>, t: Thread, e: E, capacity: nat)
    requires IsRun(p, steps, capacity) && End(p, steps, capacity).counted == map[]
    ensures var more := steps + [Count(t, e)] + [Send(t)];
            && IsRun(p, more, capacity)
            && var was, now := End(p, steps, capacity), End(p, more, capacity);
            && now.queries == was.queries + 1 && now.counted == map[] && now.held == was.held && now.stopped == was.stopped
            && now.written == was.written
            && now.queue == (if |was.queue| < capacity then was.queue + [e] else was.queue)
            && now.dropped == was.dropped + if |was.queue| < capacity then 0 else 1
  {
    hide IsRun, End;
    RunSnoc(p, steps, Count(t, e), capacity);
    RunSnoc(p, steps + [Count(t, e)], Send(t), capacity);
  }

  /** The writer with no other step between: the oldest queued event goes. */
  lemma {:induction false} TakeAndInsert<E>(p: Pipe<E>, steps: seq<Step<E>>, ok: bool, capacity: nat)
    requires IsRun(p, steps, capacity) && Enabled(End(p, steps, capacity), Take)
    ensures var more := steps + [Take] + [Insert(ok)];
            && IsRun(p, more, capacity)
            && var was, now := End(p, steps, capacity), End(p, more, capacity);
            && now == was.(queue := was.queue[1..], written := was.written + [Written(was.queue[0], ok)])
  {
    hide IsRun, End;
    RunSnoc(p, steps, Take, capacity);
    RunSnoc(p, steps + [Take], Insert(ok), capacity);
  }

  /** The first event of a queue with room is written. */
  lemma {:induction false} FirstEventIsWritten<E>(t: Thread, e: E, ok: bool, capacity: nat)
    requires capacity > 0
    ensures var steps: seq<Step<E>> := [] + [Count(t, e)] + [Send(t)] + [Take] + [Insert(ok)];
            IsRun(Opened<E>(), steps, capacity) && End(Opened<E>(), steps, capacity).written == [Written(e, ok)]
  {
    var none: seq<Step<E>> := [];
    CountAndSend(Opened<E>(), none, t, e, capacity);
    var sent := none + [Count(t, e)] + [Send(t)];
    assert End(Opened<E>(), none, capacity) == Opened<E>();
    hide IsRun, End;
    assert [] + [e] == [e];
    TakeAndInsert(Opened<E>(), sent, ok, capacity);
    assert [] + [Written(e, ok)] == [Written(e, ok)];
  }

  // ---------------------------------------------------------------- the writer's loop

  lemma {:induction false} NoEvents<E>()
    ensures Events<E>([]) == []
  {
  }

  /** eventWriter while nothing stops it and no handler sends: it inserts what is queued, oldest first. */
  method EventWriter<E>(queue: seq<E>, works: seq<bool>) returns (written: seq<Written<E>>, rest: seq<E>)
    ensures |written| == if |works| < |queue| then |works| else |queue|
    ensures Events(written) + rest == queue
    ensures forall i :: 0 <= i < |written| ==> written[i].ok == works[i]
  {
    hide Events, Inserted;
    written, rest := [], queue;
    NoEvents<E>();
    assert [] + queue == queue;
    while |written| < |works| && rest != []
      invariant |written| <= |works| && |written| + |rest| == |queue|
      invariant Events(written) + rest == queue
      invariant forall i :: 0 <= i < |written| ==> written[i].ok == works[i]
      decreases |rest|
    {
      var event := rest[0];
      InsertedSnoc(written, Written(event, works[|written|]));
      assert Events(written) + rest == Events(written) + [event] + rest[1..];
      rest := rest[1..];
      written := written + [Written(event, works[|written|])];
    }
  }
}
