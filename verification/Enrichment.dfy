/** The limiter that starts background lookups of a client's identity, in any interleaving of handlers and lookups. */
module Enrichment {
  import opened Text

  /** Fifteen minutes, in nanoseconds. */
  const PAUSE := 900_000_000_000

  // ---------------------------------------------------------------- the limiter

  datatype Limits = Limits(next: map<string, int>, inFlight: set<string>)

  /** The critical section: a lookup starts unless one runs or the last one started too recently. */
  predicate Admits(l: Limits, ip: string, now: int) {
    ip !in l.inFlight && (ip in l.next ==> l.next[ip] <= now)
  }

  function Admitted(l: Limits, ip: string, now: int): Limits {
    Limits(l.next[ip := now + PAUSE], l.inFlight + {ip})
  }

  /** Which addresses are looked up at all. */
  predicate Eligible(hostID: int, ip: string, isClient: string -> bool) {
    hostID != 0 && isClient(ip)
  }

  class Limiter {
    var enrichNext: map<string, int>
    var enrichInFlight: set<string>

    constructor ()
      ensures enrichNext == map[] && enrichInFlight == {}
    {
      enrichNext, enrichInFlight := map[], {};
    }

    function Value(): Limits
      reads this
    {
      Limits(enrichNext, enrichInFlight)
    }

    /** enqueueHostEnrichment up to the start of the lookup; `now` was read before the lock was taken. */
    method Enqueue(hostID: int, ip: string, now: int, isClient: string -> bool) returns (starts: bool)
      modifies this
      ensures starts <==>
              && hostID != 0 && isClient(ip) && ip !in old(enrichInFlight)
              && (ip in old(enrichNext) ==> old(enrichNext)[ip] <= now)
      ensures enrichInFlight == old(enrichInFlight) + if starts then {ip} else {}
      ensures enrichNext == if starts then old(enrichNext)[ip := now + 15 * 60 * 1_000_000_000] else old(enrichNext)
      ensures starts <==> Eligible(hostID, ip, isClient) && Admits(old(Value()), ip, now)
      ensures Value() == if starts then Admitted(old(Value()), ip, now) else old(Value())
    {
      if hostID == 0 || !isClient(ip) {
        return false;
      }
      if ip in enrichInFlight {
        return false;
      }
      if ip in enrichNext && enrichNext[ip] > now {
        return false;
      }
      enrichInFlight := enrichInFlight + {ip};
      enrichNext := enrichNext[ip := now + PAUSE];
      starts := true;
    }

    /** The deferred delete of a lookup that ends. */
    method Finish(ip: string)
      modifies this
      ensures Value() == old(Value()).(inFlight := old(Value()).inFlight - {ip})
    {
      enrichInFlight := enrichInFlight - {ip};
    }
  }

  // ---------------------------------------------------------------- runs

  type Thread = nat

  datatype Start = Start(ip: string, stamp: int)

  /** `waiting` are handlers that have read the clock and not yet the lock; `running` are the lookups in progress. */
  datatype State = State(limits: Limits, waiting: map<Thread, Start>, running: map<Thread, string>, starts: seq<Start>)

  datatype Step =
    | ReadClock(t: Thread, ip: string, now: int)
    | Decide(t: Thread)
    | End(t: Thread)

  function Idle(): State {
    State(Limits(map[], {}), map[], map[], [])
  }

  predicate Enabled(s: State, step: Step) {
    match step
    case ReadClock(t, _, _) => t !in s.waiting
    case Decide(t) => t in s.waiting && t !in s.running
    case End(t) => t in s.running
  }

  function Next(s: State, step: Step): State
    requires Enabled(s, step)
  {
    match step
    case ReadClock(t, ip, now) => s.(waiting := s.waiting[t := Start(ip, now)])
    case Decide(t) =>
      var w := s.waiting[t];
      if Admits(s.limits, w.ip, w.stamp)
      then State(Admitted(s.limits, w.ip, w.stamp), s.waiting - {t}, s.running[t := w.ip], s.starts + [w])
      else s.(waiting := s.waiting - {t})
    case End(t) => s.(limits := s.limits.(inFlight := s.limits.inFlight - {s.running[t]}), running := s.running - {t})
  }

  predicate IsRun(s: State, steps: seq<Step>)
    decreases |steps|
  {
    steps == [] || (Enabled(s, steps[0]) && IsRun(Next(s, steps[0]), steps[1..]))
  }

  function Final(s: State, steps: seq<Step>): State
    requires IsRun(s, steps)
    decreases |steps|
  {
    if steps == [] then s else Final(Next(s, steps[0]), steps[1..])
  }

  // ---------------------------------------------------------------- what every run keeps

  /** The stamps of one address's starts, in lock order. */
  function Stamps(starts: seq<Start>, ip: string): seq<int> {
    if starts == [] then [] else
      var n := |starts| - 1;
      Stamps(starts[..n], ip) + if starts[n].ip == ip then [starts[n].stamp] else []
  }

  predicate Apart(stamps: seq<int>) {
    forall i :: 0 <= i < |stamps| - 1 ==> stamps[i] + PAUSE <= stamps[i + 1]
  }

  /** No address has two lookups, and the in-flight set is exactly the addresses that have one. */
  ghost predicate SingleFlight(s: State) {
    && (forall t, u :: t in s.running && u in s.running && s.running[t] == s.running[u] ==> t == u)
    && (forall ip :: ip in s.limits.inFlight <==> exists t :: t in s.running && s.running[t] == ip)
  }

  /** The next permitted time is the last start's stamp and a pause. */
  ghost predicate PacedFor(next: map<string, int>, stamps: seq<int>, ip: string) {
    && Apart(stamps)
    && (ip in next <==> stamps != [])
    && (ip in next ==> next[ip] == stamps[|stamps| - 1] + PAUSE)
  }

  ghost predicate Paced(s: State) {
    forall ip :: PacedFor(s.limits.next, Stamps(s.starts, ip), ip)
  }

  lemma {:induction false} StepKeepsFlights(s: State, step: Step)
    requires SingleFlight(s) && Enabled(s, step)
    ensures SingleFlight(Next(s, step))
  {
    var r := Next(s, step);
    if step.End? {
      var ip := s.running[step.t];
      forall other | other in r.limits.inFlight
        ensures exists t :: t in r.running && r.running[t] == other
      {
        var t :| t in s.running && s.running[t] == other;
        assert t in r.running;
      }
    } else if step.Decide? && Admits(s.limits, s.waiting[step.t].ip, s.waiting[step.t].stamp) {
      assert step.t in r.running && r.running[step.t] == s.waiting[step.t].ip;
      forall other | other in s.limits.inFlight
        ensures exists t :: t in r.running && r.running[t] == other
      {
        var t :| t in s.running && s.running[t] == other;
        assert t in r.running;
      }
    }
  }

  lemma {:induction false} StampsSnoc(starts: seq<Start>, x: Start, ip: string)
    ensures Stamps(starts + [x], ip) == Stamps(starts, ip) + if x.ip == ip then [x.stamp] else []
  {
    assert (starts + [x])[..|starts|] == starts;
  }

  lemma {:induction false} ApartSnoc(stamps: seq<int>, x: int)
    requires Apart(stamps) && (stamps != [] ==> stamps[|stamps| - 1] + PAUSE <= x)
    ensures Apart(stamps + [x])
  {
  }

  lemma {:induction false} StartKeepsPace(l: Limits, starts: seq<Start>, w: Start, ip: string)
    requires PacedFor(l.next, Stamps(starts, ip), ip) && Admits(l, w.ip, w.stamp)
    ensures PacedFor(Admitted(l, w.ip, w.stamp).next, Stamps(starts + [w], ip), ip)
  {
    StampsSnoc(starts, w, ip);
    hide Apart, Stamps;
    if ip == w.ip {
      ApartSnoc(Stamps(starts, ip), w.stamp);
    } else {
      assert Stamps(starts, ip) + [] == Stamps(starts, ip);
    }
  }

  lemma {:induction false} StepKeepsPace(s: State, step: Step)
    requires Paced(s) && Enabled(s, step)
    ensures Paced(Next(s, step))
  {
    hide PacedFor, Stamps, Admitted, Admits;
    var r := Next(s, step);
    if step.Decide? && r.starts != s.starts {
      var w := s.waiting[step.t];
      forall ip
        ensures PacedFor(r.limits.next, Stamps(r.starts, ip), ip)
      {
        StartKeepsPace(s.limits, s.starts, w, ip);
      }
    }
  }

  lemma {:induction false} RunKeeps(s: State, steps: seq<Step>)
    requires SingleFlight(s) && Paced(s) && IsRun(s, steps)
    ensures SingleFlight(Final(s, steps)) && Paced(Final(s, steps))
    decreases |steps|
  {
    hide SingleFlight, Paced, Next, Enabled;
    if steps != [] {
      StepKeepsFlights(s, steps[0]);
      StepKeepsPace(s, steps[0]);
      RunKeeps(Next(s, steps[0]), steps[1..]);
    }
  }

  /** The starts with a stamp from lo to hi. */
  function CountIn(stamps: seq<int>, lo: int, hi: int): int {
    if stamps == [] then 0 else
      var n := |stamps| - 1;
      CountIn(stamps[..n], lo, hi) + if lo <= stamps[n] <= hi then 1 else 0
  }

  lemma {:induction false} ApartIsOrdered(stamps: seq<int>, i: nat)
    requires Apart(stamps) && i < |stamps| - 1
    ensures stamps[i] <= stamps[|stamps| - 1] - PAUSE
    decreases |stamps|
  {
    if i < |stamps| - 2 {
      ApartIsOrdered(stamps[..|stamps| - 1], i);
    }
  }

  lemma {:induction false} CountBelow(stamps: seq<int>, lo: int, hi: int, max: int)
    requires (forall i :: 0 <= i < |stamps| ==> stamps[i] <= max) && max <= hi
    ensures CountIn(stamps, lo, hi) == CountIn(stamps, lo, max)
  {
    if stamps != [] {
      CountBelow(stamps[..|stamps| - 1], lo, hi, max);
    }
  }

  /** Stamps a pause apart: a window that holds any holds at most one more than the pauses that fit in it. */
  lemma {:induction false} WindowBound(stamps: seq<int>, lo: int, hi: int)
    requires Apart(stamps)
    ensures CountIn(stamps, lo, hi) >= 1 ==> (CountIn(stamps, lo, hi) - 1) * PAUSE <= hi - lo
    ensures CountIn(stamps, lo, hi) >= 0
  {
    if stamps != [] {
      var n := |stamps| - 1;
      var before, last := stamps[..n], stamps[n];
      forall i | 0 <= i < n
        ensures before[i] <= last - PAUSE
      {
        ApartIsOrdered(stamps, i);
      }
      hide Apart;
      WindowBound(before, lo, hi) by { ApartPrefix(stamps); }
      if lo <= last <= hi {
        CountBelow(before, lo, hi, last - PAUSE);
        WindowBound(before, lo, last - PAUSE) by { ApartPrefix(stamps); }
      }
    }
  }

  lemma {:induction false} ApartPrefix(stamps: seq<int>)
    requires Apart(stamps) && stamps != []
    ensures Apart(stamps[..|stamps| - 1])
  {
  }

  /**
   In every interleaving, although handlers read the clock before they take the lock: no two lookups of one address
   run at once, the in-flight set is exactly the addresses being looked up, starts of one address carry stamps at
   least fifteen minutes apart, and a window of w nanoseconds holds at most w / PAUSE + 1 of them.
   */
  lemma {:induction false} LookupsAreLimited(steps: seq<Step>, ip: string, lo: int, hi: int)
    requires IsRun(Idle(), steps) && lo <= hi
    ensures var s := Final(Idle(), steps);
            && SingleFlight(s)
            && (forall i :: 0 <= i < |Stamps(s.starts, ip)| - 1 ==>
                  Stamps(s.starts, ip)[i] + 15 * 60 * 1_000_000_000 <= Stamps(s.starts, ip)[i + 1])
            && CountIn(Stamps(s.starts, ip), lo, hi) <= (hi - lo) / (15 * 60 * 1_000_000_000) + 1
  {
    IdleKeeps();
    hide SingleFlight, Next, Enabled, CountIn, Stamps;
    RunKeeps(Idle(), steps);
    var s := Final(Idle(), steps);
    assert PacedFor(s.limits.next, Stamps(s.starts, ip), ip);
    WindowBound(Stamps(s.starts, ip), lo, hi);
  }

  lemma {:induction false} IdleKeeps()
    ensures SingleFlight(Idle()) && Paced(Idle())
  {
  }
}
