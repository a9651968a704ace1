/** The DNS handler over the Store, step by step, and what a run of queries adds up to. */
module Servers {
  import opened Text
  import opened Names
  import opened Tables
  import opened Policy
  import opened HASync
  import opened Calls
  import opened Stores
  import opened Resolver
  import EventQueue

  /** Which database calls of one query would work, and what the upstream resolver would say. */
  datatype World = World(rules: bool, hit: bool, entries: bool, statics: bool, upstream: Option<Msg>)

  datatype Event = Event(name: string, qtype: string, action: Action, rule: Option<int>, source: Source, rcode: int, forwarded: bool)

  datatype Asked = Asked(question: Option<Question>, now: int, world: World)

  /** A read works when its cache is loaded or its query succeeds. */
  function WorksFor(rules: bool, entries: bool, statics: bool, w: World): Seen {
    Seen(rules || w.rules, entries || w.entries, statics || w.statics, w.upstream)
  }

  lemma {:induction false} SeenParts(rules: bool, entries: bool, statics: bool, w: World)
    ensures WorksFor(rules, entries, statics, w) == Seen(rules || w.rules, entries || w.entries, statics || w.statics, w.upstream)
  {
  }

  /** The hit a query leaves behind. */
  function Counted(db: Database, rule: Option<int>, now: int, ok: bool): Database {
    if rule.Some? && ok then db.(rules := CountHit(db.rules, rule.value, now)) else db
  }

  class Server {
    const store: Store
    const config: Config
    const capacity: nat
    var queries: int
    var blocked: int
    var dropped: int
    var events: seq<Event>
    /** The steps of the event queue that brought the server here. */
    ghost var trace: seq<EventQueue.Step<Event>>

    /** Counters and queue are those of the run of the event queue, with no handler or write under way. */
    ghost predicate Tracked()
      reads this
    {
      && EventQueue.IsRun(EventQueue.Opened<Event>(), trace, capacity)
      && ShownBy(EventQueue.End(EventQueue.Opened<Event>(), trace, capacity))
    }

    ghost predicate ShownBy(p: EventQueue.Pipe<Event>)
      reads this
    {
      && p.queries == queries && p.dropped == dropped && p.queue == events
      && p.counted == map[] && p.held.None? && !p.stopped
    }

    constructor (store: Store, config: Config, capacity: nat)
      ensures this.store == store && this.config == config && this.capacity == capacity
      ensures queries == 0 && blocked == 0 && dropped == 0 && events == [] && Tracked()
    {
      this.store, this.config, this.capacity := store, config, capacity;
      queries, blocked, dropped, events, trace := 0, 0, 0, [], [];
    }

    /** The records of the right name and type that can be answered, in the order they are read. */
    static method BuildAnswers(records: seq<StaticRecord>, name: string, qtype: QType, c: Config)
      returns (answers: seq<Record>)
      ensures answers == StaticAnswers(records, name, qtype, c)
    {
      hide StaticAnswers, TypeText, WireTTL, NormalizeName;
      answers := [];
      NoRecords(name, qtype, c);
      for i := 0 to |records|
        invariant answers == StaticAnswers(records[..i], name, qtype, c)
      {
        var record := records[i];
        NextRecord(records, i, name, qtype, c);
        assert answers + [] == answers;
        if record.key.name != name || record.key.rtype != TypeText(qtype) {
          continue;
        }
        match qtype {
          case A =>
            var ip := c.parse4(record.data.value);
            if ip.Some? {
              answers := answers + [Record(name, Address4(ip.value), WireTTL(record.data.ttl))];
            }
          case AAAA =>
            var ip := c.parse(record.data.value);
            if ip.Some? {
              answers := answers + [Record(name, Address6(ip.value), WireTTL(record.data.ttl))];
            }
          case CNAME =>
            answers := answers + [Record(name, Alias(NormalizeName(record.data.value)), WireTTL(record.data.ttl))];
          case TXT =>
            answers := answers + [Record(name, Txt(record.data.value), WireTTL(record.data.ttl))];
          case Other(_) =>
        }
      }
      assert records[..|records|] == records;
    }

    method StaticAnswer(q: Question, queryOk: bool) returns (answers: seq<Record>)
      requires store.Valid()
      modifies store`staticCache, store`staticLoaded
      ensures store.Valid()
      ensures answers == if old(store.staticLoaded) || queryOk then Statics(store.db, q, config) else []
    {
      var records := store.StaticRecords(queryOk);
      if records.Err? {
        return [];
      }
      answers := BuildAnswers(records.value, NormalizeName(q.name), q.qtype, config);
    }

    /** select { case events <- event: default: dropped++ } */
    method Enqueue(event: Event)
      modifies this`events, this`dropped
      ensures old(events) <= events && |events| + dropped == |old(events)| + old(dropped) + 1
      ensures forall i :: |old(events)| <= i < |events| ==> events[i] == event
      ensures |old(events)| <= capacity ==> |events| <= capacity
      ensures old(dropped) <= dropped && (dropped != old(dropped) <==> |old(events)| >= capacity)
      ensures |events| <= |old(events)| + 1
    {
      if |events| < capacity {
        events := events + [event];
      } else {
        dropped := dropped + 1;
      }
    }

    /** One turn of eventWriter's loop: the oldest event is taken off the queue and its insert works or fails. */
    method WriteEvent(ok: bool) returns (event: Event)
      requires Tracked() && events != []
      modifies this`events, this`trace
      ensures Tracked() && [event] + events == old(events)
      ensures trace == old(trace) + [EventQueue.Take] + [EventQueue.Insert(ok)]
    {
      event := events[0];
      EventQueue.TakeAndInsert(EventQueue.Opened<Event>(), trace, ok, capacity);
      hide EventQueue.IsRun, EventQueue.End;
      events := events[1..];
      trace := trace + [EventQueue.Take] + [EventQueue.Insert(ok)];
    }

    /** The rule step: a match is counted as a hit, whatever its action. */
    method ApplyRule(q: Question, now: int, w: World) returns (rule: Option<Match>)
      requires store.Valid()
      modifies store`db, store`rulesCache, store`rulesLoaded
      ensures store.Valid()
      ensures rule == if old(store.rulesLoaded) || w.rules then Winner(old(store.db), q, now) else None
      ensures store.db == Counted(old(store.db), IdOf(rule), now, w.hit)
    {
      hide FirstApplying, RulesView, CountHit;
      var m := store.MatchRule(NormalizeName(q.name), now, w.rules);
      if m.Err? || m.value.None? {
        return None;
      }
      var r := m.value.value;
      store.RecordRuleHit(r.id, now, w.hit);
      rule := Some(Match(r.id, r.key));
    }

    method MatchEntry(q: Question, queryOk: bool) returns (entry: Option<Entry>)
      requires store.Valid()
      modifies store`blocklistCache, store`blocklistLoaded
      ensures store.Valid()
      ensures entry == if old(store.blocklistLoaded) || queryOk then Listed(store.db, q) else None
    {
      hide EntryMap, LongestListed;
      var m := store.MatchBlocklist(NormalizeName(q.name), queryOk);
      if m.Err? {
        return None;
      }
      entry := m.value;
    }

    /** A name nothing blocked: the static records, then the upstream resolver. */
    method Answer(q: Question, w: World) returns (action: Action, msg: Msg)
      requires store.Valid()
      modifies store`staticCache, store`staticLoaded
      ensures store.Valid()
      ensures (action, msg) == Unblocked(if old(store.staticLoaded) || w.statics then Statics(store.db, q, config) else [], w.upstream)
    {
      hide Statics;
      action, msg := Allowed, Msg(NOERROR, []);
      var answers := StaticAnswer(q, w.statics);
      if |answers| > 0 {
        msg := msg.(answers := answers);
        action := Static;
      }
      if action != Static {
        if w.upstream.None? {
          msg := msg.(rcode := SERVFAIL);
          action := UpstreamFailed;
        } else {
          msg := w.upstream.value;
        }
      }
    }

    /** The decision of handleDNS: rule, then blocklist, then static record, then upstream. */
    method Resolve(q: Question, now: int, w: World) returns (o: Outcome)
      requires store.Valid()
      modifies this`blocked, store
      ensures store.Valid()
      ensures o == Decide(old(store.db), q, now,
                          WorksFor(old(store.rulesLoaded), old(store.blocklistLoaded), old(store.staticLoaded), w), config)
      ensures store.db == Counted(old(store.db), o.rule, now, w.hit)
      ensures blocked == old(blocked) + (if o.action == Blocked then 1 else 0)
    {
      hide *;
      var action, source, msg := Allowed, NoSource, Msg(NOERROR, []);
      ghost var before, seen := store.db, WorksFor(store.rulesLoaded, store.blocklistLoaded, store.staticLoaded, w);
      SeenParts(store.rulesLoaded, store.blocklistLoaded, store.staticLoaded, w);
      DecidedBy(before, q, now, seen, config);
      ghost var entry := if seen.entries then Listed(before, q) else None;
      ghost var answers := if seen.statics then Statics(before, q, config) else [];
      var rule := ApplyRule(q, now, w);
      VerdictCases(rule, entry, answers, q, w.upstream, config);
      PartsKeep(before, store.db, IdOf(rule), now, w.hit, q, config);
      if rule.Some? {
        source := RuleTarget(rule.value.key.target);
        if rule.value.key.action == "allow" {
          action := Allowed;
        } else {
          action := Blocked;
          blocked := blocked + 1;
          msg := Sinkhole(q, config);
        }
      }
      if action != Blocked && rule.None? {
        var m := MatchEntry(q, w.entries);
        if m.Some? {
          action := Blocked;
          source := ListedBy(m.value.key.source, m.value.data);
          blocked := blocked + 1;
          msg := Sinkhole(q, config);
        }
      }
      if action != Blocked {
        action, msg := Answer(q, w);
      }
      o := Outcome(action, IdOf(rule), source, msg);
    }

    /** handleDNS, after the host lookup. */
    method HandleDNS(question: Option<Question>, now: int, w: World) returns (msg: Msg, seen: Seen)
      requires store.Valid()
      modifies this, store
      ensures store.Valid()
      ensures old(Tracked()) ==> Tracked()
      ensures question.None? ==> msg == Msg(1, []) && unchanged(this) && unchanged(store)
      ensures seen == WorksFor(old(store.rulesLoaded), old(store.blocklistLoaded), old(store.staticLoaded), w)
      ensures question.Some? ==>
        var o := Decide(old(store.db), question.value, now, seen, config);
        && msg == o.msg
        && store.db == Counted(old(store.db), o.rule, now, w.hit)
        && queries == old(queries) + 1
        && blocked == old(blocked) + (if o.action == Blocked then 1 else 0)
        && var e := Event(NormalizeName(question.value.name), TypeText(question.value.qtype), o.action, o.rule, o.source,
                          o.msg.rcode, o.action == Allowed || o.action == UpstreamFailed);
        && events == (if |old(events)| < capacity then old(events) + [e] else old(events))
        && dropped == old(dropped) + (if |old(events)| < capacity then 0 else 1)
    {
      hide Decide, Counted, NormalizeName, TypeText;
      seen := WorksFor(store.rulesLoaded, store.blocklistLoaded, store.staticLoaded, w);
      if question.None? {
        msg := Msg(FORMERR, []);
        return;
      }
      var o := Resolve(question.value, now, w);
      msg := o.msg;
      queries := queries + 1;
      var event := Event(NormalizeName(question.value.name), TypeText(question.value.qtype), o.action, o.rule, o.source,
                         o.msg.rcode, o.action == Allowed || o.action == UpstreamFailed);
      Enqueue(event);
      ghost var steps := trace;
      trace := trace + [EventQueue.Count(0, event)] + [EventQueue.Send(0)];
      if old(Tracked()) {
        EventQueue.CountAndSend(EventQueue.Opened<Event>(), steps, 0, event, capacity);
      }
    }
  }

  lemma {:induction false} NoRecords(name: string, qtype: QType, c: Config)
    ensures StaticAnswers([], name, qtype, c) == []
  {
  }

  lemma {:induction false} NextRecord(records: seq<StaticRecord>, i: nat, name: string, qtype: QType, c: Config)
    requires i < |records|
    ensures StaticAnswers(records[..i + 1], name, qtype, c) == StaticAnswers(records[..i], name, qtype, c) + AnswerOf(records[i], name, qtype, c)
  {
    hide AnswerOf;
    assert records[..i + 1][..i] == records[..i];
  }

  /** Every query a tracked server counted was written, failed to be written, waits in the queue or was dropped. */
  lemma {:induction false} EventsAreAccountedFor(s: Server)
    requires s.Tracked()
    ensures |s.events| <= s.capacity
    ensures var written := EventQueue.End(EventQueue.Opened<Event>(), s.trace, s.capacity).written;
            s.queries == EventQueue.Inserted(written, true) + EventQueue.Inserted(written, false) + |s.events| + s.dropped
  {
    hide EventQueue.IsRun, EventQueue.End, EventQueue.Inserted;
    EventQueue.EveryEventIsAccountedFor(s.trace, s.capacity);
  }

  /** Counting a hit touches neither the entries nor the static records. */
  lemma {:induction false} PartsKeep(db: Database, after: Database, rule: Option<int>, now: int, ok: bool,
                                     q: Question, c: Config)
    requires after == Counted(db, rule, now, ok)
    ensures Listed(after, q) == Listed(db, q) && Statics(after, q, c) == Statics(db, q, c)
  {
    hide CountHit, LongestListed, EntryMap, StaticAnswers, MatchName, NormalizeName;
  }

  // ---------------------------------------------------------------- runs of queries

  /** What a query comes to on this database; a message without a question comes to nothing. */
  function OutcomeOf(db: Database, a: Asked, seen: Seen, c: Config): Option<Outcome> {
    if a.question.None? then None else Some(Decide(db, a.question.value, a.now, seen, c))
  }

  predicate Wins(o: Option<Outcome>, ok: bool, id: int) {
    o.Some? && o.value.rule == Some(id) && ok
  }

  /** The queries whose hit on rule `id` was written. */
  function WinCount(db: Database, asked: seq<Asked>, seen: seq<Seen>, id: int, c: Config): int
    requires |asked| == |seen|
  {
    if asked == [] then 0 else
      var n := |asked| - 1;
      WinCount(db, asked[..n], seen[..n], id, c)
        + if Wins(OutcomeOf(db, asked[n], seen[n], c), asked[n].world.hit, id) then 1 else 0
  }

  function BlockedCount(db: Database, asked: seq<Asked>, seen: seq<Seen>, c: Config): int
    requires |asked| == |seen|
  {
    if asked == [] then 0 else
      var n := |asked| - 1;
      var o := OutcomeOf(db, asked[n], seen[n], c);
      BlockedCount(db, asked[..n], seen[..n], c) + if o.Some? && o.value.action == Blocked then 1 else 0
  }

  /** `rules` is the table `t` with exactly the hits of these queries added. */
  ghost predicate HitsAdded(db: Database, rules: seq<Rule>, asked: seq<Asked>, seen: seq<Seen>, c: Config)
    requires |asked| == |seen|
  {
    && SameButHits(db.rules, rules)
    && forall k :: 0 <= k < |rules| ==>
         rules[k].meta.hitCount == db.rules[k].meta.hitCount + WinCount(db, asked, seen, rules[k].id, c)
  }

  lemma {:induction false} CountHitAdds(t: RuleTable, id: int, now: int, k: nat)
    requires Valid(t) && k < |t|
    ensures |CountHit(t, id, now)| == |t| && CountHit(t, id, now)[k].id == t[k].id
    ensures CountHit(t, id, now)[k].meta.hitCount == t[k].meta.hitCount + if t[k].id == id then 1 else 0
  {
  }

  lemma {:induction false} CountHitLength(t: RuleTable, id: int, now: int)
    ensures |CountHit(t, id, now)| == |t|
  {
  }

  lemma {:induction false} SameLength(t: seq<Rule>, u: seq<Rule>)
    requires SameButHits(t, u)
    ensures |t| == |u|
  {
  }

  lemma {:induction false} SameButHitsTwice(t: seq<Rule>, u: seq<Rule>, v: seq<Rule>)
    requires SameButHits(t, u) && SameButHits(u, v)
    ensures SameButHits(t, v)
  {
    forall i | 0 <= i < |t|
      ensures v[i] == t[i].(meta := t[i].meta.(hitCount := v[i].meta.hitCount, lastHitAt := v[i].meta.lastHitAt))
    {
      assert u[i] == t[i].(meta := t[i].meta.(hitCount := u[i].meta.hitCount, lastHitAt := u[i].meta.lastHitAt));
      assert v[i] == u[i].(meta := u[i].meta.(hitCount := v[i].meta.hitCount, lastHitAt := v[i].meta.lastHitAt));
    }
  }

  lemma {:induction false} WinCountSnoc(db: Database, asked: seq<Asked>, seen: seq<Seen>, a: Asked, s: Seen, id: int,
                                        c: Config)
    requires |asked| == |seen|
    ensures WinCount(db, asked + [a], seen + [s], id, c) ==
            WinCount(db, asked, seen, id, c) + if Wins(OutcomeOf(db, a, s, c), a.world.hit, id) then 1 else 0
    ensures BlockedCount(db, asked + [a], seen + [s], c) ==
            BlockedCount(db, asked, seen, c) + (var o := OutcomeOf(db, a, s, c); if o.Some? && o.value.action == Blocked then 1 else 0)
  {
    hide OutcomeOf;
    assert (asked + [a])[..|asked|] == asked && (seen + [s])[..|seen|] == seen;
  }

  lemma {:induction false} HitsAddedStep(db: Database, rules: RuleTable, after: Database, asked: seq<Asked>,
                                         seen: seq<Seen>, a: Asked, s: Seen, c: Config)
    requires |asked| == |seen| && Valid(rules) && HitsAdded(db, rules, asked, seen, c)
    requires a.question.Some? ==>
               after == Counted(db.(rules := rules), Decide(db.(rules := rules), a.question.value, a.now, s, c).rule, a.now, a.world.hit)
    requires a.question.None? ==> after == db.(rules := rules)
    ensures after == db.(rules := after.rules) && HitsAdded(db, after.rules, asked + [a], seen + [s], c)
  {
    hide Decide, CountHit, SameButHits, WinCount;
    if a.question.Some? {
      HitsNeverChangeDecisions(db, rules, a.question.value, a.now, s, c);
      var o := Decide(db, a.question.value, a.now, s, c);
      if o.rule.Some? && a.world.hit {
        CountHitKeepsPolicy(rules, o.rule.value, a.now);
        SameButHitsTwice(db.rules, rules, after.rules);
      }
    }
    SameLength(db.rules, rules);
    HitCounts(db, rules, after.rules, asked, seen, a, s, c);
  }

  lemma {:induction false} HitCounts(db: Database, rules: RuleTable, after: seq<Rule>, asked: seq<Asked>,
                                     seen: seq<Seen>, a: Asked, s: Seen, c: Config)
    requires |asked| == |seen| && Valid(rules) && HitsAdded(db, rules, asked, seen, c) && |db.rules| == |rules|
    requires var o := OutcomeOf(db, a, s, c);
             after == if o.Some? && o.value.rule.Some? && a.world.hit then CountHit(rules, o.value.rule.value, a.now) else rules
    ensures |after| == |rules|
    ensures forall k :: 0 <= k < |after| ==>
              after[k].meta.hitCount == db.rules[k].meta.hitCount + WinCount(db, asked + [a], seen + [s], after[k].id, c)
  {
    hide OutcomeOf, CountHit, SameButHits, WinCount;
    var o := OutcomeOf(db, a, s, c);
    if o.Some? && o.value.rule.Some? {
      CountHitLength(rules, o.value.rule.value, a.now);
    }
    forall k | 0 <= k < |rules|
      ensures after[k].meta.hitCount == db.rules[k].meta.hitCount + WinCount(db, asked + [a], seen + [s], after[k].id, c)
    {
      WinCountSnoc(db, asked, seen, a, s, rules[k].id, c);
      if o.Some? && o.value.rule.Some? {
        CountHitAdds(rules, o.value.rule.value, a.now, k);
      }
    }
  }

  /**
   Queries and the hits they record never change a later decision: every reply is the one the first database gives.
   Each rule's hit count grows by exactly the queries it won, the blocked counter by exactly the blocked queries,
   and nothing else of the database changes.
   */
  method Serve(server: Server, asked: seq<Asked>) returns (replies: seq<Msg>, seen: seq<Seen>)
    requires server.store.Valid()
    modifies server, server.store
    ensures server.store.Valid()
    ensures old(server.Tracked()) ==> server.Tracked()
    ensures |replies| == |asked| && |seen| == |asked|
    ensures forall i :: 0 <= i < |asked| ==>
              replies[i] == ReplyTo(OutcomeOf(old(server.store.db), asked[i], seen[i], server.config))
    ensures server.store.db == old(server.store.db).(rules := server.store.db.rules)
    ensures HitsAdded(old(server.store.db), server.store.db.rules, asked, seen, server.config)
    ensures server.blocked == old(server.blocked) + BlockedCount(old(server.store.db), asked, seen, server.config)
  {
    hide *;
    ghost var db := server.store.db;
    replies, seen := [], [];
    NoHits(db, server.config);
    for i := 0 to |asked|
      invariant server.store.Valid()
      invariant old(server.Tracked()) ==> server.Tracked()
      invariant |replies| == i && |seen| == i
      invariant forall j :: 0 <= j < i ==> replies[j] == ReplyTo(OutcomeOf(db, asked[j], seen[j], server.config))
      invariant server.store.db == db.(rules := server.store.db.rules)
      invariant HitsAdded(db, server.store.db.rules, asked[..i], seen, server.config)
      invariant server.blocked == old(server.blocked) + BlockedCount(db, asked[..i], seen, server.config)
    {
      var a := asked[i];
      ghost var rules, seenBefore := server.store.db.rules, seen;
      assert asked[..i + 1] == asked[..i] + [a];
      ValidRules(server.store);
      var msg, s := server.HandleDNS(a.question, a.now, a.world);
      OneQuery(db, rules, server.store.db, asked[..i], seen, a, s, server.config);
      replies, seen := replies + [msg], seen + [s];
    }
    assert asked[..|asked|] == asked;
  }

  lemma {:induction false} ValidRules(store: Store)
    requires store.Valid()
    ensures Valid(store.db.rules)
  {
  }

  function ReplyTo(o: Option<Outcome>): Msg {
    if o.Some? then o.value.msg else Msg(1, [])
  }

  lemma {:induction false} NoHits(db: Database, c: Config)
    ensures HitsAdded(db, db.rules, [], [], c) && BlockedCount(db, [], [], c) == 0
  {
  }

  /** One more query: its decision is the first database's, and it adds its own hit and no other. */
  lemma {:induction false} OneQuery(db: Database, rules: RuleTable, after: Database, asked: seq<Asked>,
                                    seen: seq<Seen>, a: Asked, s: Seen, c: Config)
    requires |asked| == |seen| && Valid(rules) && HitsAdded(db, rules, asked, seen, c)
    requires a.question.Some? ==>
               after == Counted(db.(rules := rules), Decide(db.(rules := rules), a.question.value, a.now, s, c).rule, a.now, a.world.hit)
    requires a.question.None? ==> after == db.(rules := rules)
    ensures after == db.(rules := after.rules) && HitsAdded(db, after.rules, asked + [a], seen + [s], c)
    ensures a.question.Some? ==>
              && OutcomeOf(db, a, s, c) == Some(Decide(db.(rules := rules), a.question.value, a.now, s, c))
              && ReplyTo(OutcomeOf(db, a, s, c)) == Decide(db.(rules := rules), a.question.value, a.now, s, c).msg
              && BlockedCount(db, asked + [a], seen + [s], c) == BlockedCount(db, asked, seen, c)
                   + if Decide(db.(rules := rules), a.question.value, a.now, s, c).action == Blocked then 1 else 0
    ensures a.question.None? ==> BlockedCount(db, asked + [a], seen + [s], c) == BlockedCount(db, asked, seen, c)
                                 && ReplyTo(OutcomeOf(db, a, s, c)) == Msg(1, [])
  {
    hide Decide, HitsAdded, BlockedCount, Counted;
    HitsAddedStep(db, rules, after, asked, seen, a, s, c);
    WinCountSnoc(db, asked, seen, a, s, 0, c);
    if a.question.Some? {
      SameDecision(db, rules, asked, seen, a, s, c);
    }
  }

  lemma {:induction false} SameDecision(db: Database, rules: RuleTable, asked: seq<Asked>, seen: seq<Seen>, a: Asked,
                                        s: Seen, c: Config)
    requires |asked| == |seen| && HitsAdded(db, rules, asked, seen, c) && a.question.Some?
    ensures Decide(db.(rules := rules), a.question.value, a.now, s, c) == Decide(db, a.question.value, a.now, s, c)
  {
    hide Decide, SameButHits;
    HitsNeverChangeDecisions(db, rules, a.question.value, a.now, s, c);
  }
}
