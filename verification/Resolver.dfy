/** What a DNS query is answered, declaratively, and what changes of policy can change that answer. */
module Resolver {
  import opened Text
  import opened Names
  import opened Tables
  import opened Policy
  import opened HASync
  import opened SyncTheorems
  import opened Calls

  type IP = seq<int>

  /** The query types the resolver builds answers for, and every other one by its name. */
  datatype QType = A | AAAA | CNAME | TXT | Other(text: string)

  datatype Question = Question(name: string, qtype: QType)

  datatype Answer = Address4(ip: IP) | Address6(ip: IP) | Alias(target: string) | Txt(text: string)

  datatype Record = Record(name: string, answer: Answer, ttl: int)

  datatype Msg = Msg(rcode: int, answers: seq<Record>)

  const NOERROR := 0
  const FORMERR := 1
  const SERVFAIL := 2
  const NXDOMAIN := 3

  datatype Action = Allowed | Blocked | Static | UpstreamFailed

  /** The configured sinkhole addresses, and the IP parser with and without To4. */
  datatype Config = Config(sink4: IP, sink6: IP, parse4: string -> Option<IP>, parse: string -> Option<IP>)

  /** Which of the three reads of one query worked, and what the upstream resolver said. */
  datatype Seen = Seen(rules: bool, entries: bool, statics: bool, upstream: Option<Msg>)

  datatype Source = NoSource | RuleTarget(target: string) | ListedBy(ref: SourceRef, name: string)

  datatype Outcome = Outcome(action: Action, rule: Option<int>, source: Source, msg: Msg)

  function TypeText(q: QType): string {
    match q
    case A => "A"
    case AAAA => "AAAA"
    case CNAME => "CNAME"
    case TXT => "TXT"
    case Other(text) => text
  }

  // ---------------------------------------------------------------- the parts of a decision

  /** The rule store gets a name the handler normalised already. */
  function MatchName(q: Question): (name: string)
    ensures Dotted(name)
  {
    NormalizeName(NormalizeName(q.name))
  }

  /** What the handler reads of the rule that decides. */
  datatype Match = Match(id: int, key: RuleKey)

  function MatchOf(r: Option<Rule>): Option<Match> {
    if r.Some? then Some(Match(r.value.id, r.value.key)) else None
  }

  function IdOf(m: Option<Match>): Option<int> {
    if m.Some? then Some(m.value.id) else None
  }

  function Winner(db: Database, q: Question, now: int): Option<Match> {
    MatchOf(FirstApplying(RulesView(db.rules), MatchName(q), now))
  }

  function Listed(db: Database, q: Question): Option<Entry> {
    LongestListed(EntryMap(db.entries), MatchName(q))
  }

  function Sinkhole(q: Question, c: Config): Msg {
    match q.qtype
    case A => Msg(NOERROR, [Record(q.name, Address4(c.sink4), 30)])
    case AAAA => Msg(NOERROR, [Record(q.name, Address6(c.sink6), 30)])
    case _ => Msg(NXDOMAIN, [])
  }

  /** The answer one static record of the right name and type gives, or none. */
  function RecordAnswer(value: string, qtype: QType, c: Config): Option<Answer> {
    match qtype
    case A => var ip := c.parse4(value); if ip.Some? then Some(Address4(ip.value)) else None
    case AAAA => var ip := c.parse(value); if ip.Some? then Some(Address6(ip.value)) else None
    case CNAME => Some(Alias(NormalizeName(value)))
    case TXT => Some(Txt(value))
    case Other(_) => None
  }

  /** uint32(ttl) */
  function WireTTL(ttl: int): int {
    ttl % 0x1_0000_0000
  }

  function AnswerOf(r: StaticRecord, name: string, qtype: QType, c: Config): seq<Record> {
    if r.key != StaticKey(name, TypeText(qtype)) then [] else
      var a := RecordAnswer(r.data.value, qtype, c);
      if a.Some? then [Record(name, a.value, WireTTL(r.data.ttl))] else []
  }

  function StaticAnswers(records: seq<StaticRecord>, name: string, qtype: QType, c: Config): seq<Record> {
    if records == [] then [] else
      var n := |records| - 1;
      StaticAnswers(records[..n], name, qtype, c) + AnswerOf(records[n], name, qtype, c)
  }

  function Statics(db: Database, q: Question, c: Config): seq<Record> {
    StaticAnswers(StaticsView(db.statics), NormalizeName(q.name), q.qtype, c)
  }

  function Forwarded(upstream: Option<Msg>): (Action, Msg) {
    if upstream.Some? then (Allowed, upstream.value) else (UpstreamFailed, Msg(SERVFAIL, []))
  }

  /** A name that nothing blocks: a static answer if there is one, else the upstream resolver's. */
  function Unblocked(answers: seq<Record>, upstream: Option<Msg>): (Action, Msg) {
    if answers != [] then (Static, Msg(NOERROR, answers)) else Forwarded(upstream)
  }

  /** The first applying rule decides; without one, the blocklists do; what is not blocked is answered. */
  function Verdict(rule: Option<Match>, entry: Option<Entry>, answers: seq<Record>, q: Question,
                   upstream: Option<Msg>, c: Config): Outcome
  {
    if rule.Some? && rule.value.key.action != "allow" then
      Outcome(Blocked, IdOf(rule), RuleTarget(rule.value.key.target), Sinkhole(q, c))
    else if rule.None? && entry.Some? then
      Outcome(Blocked, IdOf(rule), ListedBy(entry.value.key.source, entry.value.data), Sinkhole(q, c))
    else
      var u := Unblocked(answers, upstream);
      Outcome(u.0, IdOf(rule), if rule.Some? then RuleTarget(rule.value.key.target) else NoSource, u.1)
  }

  function Decide(db: Database, q: Question, now: int, seen: Seen, c: Config): Outcome {
    Verdict(if seen.rules then Winner(db, q, now) else None,
            if seen.entries then Listed(db, q) else None,
            if seen.statics then Statics(db, q, c) else [],
            q, seen.upstream, c)
  }

  // ---------------------------------------------------------------- the decision as a policy

  /** Some rule applies to the name. */
  ghost predicate Ruled(db: Database, name: string, now: int) {
    exists r :: r in db.rules && Applies(r, name, now)
  }

  ghost predicate RuleBlocks(db: Database, name: string, now: int) {
    exists w :: LeastIdApplying(db.rules, w, name, now) && w.key.action != "allow"
  }

  ghost predicate ListBlocks(db: Database, name: string) {
    exists e :: e in db.entries && e.key.domain != "" && Covers(e.key.domain, name)
  }

  ghost predicate HasStatic(db: Database, q: Question, c: Config) {
    exists r :: r in db.statics && r.key == StaticKey(NormalizeName(q.name), TypeText(q.qtype))
                && RecordAnswer(r.data.value, q.qtype, c).Some?
  }

  lemma {:induction false} WinnerIsLeast(db: Database, q: Question, now: int)
    requires ValidDatabase(db)
    ensures Winner(db, q, now).Some? <==> Ruled(db, MatchName(q), now)
    ensures Winner(db, q, now).Some? ==> (RuleBlocks(db, MatchName(q), now) <==> Winner(db, q, now).value.key.action != "allow")
    ensures RuleBlocks(db, MatchName(q), now) ==> Ruled(db, MatchName(q), now)
  {
    hide FirstApplying, RulesView, Applies, MatchName;
    var name := MatchName(q);
    var f := FirstApplying(RulesView(db.rules), name, now);
    if f.Some? {
      WinnerHasLeastId(db.rules, f.value, name, now);
    }
    forall w | LeastIdApplying(db.rules, w, name, now)
      ensures f == Some(w)
    {
      WinnerHasLeastId(db.rules, w, name, now);
    }
    forall r | r in db.rules && Applies(r, name, now)
      ensures f.Some?
    {
      WinnerHasLeastId(db.rules, r, name, now);
    }
  }

  lemma {:induction false} ListedIffCovered(db: Database, q: Question)
    ensures Listed(db, q).Some? <==> ListBlocks(db, MatchName(q))
  {
    hide MatchName, Covers, LongestListed, EntryMap;
    var m, name := EntryMap(db.entries), MatchName(q);
    WalkFindsLongestCover(m, name);
    if Listed(db, q).Some? {
      var d :| d in m && d != "" && Covers(d, name);
      assert m[d] in db.entries && m[d].key.domain == d;
    }
    forall e | e in db.entries && e.key.domain != "" && Covers(e.key.domain, name)
      ensures Listed(db, q).Some?
    {
      assert e.key.domain in m;
    }
  }

  lemma {:induction false} StaticAnswersIff(records: seq<StaticRecord>, name: string, qtype: QType, c: Config)
    ensures StaticAnswers(records, name, qtype, c) != [] <==>
            exists r :: r in records && r.key == StaticKey(name, TypeText(qtype)) && RecordAnswer(r.data.value, qtype, c).Some?
  {
    hide TypeText, RecordAnswer;
    if records != [] {
      var n := |records| - 1;
      StaticAnswersIff(records[..n], name, qtype, c);
      assert records == records[..n] + [records[n]];
    }
  }

  /**
   With every read working: a name is blocked exactly if its least-id applying rule does not allow it or, when no
   rule applies, some blocklist entry covers it; of the rest, a usable static record answers; all others are forwarded.
   */
  lemma {:induction false} DecisionIsThePolicy(db: Database, q: Question, now: int, seen: Seen, c: Config)
    requires ValidDatabase(db) && seen.rules && seen.entries && seen.statics
    ensures var name, o := MatchName(q), Decide(db, q, now, seen, c);
            && (o.action == Blocked <==> RuleBlocks(db, name, now) || (!Ruled(db, name, now) && ListBlocks(db, name)))
            && (o.action == Static <==> o.action != Blocked && HasStatic(db, q, c))
            && (o.action == UpstreamFailed ==> seen.upstream.None?)
            && (o.action == Allowed ==> Some(o.msg) == seen.upstream)
            && (o.action == Blocked && q.qtype == A ==> o.msg == Msg(0, [Record(q.name, Address4(c.sink4), 30)]))
            && (o.action == Blocked && q.qtype == AAAA ==> o.msg == Msg(0, [Record(q.name, Address6(c.sink6), 30)]))
            && (o.action == Blocked && q.qtype != A && q.qtype != AAAA ==> o.msg == Msg(3, []))
            && (o.action == UpstreamFailed ==> o.msg == Msg(2, []))
            && (o.action == Static ==> o.msg == Msg(0, Statics(db, q, c)))
            && (o.rule.Some? <==> Ruled(db, name, now))
  {
    SinkholeReplies(db, q, now, seen, c);
    hide Winner, Listed, StaticAnswers, RuleBlocks, Ruled, ListBlocks, MatchName, Sinkhole, TypeText, RecordAnswer;
    hide NormalizeName;
    WinnerIsLeast(db, q, now);
    ListedIffCovered(db, q);
    StaticAnswersIff(StaticsView(db.statics), NormalizeName(q.name), q.qtype, c);
    forall r ensures r in StaticsView(db.statics) <==> r in db.statics { ListedMember(db.statics, r); }
    hide StaticsView;
  }

  /** What a blocked query is told, and one that neither a static record nor the upstream resolver answered. */
  lemma {:induction false} SinkholeReplies(db: Database, q: Question, now: int, seen: Seen, c: Config)
    ensures var o := Decide(db, q, now, seen, c);
            && (o.action == Blocked && q.qtype == A ==> o.msg == Msg(0, [Record(q.name, Address4(c.sink4), 30)]))
            && (o.action == Blocked && q.qtype == AAAA ==> o.msg == Msg(0, [Record(q.name, Address6(c.sink6), 30)]))
            && (o.action == Blocked && q.qtype != A && q.qtype != AAAA ==> o.msg == Msg(3, []))
            && (o.action == UpstreamFailed ==> o.msg == Msg(2, []))
            && (o.action == Static ==> o.msg == Msg(0, Statics(db, q, c)))
  {
    hide Winner, Listed, Statics;
  }

  lemma {:induction false} SourceOf(rule: Option<Match>, entry: Option<Entry>, answers: seq<Record>, q: Question,
                                    upstream: Option<Msg>, c: Config)
    ensures var o := Verdict(rule, entry, answers, q, upstream, c);
            && (rule.Some? ==> o.rule == Some(rule.value.id) && o.source == RuleTarget(rule.value.key.target))
            && (rule.None? ==> o.rule == None && (o.action == Blocked <==> entry.Some?))
            && (rule.None? ==> o.source == if entry.Some? then ListedBy(entry.value.key.source, entry.value.data) else NoSource)
  {
    hide Sinkhole;
  }

  /** The rule named with a decision is the one with the least id. */
  lemma {:induction false} RuleIsNamed(db: Database, q: Question, now: int, seen: Seen, c: Config, w: Rule)
    requires ValidDatabase(db) && seen.rules && LeastIdApplying(db.rules, w, MatchName(q), now)
    ensures var o := Decide(db, q, now, seen, c); o.rule == Some(w.id) && o.source == RuleTarget(w.key.target)
  {
    hide *;
    WinnerIs(db, q, now, w);
    DecidedBy(db, q, now, seen, c);
    SourceOf(Winner(db, q, now), if seen.entries then Listed(db, q) else None,
             if seen.statics then Statics(db, q, c) else [], q, seen.upstream, c);
  }

  /** Without a rule, the list entry named is one of the longest domain that covers the name, and there is none if it is not blocked. */
  lemma {:induction false} EntryIsNamed(db: Database, q: Question, now: int, seen: Seen, c: Config)
    requires ValidDatabase(db) && seen.rules && seen.entries && !Ruled(db, MatchName(q), now)
    ensures var name, o := MatchName(q), Decide(db, q, now, seen, c);
            && o.rule == None && (o.action != Blocked ==> o.source == NoSource)
            && (o.action == Blocked ==>
                  exists e :: e in db.entries && Covers(e.key.domain, name) && o.source == ListedBy(e.key.source, e.data)
                              && forall x :: x in db.entries && Covers(x.key.domain, name) ==> |x.key.domain| <= |e.key.domain|)
  {
    hide *;
    WinnerIsLeast(db, q, now);
    DecidedBy(db, q, now, seen, c);
    SourceOf(Winner(db, q, now), Listed(db, q), if seen.statics then Statics(db, q, c) else [], q, seen.upstream, c);
    if Listed(db, q).Some? {
      var e := ListedIsLongest(db, q);
    }
  }

  lemma {:induction false} WinnerIs(db: Database, q: Question, now: int, w: Rule)
    requires ValidDatabase(db) && LeastIdApplying(db.rules, w, MatchName(q), now)
    ensures Winner(db, q, now) == Some(Match(w.id, w.key))
  {
    hide MatchName, FirstApplying, RulesView;
    WinnerHasLeastId(db.rules, w, MatchName(q), now);
  }

  lemma {:induction false} ListedIsLongest(db: Database, q: Question) returns (e: Entry)
    requires Listed(db, q).Some?
    ensures Listed(db, q) == Some(e) && e in db.entries && Covers(e.key.domain, MatchName(q))
    ensures forall x :: x in db.entries && Covers(x.key.domain, MatchName(q)) ==> |x.key.domain| <= |e.key.domain|
  {
    hide MatchName, Covers, LongestListed, EntryMap;
    var m, name := EntryMap(db.entries), MatchName(q);
    WalkFindsLongestCover(m, name);
    e := Listed(db, q).value;
    forall x | x in db.entries && Covers(x.key.domain, name)
      ensures |x.key.domain| <= |e.key.domain|
    {
      assert x.key.domain in m;
    }
  }

  lemma {:induction false} KeyedIs(d: StaticData, name: string, c: Config)
    ensures var ttl := d.ttl % 0x1_0000_0000;
            && KeyedAnswer(Some(d), name, A, c) == (if c.parse4(d.value).None? then [] else [Record(name, Address4(c.parse4(d.value).value), ttl)])
            && KeyedAnswer(Some(d), name, AAAA, c) == (if c.parse(d.value).None? then [] else [Record(name, Address6(c.parse(d.value).value), ttl)])
            && KeyedAnswer(Some(d), name, CNAME, c) == [Record(name, Alias(NormalizeName(d.value)), ttl)]
            && KeyedAnswer(Some(d), name, TXT, c) == [Record(name, Txt(d.value), ttl)]
  {
    hide NormalizeName;
  }

  lemma {:induction false} OtherTypesAreNotAnswered(d: Option<StaticData>, name: string, text: string, c: Config)
    ensures KeyedAnswer(d, name, Other(text), c) == []
  {
  }

  lemma {:induction false} TypesByName()
    ensures TypeText(A) == "A" && TypeText(AAAA) == "AAAA" && TypeText(CNAME) == "CNAME" && TypeText(TXT) == "TXT"
    ensures forall text :: TypeText(Other(text)) == text
  {
  }

  /** What one static record answers to a query of its name and type, and that other types get no answer from any. */
  lemma {:induction false} StaticReplyIs(db: Database, r: StaticRecord, q: Question, c: Config)
    requires Valid(db.statics) && r in db.statics && r.key.name == NormalizeName(q.name)
    ensures var d, name, ttl := r.data, r.key.name, r.data.ttl % 0x1_0000_0000;
            && (q.qtype == A && r.key.rtype == "A" ==>
                  Statics(db, q, c) == if c.parse4(d.value).None? then [] else [Record(name, Address4(c.parse4(d.value).value), ttl)])
            && (q.qtype == AAAA && r.key.rtype == "AAAA" ==>
                  Statics(db, q, c) == if c.parse(d.value).None? then [] else [Record(name, Address6(c.parse(d.value).value), ttl)])
            && (q.qtype == CNAME && r.key.rtype == "CNAME" ==> Statics(db, q, c) == [Record(name, Alias(NormalizeName(d.value)), ttl)])
            && (q.qtype == TXT && r.key.rtype == "TXT" ==> Statics(db, q, c) == [Record(name, Txt(d.value), ttl)])
            && (q.qtype.Other? ==> Statics(db, q, c) == [])
  {
    hide *;
    HeldData(db.statics, r);
    StaticsByKey(db, q, c);
    TypesByName();
    KeyedIs(r.data, r.key.name, c);
    if q.qtype.Other? {
      OtherTypesAreNotAnswered(Data(db.statics, StaticKey(r.key.name, TypeText(q.qtype))), r.key.name, q.qtype.text, c);
    }
  }

  lemma {:induction false} StaticsByKey(db: Database, q: Question, c: Config)
    requires Valid(db.statics)
    ensures var name := NormalizeName(q.name);
            Statics(db, q, c) == KeyedAnswer(Data(db.statics, StaticKey(name, TypeText(q.qtype))), name, q.qtype, c)
  {
    hide StaticAnswers, NormalizeName, KeyedAnswer, StaticsView, TypeText, Data, Valid;
    StaticAnswerByKey(db.statics, NormalizeName(q.name), q.qtype, c);
  }

  lemma {:induction false} HeldData(t: StaticTable, r: StaticRecord)
    requires Valid(t) && r in t
    ensures Data(t, r.key) == Some(r.data) && r.key == StaticKey(r.key.name, r.key.rtype)
  {
    var i :| 0 <= i < |t| && t[i] == r;
    FindIn(t, i);
  }

  // ---------------------------------------------------------------- what cannot change a decision

  /** Blocklist entries, of any kind and number, never change the answer to a name that a rule covers. */
  lemma {:induction false} EntriesNeverOverrideRules(db: Database, entries: EntryTable, q: Question, now: int,
                                                     seen: Seen, c: Config)
    requires ValidDatabase(db) && seen.rules && Ruled(db, MatchName(q), now)
    ensures Decide(db.(entries := entries), q, now, seen, c) == Decide(db, q, now, seen, c)
  {
    WinnerIsLeast(db, q, now);
    hide FirstApplying, RulesView, StaticAnswers, Listed, Ruled, MatchName, Sinkhole, Unblocked;
    assert Winner(db.(entries := entries), q, now) == Winner(db, q, now);
    assert Statics(db.(entries := entries), q, c) == Statics(db, q, c);
    hide Winner, Statics;
  }

  lemma {:induction false} DecidedBy(db: Database, q: Question, now: int, seen: Seen, c: Config)
    ensures Decide(db, q, now, seen, c) ==
            Verdict(if seen.rules then Winner(db, q, now) else None, if seen.entries then Listed(db, q) else None,
                    if seen.statics then Statics(db, q, c) else [], q, seen.upstream, c)
  {
    hide Verdict, Winner, Listed, Statics;
  }

  lemma {:induction false} SameParts(a: Database, b: Database, q: Question, now: int)
    requires a.rules == b.rules && a.entries == b.entries
    ensures Winner(a, q, now) == Winner(b, q, now) && Listed(a, q) == Listed(b, q)
  {
    hide FirstApplying, RulesView, LongestListed, EntryMap, MatchName;
  }

  lemma {:induction false} VerdictCases(rule: Option<Match>, entry: Option<Entry>, answers: seq<Record>, q: Question,
                                        upstream: Option<Msg>, c: Config)
    ensures var o := Verdict(rule, entry, answers, q, upstream, c);
            var u := Unblocked(answers, upstream);
            && (rule.Some? && rule.value.key.action != "allow" ==>
                  o == Outcome(Blocked, IdOf(rule), RuleTarget(rule.value.key.target), Sinkhole(q, c)))
            && (rule.Some? && rule.value.key.action == "allow" ==> o == Outcome(u.0, IdOf(rule), RuleTarget(rule.value.key.target), u.1))
            && (rule.None? && entry.Some? ==>
                  o == Outcome(Blocked, IdOf(rule), ListedBy(entry.value.key.source, entry.value.data), Sinkhole(q, c)))
            && (rule.None? && entry.None? ==> o == Outcome(u.0, IdOf(rule), NoSource, u.1))
            && u.0 != Blocked
  {
    hide Sinkhole;
  }

  /** Whether a name is blocked, and by what, does not depend on what an unblocked name would be answered. */
  lemma {:induction false} BlockedVerdict(rule: Option<Match>, entry: Option<Entry>, a: seq<Record>, b: seq<Record>,
                                          q: Question, upstream: Option<Msg>, c: Config)
    ensures var o, o' := Verdict(rule, entry, a, q, upstream, c), Verdict(rule, entry, b, q, upstream, c);
            (o.action == Blocked <==> o'.action == Blocked) && (o.action == Blocked ==> o' == o)
  {
    hide Sinkhole;
  }

  /** Static records never change the answer to a blocked name, nor block one. */
  lemma {:induction false} StaticsNeverUnblock(db: Database, statics: StaticTable, q: Question, now: int, seen: Seen,
                                               c: Config)
    ensures var o, o' := Decide(db, q, now, seen, c), Decide(db.(statics := statics), q, now, seen, c);
            (o.action == Blocked <==> o'.action == Blocked) && (o.action == Blocked ==> o' == o)
  {
    hide *;
    SameParts(db, db.(statics := statics), q, now);
    DecidedBy(db, q, now, seen, c);
    DecidedBy(db.(statics := statics), q, now, seen, c);
    BlockedVerdict(if seen.rules then Winner(db, q, now) else None, if seen.entries then Listed(db, q) else None,
                   if seen.statics then Statics(db, q, c) else [], if seen.statics then Statics(db.(statics := statics), q, c) else [],
                   q, seen.upstream, c);
  }

  /** The id of the rule that decides. */
  function WinnerId(t: seq<Rule>, name: string, now: int): Option<int> {
    var w := FirstApplying(RulesView(t), name, now);
    if w.Some? then Some(w.value.id) else None
  }

  lemma {:induction false} WinnerIdOf(t: RuleTable, name: string, now: int)
    requires Valid(t)
    ensures WinnerId(t, name, now) == var f := FirstApplying(t, name, now); if f.Some? then Some(f.value.id) else None
    ensures WinnerId(t, name, now).Some? ==>
              exists i :: 0 <= i < |t| && IsFirst(t, i, name, now) && t[i].id == WinnerId(t, name, now).value
    ensures WinnerId(t, name, now).None? ==> forall i :: 0 <= i < |t| ==> !Applies(t[i], name, now)
  {
    ViewDecidesByIdOrder(t, name, now);
  }

  /** Two tables that agree on ids and on which row applies, position by position, except that row `at` may apply newly. */
  ghost predicate NewlyApplies(t: seq<Rule>, u: seq<Rule>, at: nat, name: string, now: int) {
    && at < |u| && |t| <= |u| <= |t| + 1 && (|u| > |t| ==> at == |t|)
    && (forall i :: 0 <= i < |t| ==> u[i].id == t[i].id)
    && (forall i :: 0 <= i < |t| && i != at ==> (Applies(u[i], name, now) <==> Applies(t[i], name, now)))
    && (at < |t| && Applies(t[at], name, now) ==> Applies(u[at], name, now))
  }

  lemma {:induction false} FirstMoves(t: RuleTable, u: RuleTable, at: nat, j: nat, name: string, now: int)
    requires NewlyApplies(t, u, at, name, now) && IsFirst(u, j, name, now)
    ensures j != at ==> IsFirst(t, j, name, now)
    ensures j == at ==> forall i :: 0 <= i < |t| && i < at ==> !Applies(t[i], name, now)
  {
    hide Applies;
  }

  lemma {:induction false} OneRowDiffers(t: RuleTable, u: RuleTable, at: nat, name: string, now: int)
    requires Valid(t) && Valid(u) && NewlyApplies(t, u, at, name, now)
    ensures var w, w' := WinnerId(t, name, now), WinnerId(u, name, now);
            w' == w || (Applies(u[at], name, now) && w' == Some(u[at].id) && (w.None? || u[at].id < w.value))
  {
    hide Applies, FirstApplying, WinnerId;
    WinnerIdOf(t, name, now);
    WinnerIdOf(u, name, now);
    if WinnerId(u, name, now).Some? {
      var j :| 0 <= j < |u| && IsFirst(u, j, name, now) && u[j].id == WinnerId(u, name, now).value;
      FirstMoves(t, u, at, j, name, now);
    }
  }

  /** One row was written, in place or at the end, and everything else stayed. */
  ghost predicate OneWritten(t: seq<Rule>, u: seq<Rule>, i: nat, k: RuleKey) {
    && |t| <= |u| <= |t| + 1 && i < |u| && (i == |t| <==> |u| > |t|) && u[i].key == k && u[i].data.enabled
    && (i < |t| ==> u[i] == t[i].(data := u[i].data))
    && forall j :: 0 <= j < |t| && j != i ==> u[j] == t[j]
  }

  lemma {:induction false} WrittenRow(t: RuleTable, k: RuleKey, d: RuleData, init: RuleMeta)
    requires Valid(t) && d.enabled
    ensures var u, i := Upsert(t, k, d, init), Find(t, k);
            Valid(u) && OneWritten(t, u, i, k) && Find(u, k) == i && (k !in Keys(t) ==> i == |t|)
  {
    UpsertKeepsValid(t, k, d, init);
    FindIn(Upsert(t, k, d, init), Find(t, k));
  }

  lemma {:induction false} WrittenApplies(t: seq<Rule>, u: seq<Rule>, i: nat, k: RuleKey, name: string, now: int)
    requires OneWritten(t, u, i, k)
    ensures NewlyApplies(t, u, i, name, now) && (Applies(u[i], name, now) ==> Covers(k.target, name))
  {
    hide Covers;
  }

  /** Adding a rule touches one row, and can only make it apply. */
  lemma {:induction false} AddedRuleApplies(t: RuleTable, k: RuleKey, note: string, at: int, name: string, now: int)
    requires Valid(t)
    ensures var u := AddRuleTo(t, k, note, at);
            var i := Find(u, k);
            && i < |u| && Valid(u) && NewlyApplies(t, u, i, name, now)
            && (Applies(u[i], name, now) ==> Covers(k.target, name)) && (k !in Keys(t) ==> i == |t|)
  {
    hide Covers, Applies, NewlyApplies, Upsert, Find, Keys, Valid;
    var held := Data(t, k);
    var d := RuleData(true, if note == "" && held.Some? then held.value.note else note);
    WrittenRow(t, k, d, FreshRule(at));
    WrittenApplies(t, Upsert(t, k, d, FreshRule(at)), Find(t, k), k, name, now);
  }

  /**
   Adding a rule moves the decision only to the row it wrote, only for names that row covers, and only past live
   covering rules with greater ids; a rule with a new key leaves every name alone that some rule already decided.
   */
  lemma {:induction false} AddRuleChangesOnlyItsNames(t: RuleTable, k: RuleKey, note: string, at: int, name: string,
                                                      now: int)
    requires Valid(t)
    ensures var u := AddRuleTo(t, k, note, at);
            var i := Find(u, k);
            var w, w' := WinnerId(t, name, now), WinnerId(u, name, now);
            && i < |u|
            && (w' == w || (Covers(k.target, name) && w' == Some(u[i].id) && (w.None? || u[i].id < w.value)))
            && (k !in Keys(t) && w.Some? ==> w' == w)
  {
    hide Covers, WinnerId, Applies, NewlyApplies;
    AddedRuleApplies(t, k, note, at, name, now);
    hide Find, Data, Upsert, AddRuleTo, Keys;
    var u := AddRuleTo(t, k, note, at);
    OneRowDiffers(t, u, Find(u, k), name, now);
    var w := WinnerId(t, name, now);
    if k !in Keys(t) && w.Some? {
      WinnerIdOf(t, name, now);
      var j :| 0 <= j < |t| && IsFirst(t, j, name, now) && t[j].id == w.value;
      IdsKept(t, u, Find(u, k), j, name, now);
    }
  }

  lemma {:induction false} IdsKept(t: RuleTable, u: RuleTable, i: nat, j: nat, name: string, now: int)
    requires Valid(u) && NewlyApplies(t, u, i, name, now) && i == |t| && j < |t|
    ensures t[j].id < u[i].id
  {
  }

  // ---------------------------------------------------------------- hits

  /** The same rows up to their hit columns. */
  ghost predicate SameButHits(t: seq<Rule>, u: seq<Rule>) {
    |u| == |t| && forall i :: 0 <= i < |t| ==>
      u[i] == t[i].(meta := t[i].meta.(hitCount := u[i].meta.hitCount, lastHitAt := u[i].meta.lastHitAt))
  }

  lemma {:induction false} CountHitKeepsPolicy(t: RuleTable, id: int, now: int)
    ensures SameButHits(t, CountHit(t, id, now))
  {
  }

  lemma {:induction false} HitsKeepFirst(t: seq<Rule>, u: seq<Rule>, name: string, now: int)
    requires SameButHits(t, u)
    ensures var f, g := FirstApplying(t, name, now), FirstApplying(u, name, now);
            f.Some? == g.Some? && (f.Some? ==> f.value.id == g.value.id && f.value.key == g.value.key)
  {
    if t != [] {
      hide Covers;
      HitsKeepFirst(t[1..], u[1..], name, now);
    }
  }

  /** Two databases that differ in the rules' hit columns alone decide every query alike. */
  lemma {:induction false} HitsNeverChangeDecisions(db: Database, rules: RuleTable, q: Question, now: int, seen: Seen,
                                                    c: Config)
    requires SameButHits(db.rules, rules)
    ensures Decide(db.(rules := rules), q, now, seen, c) == Decide(db, q, now, seen, c)
  {
    HitsKeepFirst(db.rules, rules, MatchName(q), now);
    ViewDecidesByIdOrder(db.rules, MatchName(q), now);
    ViewDecidesByIdOrder(rules, MatchName(q), now);
    hide FirstApplying, RulesView, SameButHits, MatchName, Verdict;
    assert Winner(db.(rules := rules), q, now) == Winner(db, q, now);
    assert Listed(db.(rules := rules), q) == Listed(db, q);
    assert Statics(db.(rules := rules), q, c) == Statics(db, q, c);
    hide Winner, Listed, Statics;
  }

  // ---------------------------------------------------------------- two nodes

  lemma {:induction false} NoAnswer(records: seq<StaticRecord>, name: string, qtype: QType, c: Config)
    requires forall r :: r in records ==> r.key != StaticKey(name, TypeText(qtype))
    ensures StaticAnswers(records, name, qtype, c) == []
  {
    hide TypeText, RecordAnswer;
    if records != [] {
      NoAnswer(records[..|records| - 1], name, qtype, c);
    }
  }

  lemma {:induction false} OneAnswers(records: seq<StaticRecord>, i: nat, name: string, qtype: QType, c: Config)
    requires i < |records| && records[i].key == StaticKey(name, TypeText(qtype))
    requires forall j :: 0 <= j < |records| && j != i ==> records[j].key != records[i].key
    ensures StaticAnswers(records, name, qtype, c) == AnswerOf(records[i], name, qtype, c)
  {
    hide TypeText, AnswerOf;
    var n := |records| - 1;
    if i == n {
      NoAnswer(records[..n], name, qtype, c);
    } else {
      OneAnswers(records[..n], i, name, qtype, c);
      assert AnswerOf(records[n], name, qtype, c) == [] by { OtherKey(records[n], name, qtype, c); }
    }
  }

  lemma {:induction false} OtherKey(r: StaticRecord, name: string, qtype: QType, c: Config)
    requires r.key != StaticKey(name, TypeText(qtype))
    ensures AnswerOf(r, name, qtype, c) == []
  {
  }

  /** At most one of the listed records answers, and it is the one the key finds. */
  lemma {:induction false} StaticAnswerByKey(t: StaticTable, name: string, qtype: QType, c: Config)
    requires Valid(t)
    ensures StaticAnswers(StaticsView(t), name, qtype, c) == KeyedAnswer(Data(t, StaticKey(name, TypeText(qtype))), name, qtype, c)
  {
    var k, v := StaticKey(name, TypeText(qtype)), StaticsView(t);
    StaticsAreListedInOrder(t);
    hide StaticAnswers, TypeText, RecordAnswer, StaticsView, Ascending, AnswerOf;
    forall r ensures r in v <==> r in t { ListedMember(t, r); }
    var i := Find(t, k);
    if i < |t| {
      FindIn(t, i);
      hide Find, Data;
      var j := PlaceOf(v, t[i]);
      forall x | 0 <= x < |v| && x != j ensures v[x].key != k { AscendingIsDistinct(v, x, j); }
      OneAnswers(v, j, name, qtype, c);
      KeyAnswers(t[i], name, qtype, c);
    } else {
      hide Find;
      forall r | r in v ensures r.key != k { NotAt(t, r, k); }
      NoAnswer(v, name, qtype, c);
    }
  }

  lemma {:induction false} PlaceOf(rs: seq<StaticRecord>, r: StaticRecord) returns (j: nat)
    requires r in rs
    ensures j < |rs| && rs[j] == r
  {
    j :| 0 <= j < |rs| && rs[j] == r;
  }

  lemma {:induction false} NotAt(t: StaticTable, r: StaticRecord, k: StaticKey)
    requires r in t && forall j :: 0 <= j < |t| ==> t[j].key != k
    ensures r.key != k
  {
  }

  lemma {:induction false} KeyAnswers(r: StaticRecord, name: string, qtype: QType, c: Config)
    requires r.key == StaticKey(name, TypeText(qtype))
    ensures AnswerOf(r, name, qtype, c) == KeyedAnswer(Some(r.data), name, qtype, c)
  {
  }

  lemma {:induction false} AscendingIsDistinct(rs: seq<StaticRecord>, i: nat, j: nat)
    requires Ascending(rs) && i < |rs| && j < |rs| && i != j
    ensures rs[i].key != rs[j].key
  {
    if i < j {
      KeyLessIsStrict(rs[i].key, rs[j].key);
    } else {
      KeyLessIsStrict(rs[j].key, rs[i].key);
    }
  }

  lemma {:induction false} KeyLessIsStrict(a: StaticKey, b: StaticKey)
    requires KeyLess(a, b)
    ensures a != b
  {
    if a == b {
      if Less(a.name, b.name) {
        LessIsStrict(a.name, b.name);
      } else {
        LessIsStrict(a.rtype, b.rtype);
      }
    }
  }

  function KeyedAnswer(d: Option<StaticData>, name: string, qtype: QType, c: Config): seq<Record> {
    if d.None? then [] else AnswerOf(Row(0, StaticKey(name, TypeText(qtype)), d.value, 0), name, qtype, c)
  }

  lemma {:induction false} SameStatics(a: StaticTable, b: StaticTable, name: string, qtype: QType, c: Config)
    requires Valid(a) && Valid(b) && Image(a) == Image(b)
    ensures StaticAnswers(StaticsView(a), name, qtype, c) == StaticAnswers(StaticsView(b), name, qtype, c)
  {
    StaticAnswerByKey(a, name, qtype, c);
    StaticAnswerByKey(b, name, qtype, c);
    var k := StaticKey(name, TypeText(qtype));
    assert k in Image(a) <==> k in Image(b);
    hide StaticAnswers, KeyedAnswer, TypeText;
  }

  /** Both nodes list the same domains, whatever the sources. */
  ghost predicate SameDomains(a: EntryTable, b: EntryTable) {
    && (forall e :: e in a ==> exists f :: f in b && f.key.domain == e.key.domain)
    && (forall f :: f in b ==> exists e :: e in a && e.key.domain == f.key.domain)
  }

  lemma {:induction false} SameDomainsBlockAlike(a: Database, b: Database, name: string)
    requires SameDomains(a.entries, b.entries)
    ensures ListBlocks(a, name) <==> ListBlocks(b, name)
  {
    hide Covers;
  }

  lemma {:induction false} WinnersAgree(a: Database, b: Database, q: Question, now: int)
    requires DecidedAlike(a.rules, b.rules, MatchName(q), now)
    ensures var w, w' := Winner(a, q, now), Winner(b, q, now);
            w.Some? == w'.Some? && (w.Some? ==> w.value.key.action == w'.value.key.action)
  {
    hide FirstApplying, RulesView, MatchName;
  }

  lemma {:induction false} StaticsAgree(a: Database, b: Database, q: Question, c: Config)
    requires ValidDatabase(a) && ValidDatabase(b) && Image(a.statics) == Image(b.statics)
    ensures Statics(a, q, c) == Statics(b, q, c)
  {
    hide StaticAnswers, NormalizeName, Image, Valid;
    SameStatics(a.statics, b.statics, NormalizeName(q.name), q.qtype, c);
  }

  lemma {:induction false} AlikeVerdict(rule: Option<Match>, rule': Option<Match>, entry: Option<Entry>,
                                        entry': Option<Entry>, answers: seq<Record>, q: Question,
                                        upstream: Option<Msg>, c: Config)
    requires rule.Some? == rule'.Some? && (rule.Some? ==> rule.value.key.action == rule'.value.key.action)
    requires entry.Some? == entry'.Some?
    ensures var o, o' := Verdict(rule, entry, answers, q, upstream, c), Verdict(rule', entry', answers, q, upstream, c);
            o.action == o'.action && o.msg == o'.msg
  {
    hide Sinkhole, Unblocked;
  }

  /** Action and reply are the same on both nodes. */
  predicate AnsweredAlike(a: Database, b: Database, q: Question, now: int, seen: Seen, c: Config) {
    var o, o' := Decide(a, q, now, seen, c), Decide(b, q, now, seen, c);
    o.action == o'.action && o.msg == o'.msg
  }

  /** Nodes with equal static records and lists answer a query alike if their rules decide its name alike. */
  lemma {:induction false} EqualPoliciesAnswerAlike(a: Database, b: Database, q: Question, now: int, seen: Seen,
                                                    c: Config)
    requires ValidDatabase(a) && ValidDatabase(b) && Image(a.statics) == Image(b.statics) && SameDomains(a.entries, b.entries)
    requires DecidedAlike(a.rules, b.rules, MatchName(q), now)
    ensures AnsweredAlike(a, b, q, now, seen, c)
  {
    hide Decide, Verdict, Image, Valid, ValidDatabase, MatchName, SameDomains, DecidedAlike, Winner, Listed, Statics;
    hide ListBlocks;
    StaticsAgree(a, b, q, c);
    WinnersAgree(a, b, q, now);
    DecidedBy(a, q, now, seen, c);
    DecidedBy(b, q, now, seen, c);
    ListedIffCovered(a, q);
    ListedIffCovered(b, q);
    SameDomainsBlockAlike(a, b, MatchName(q));
    AlikeVerdict(if seen.rules then Winner(a, q, now) else None, if seen.rules then Winner(b, q, now) else None,
                 if seen.entries then Listed(a, q) else None, if seen.entries then Listed(b, q) else None,
                 if seen.statics then Statics(a, q, c) else [], q, seen.upstream, c);
  }
}
