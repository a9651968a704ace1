/** When a secondary answers every query as the primary does, from the tables before the sync. */
module SyncedAnswers {
  import opened Text
  import opened Names
  import opened Tables
  import opened Policy
  import opened HASync
  import opened SyncTheorems
  import opened SyncFixpoints
  import opened SyncOrder
  import opened Resolver

  // ---------------------------------------------------------------- the entries a sync leaves

  /** Some source of the payload has this URL. */
  ghost predicate AsksForURL(p: Payload, url: string) {
    url != "" && exists i :: 0 <= i < |p.sources| && TrimSpace(p.sources[i].key) == url
  }

  /** The entry is a preset's, or no source row with its id has a URL that the payload leaves out. */
  ghost predicate Keeps(S: Database, p: Payload, e: Entry) {
    && e in S.entries
    && (e.key.source.CustomSource? ==>
          forall i :: 0 <= i < |S.sources| && S.sources[i].id == e.key.source.rowId ==> AsksForURL(p, S.sources[i].key))
  }

  ghost function KeptEntries(p: Payload, S: Database): EntryTable {
    Drop(S.entries, OrphanedEntries(S.entries, S.sources, ChangedKeys(SourceChanges(p.sources))))
  }

  lemma {:induction false} UnaskedRowsStay<K, D, M>(t: Table<K, D, M>, cs: seq<Change<K, D>>, init: M, r: Row<K, D, M>)
    requires Valid(t) && r.key !in ChangedKeys(cs)
    ensures r in UpsertAll(t, cs, init) <==> r in t
  {
    if cs != [] {
      var n := |cs| - 1;
      ChangedKeysSnoc(cs);
      UnaskedRowsStay(t, cs[..n], init, r);
      var u := UpsertAll(t, cs[..n], init);
      hide UpsertAll, ChangedKeys;
      OtherRowsStay(u, cs[n].key, cs[n].data, init, r);
    }
  }

  lemma {:induction false} OtherRowsStay<K, D, M>(t: Table<K, D, M>, k: K, d: D, init: M, r: Row<K, D, M>)
    requires r.key != k
    ensures r in Upsert(t, k, d, init) <==> r in t
  {
    var i, u := Find(t, k), Upsert(t, k, d, init);
    if r in t {
      var j :| 0 <= j < |t| && t[j] == r;
      assert u[j] == r;
    }
    if r in u {
      var j :| 0 <= j < |u| && u[j] == r;
      assert t[j] == r;
    }
  }

  /** Which sources the sync deletes can be read off the tables before it. */
  lemma {:induction false} SameOrphans(entries: EntryTable, t: SourceTable, cs: seq<Change<string, SourceData>>,
                                       init: SourceMeta)
    requires Valid(t)
    ensures OrphanedEntries(entries, UpsertAll(t, cs, init), ChangedKeys(cs)) == OrphanedEntries(entries, t, ChangedKeys(cs))
  {
    var u := UpsertAll(t, cs, init);
    hide UpsertAll, ChangedKeys, Keys;
    forall id
      ensures Unkept(u, ChangedKeys(cs), id) <==> Unkept(t, ChangedKeys(cs), id)
    {
      if Unkept(u, ChangedKeys(cs), id) {
        var i :| 0 <= i < |u| && u[i].id == id && u[i].key !in ChangedKeys(cs);
        UnaskedRowsStay(t, cs, init, u[i]);
        var j :| 0 <= j < |t| && t[j] == u[i];
      }
      if Unkept(t, ChangedKeys(cs), id) {
        var i :| 0 <= i < |t| && t[i].id == id && t[i].key !in ChangedKeys(cs);
        UnaskedRowsStay(t, cs, init, t[i]);
        var j :| 0 <= j < |u| && u[j] == t[i];
      }
    }
  }

  lemma {:induction false} SyncKeepsEntries(S: Database, p: Payload, at: int, parse: URLParser)
    requires ValidDatabase(S) && !Rejected(p.sources, parse)
    ensures Synced(S, p, at, parse).value.entries == KeptEntries(p, S)
  {
    SameOrphans(S.entries, S.sources, SourceChanges(p.sources), FreshSource(at));
    hide UpsertAll, SourceChanges, RuleChanges, StaticChanges, Drop, OrphanedEntries;
  }

  lemma {:induction false} URLsAsked(p: Payload, url: string)
    ensures url in ChangedKeys(SourceChanges(p.sources)) <==> AsksForURL(p, url)
  {
    hide Collect, ChangedKeys, TrimSpace, FormatOf;
    if url in ChangedKeys(SourceChanges(p.sources)) {
      CollectedFrom(p.sources, SourceChange, url);
    }
    if AsksForURL(p, url) {
      var i :| 0 <= i < |p.sources| && TrimSpace(p.sources[i].key) == url;
      CollectedHas(p.sources, SourceChange, i);
    }
  }

  lemma {:induction false} UnkeptIff(S: Database, p: Payload, id: int)
    ensures Unkept(S.sources, ChangedKeys(SourceChanges(p.sources)), id) <==>
            exists i :: 0 <= i < |S.sources| && S.sources[i].id == id && !AsksForURL(p, S.sources[i].key)
  {
    hide SourceChanges, ChangedKeys, AsksForURL;
    forall i | 0 <= i < |S.sources|
      ensures S.sources[i].key in ChangedKeys(SourceChanges(p.sources)) <==> AsksForURL(p, S.sources[i].key)
    {
      URLsAsked(p, S.sources[i].key);
    }
  }

  lemma {:induction false} KeptIff(S: Database, p: Payload, e: Entry)
    ensures e in KeptEntries(p, S) <==> Keeps(S, p, e)
  {
    var keep := ChangedKeys(SourceChanges(p.sources));
    DropMember(S.entries, OrphanedEntries(S.entries, S.sources, keep), e);
    hide SourceChanges, ChangedKeys, AsksForURL, Unkept, Drop;
    if e in S.entries {
      KeyOf(S.entries, e);
      if e.key.source.CustomSource? {
        UnkeptIff(S, p, e.key.source.rowId);
      }
    }
    hide Keys;
  }

  lemma {:induction false} KeyOf(t: EntryTable, e: Entry)
    requires e in t
    ensures e.key in Keys(t)
  {
    var i :| 0 <= i < |t| && t[i] == e;
  }

  /** A sync leaves exactly the entries of presets and of the source rows it leaves, each as it was, and adds none. */
  lemma {:induction false} SyncedEntriesIff(S: Database, p: Payload, at: int, parse: URLParser, e: Entry)
    requires ValidDatabase(S) && !Rejected(p.sources, parse)
    ensures e in Synced(S, p, at, parse).value.entries <==> Keeps(S, p, e)
  {
    SyncKeepsEntries(S, p, at, parse);
    hide Synced, KeptEntries, Keeps;
    KeptIff(S, p, e);
  }

  // ---------------------------------------------------------------- one query

  predicate BlocksBy(rule: Option<Match>) {
    rule.Some? && rule.value.key.action != "allow"
  }

  /** Whichever of the two reads work, the name is blocked on both nodes or on none. */
  predicate BlockedAlike(rule: Option<Match>, rule': Option<Match>, entry: Option<Entry>, entry': Option<Entry>) {
    && entry.Some? == entry'.Some?
    && BlocksBy(rule) == BlocksBy(rule')
    && (entry.Some? ==> rule.Some? == rule'.Some?)
  }

  lemma {:induction false} VerdictsAlike(rule: Option<Match>, rule': Option<Match>, entry: Option<Entry>,
                                         entry': Option<Entry>, answers: seq<Record>, q: Question,
                                         upstream: Option<Msg>, c: Config)
    requires BlocksBy(rule) == BlocksBy(rule') && entry.Some? == entry'.Some? && (entry.Some? ==> rule.Some? == rule'.Some?)
    ensures var o, o' := Verdict(rule, entry, answers, q, upstream, c), Verdict(rule', entry', answers, q, upstream, c);
            o.action == o'.action && o.msg == o'.msg
  {
    hide Sinkhole, Unblocked;
  }

  lemma {:induction false} BlockedVerdicts(rule: Option<Match>, entry: Option<Entry>, answers: seq<Record>,
                                           q: Question, upstream: Option<Msg>, c: Config)
    ensures Verdict(rule, entry, answers, q, upstream, c).action == Blocked <==> BlocksBy(rule) || (rule.None? && entry.Some?)
    ensures !BlocksBy(rule) && entry.None? ==>
              var o, u := Verdict(rule, entry, answers, q, upstream, c), Unblocked(answers, upstream); (o.action, o.msg) == u
  {
    hide Sinkhole;
  }

  lemma {:induction false} AnswersShow(a: seq<Record>, b: seq<Record>)
    requires Unblocked(a, None) == Unblocked(b, None)
    ensures a == b
  {
  }

  /** The decision with these reads, from what they bring. */
  function OutcomeOf(rule: Option<Match>, entry: Option<Entry>, answers: seq<Record>, q: Question, seen: Seen, c: Config): Outcome {
    Verdict(if seen.rules then rule else None, if seen.entries then entry else None, if seen.statics then answers else [],
            q, seen.upstream, c)
  }

  ghost predicate RepliesAlike(rule: Option<Match>, rule': Option<Match>, entry: Option<Entry>, entry': Option<Entry>,
                               a: seq<Record>, b: seq<Record>, q: Question, c: Config)
  {
    forall seen: Seen :: var o, o' := OutcomeOf(rule, entry, a, q, seen, c), OutcomeOf(rule', entry', b, q, seen, c);
                         o.action == o'.action && o.msg == o'.msg
  }

  lemma {:induction false} RepliesNeed(rule: Option<Match>, rule': Option<Match>, entry: Option<Entry>,
                                       entry': Option<Entry>, a: seq<Record>, b: seq<Record>, q: Question, c: Config)
    requires RepliesAlike(rule, rule', entry, entry', a, b, q, c)
    ensures BlockedAlike(rule, rule', entry, entry') && a == b
  {
    hide Verdict, Unblocked, BlocksBy;
    forall seen
      ensures var o, o' := OutcomeOf(rule, entry, a, q, seen, c), OutcomeOf(rule', entry', b, q, seen, c);
              o.action == o'.action && o.msg == o'.msg
    {
    }
    hide RepliesAlike;
    ShownBy(rule, rule', entry, entry', a, b, q, Seen(false, true, false, None), c);
    ShownBy(rule, rule', entry, entry', a, b, q, Seen(true, false, false, None), c);
    ShownBy(rule, rule', entry, entry', a, b, q, Seen(true, true, false, None), c);
    ShownBy(rule, rule', entry, entry', a, b, q, Seen(false, false, true, None), c);
    NoRuleBlocks();
    AllowingRule(rule);
    AllowingRule(rule');
    AnswersShow(a, b);
  }

  lemma {:induction false} NoRuleBlocks()
    ensures !BlocksBy(None)
  {
  }

  lemma {:induction false} AllowingRule(rule: Option<Match>)
    ensures BlocksBy(rule) ==> rule.Some?
  {
  }

  lemma {:induction false} ShownBy(rule: Option<Match>, rule': Option<Match>, entry: Option<Entry>,
                                   entry': Option<Entry>, a: seq<Record>, b: seq<Record>, q: Question, seen: Seen,
                                   c: Config)
    requires var o, o' := OutcomeOf(rule, entry, a, q, seen, c), OutcomeOf(rule', entry', b, q, seen, c);
             o.action == o'.action && o.msg == o'.msg
    ensures var r, r' := if seen.rules then rule else None, if seen.rules then rule' else None;
            var e, e' := if seen.entries then entry else None, if seen.entries then entry' else None;
            && ((BlocksBy(r) || (r.None? && e.Some?)) == (BlocksBy(r') || (r'.None? && e'.Some?)))
            && (!seen.rules && !seen.entries && seen.statics ==> Unblocked(a, seen.upstream) == Unblocked(b, seen.upstream))
  {
    NoRuleBlocks();
    hide Verdict, Unblocked, BlocksBy;
    BlockedVerdicts(if seen.rules then rule else None, if seen.entries then entry else None,
                    if seen.statics then a else [], q, seen.upstream, c);
    BlockedVerdicts(if seen.rules then rule' else None, if seen.entries then entry' else None,
                    if seen.statics then b else [], q, seen.upstream, c);
  }

  lemma {:induction false} RepliesFollow(rule: Option<Match>, rule': Option<Match>, entry: Option<Entry>,
                                         entry': Option<Entry>, a: seq<Record>, q: Question, c: Config)
    requires BlockedAlike(rule, rule', entry, entry')
    ensures RepliesAlike(rule, rule', entry, entry', a, a, q, c)
  {
    NoRuleBlocks();
    AllowingRule(rule);
    AllowingRule(rule');
    hide Verdict, BlocksBy;
    forall seen: Seen
      ensures var o, o' := OutcomeOf(rule, entry, a, q, seen, c), OutcomeOf(rule', entry', a, q, seen, c);
              o.action == o'.action && o.msg == o'.msg
    {
      VerdictsAlike(if seen.rules then rule else None, if seen.rules then rule' else None,
                    if seen.entries then entry else None, if seen.entries then entry' else None,
                    if seen.statics then a else [], q, seen.upstream, c);
    }
  }

  /** A query is answered alike, whichever reads work, if and only if what the reads bring blocks and answers alike. */
  lemma {:induction false} QueryAlikeIff(a: Database, b: Database, q: Question, now: int, c: Config)
    ensures (forall seen :: AnsweredAlike(a, b, q, now, seen, c)) <==>
            BlockedAlike(Winner(a, q, now), Winner(b, q, now), Listed(a, q), Listed(b, q)) && Statics(a, q, c) == Statics(b, q, c)
  {
    hide Winner, Listed, Statics, Verdict, BlockedAlike, RepliesAlike, Decide;
    forall seen
      ensures AnsweredAlike(a, b, q, now, seen, c) <==>
              var o := OutcomeOf(Winner(a, q, now), Listed(a, q), Statics(a, q, c), q, seen, c);
              var o' := OutcomeOf(Winner(b, q, now), Listed(b, q), Statics(b, q, c), q, seen, c);
              o.action == o'.action && o.msg == o'.msg
    {
      DecidedBy(a, q, now, seen, c);
      DecidedBy(b, q, now, seen, c);
    }
    hide AnsweredAlike, OutcomeOf;
    RepliesDefined(Winner(a, q, now), Winner(b, q, now), Listed(a, q), Listed(b, q), Statics(a, q, c), Statics(b, q, c), q, c);
    if RepliesAlike(Winner(a, q, now), Winner(b, q, now), Listed(a, q), Listed(b, q), Statics(a, q, c), Statics(b, q, c), q, c) {
      RepliesNeed(Winner(a, q, now), Winner(b, q, now), Listed(a, q), Listed(b, q), Statics(a, q, c), Statics(b, q, c), q, c);
    }
    if BlockedAlike(Winner(a, q, now), Winner(b, q, now), Listed(a, q), Listed(b, q)) {
      RepliesFollow(Winner(a, q, now), Winner(b, q, now), Listed(a, q), Listed(b, q), Statics(a, q, c), q, c);
    }
  }

  lemma {:induction false} RepliesDefined(rule: Option<Match>, rule': Option<Match>, entry: Option<Entry>,
                                          entry': Option<Entry>, a: seq<Record>, b: seq<Record>, q: Question,
                                          c: Config)
    ensures RepliesAlike(rule, rule', entry, entry', a, b, q, c) <==>
            forall seen: Seen :: var o, o' := OutcomeOf(rule, entry, a, q, seen, c), OutcomeOf(rule', entry', b, q, seen, c);
                                 o.action == o'.action && o.msg == o'.msg
  {
    hide OutcomeOf;
  }

  // ---------------------------------------------------------------- one name, before the sync

  ghost predicate EntriesCover(entries: EntryTable, name: string) {
    exists e :: e in entries && e.key.domain != "" && Covers(e.key.domain, name)
  }

  /** An entry that the sync will leave covers the name. */
  ghost predicate KeptCover(S: Database, p: Payload, name: string) {
    exists e :: Keeps(S, p, e) && e.key.domain != "" && Covers(e.key.domain, name)
  }

  lemma {:induction false} KeptCoverIs(S: Database, p: Payload, name: string)
    ensures KeptCover(S, p, name) <==> EntriesCover(KeptEntries(p, S), name)
  {
    hide Keeps, KeptEntries, Covers;
    forall e
      ensures Keeps(S, p, e) <==> e in KeptEntries(p, S)
    {
      KeptIff(S, p, e);
    }
  }

  predicate RuleBlocks(r: Option<Rule>) {
    r.Some? && r.value.key.action != "allow"
  }

  /** The primary, and the secondary as it will be, block the name alike, whichever of the two reads work. */
  ghost predicate AlikeAt(P: Database, S: Database, p: Payload, name: string, now: int) {
    var f, g := FirstApplying(P.rules, name, now), FirstApplying(Arranged(P.rules, S.rules), name, now);
    && (EntriesCover(P.entries, name) <==> KeptCover(S, p, name))
    && RuleBlocks(f) == RuleBlocks(g)
    && (EntriesCover(P.entries, name) ==> f.Some? == g.Some?)
  }

  /** What the secondary will answer from its static records, from the tables before the sync. */
  ghost function StaticsAfter(S: Database, p: Payload, q: Question, c: Config): seq<Record> {
    var name := NormalizeName(q.name);
    KeyedAnswer(StaticAfter(S.statics, p.statics, StaticKey(name, TypeText(q.qtype))), name, q.qtype, c)
  }

  lemma {:induction false} SyncedStaticAnswers(S: Database, p: Payload, at: int, parse: URLParser, q: Question,
                                               c: Config)
    requires ValidDatabase(S) && !Rejected(p.sources, parse)
    ensures Statics(Synced(S, p, at, parse).value, q, c) == StaticsAfter(S, p, q, c)
  {
    var t := SyncedStatics(S.statics, p.statics, at);
    StaticSyncIsExact(S.statics, p.statics, at);
    assert Synced(S, p, at, parse).value.statics == t;
    hide Synced, SyncedStatics, StaticAfter, NormalizeName, StaticAnswers, StaticsView, KeyedAnswer, TypeText;
    StaticAnswerByKey(t, NormalizeName(q.name), q.qtype, c);
    SyncedStaticsData(S.statics, p.statics, at, StaticKey(NormalizeName(q.name), TypeText(q.qtype)));
  }

  lemma {:induction false} WinnerOf(P: Database, q: Question, now: int)
    requires Valid(P.rules)
    ensures var f := FirstApplying(P.rules, MatchName(q), now);
            Winner(P, q, now).Some? == f.Some? && BlocksBy(Winner(P, q, now)) == RuleBlocks(f)
  {
    ViewDecidesByIdOrder(P.rules, MatchName(q), now);
    hide FirstApplying, RulesView, MatchName;
  }

  lemma {:induction false} SyncedWinner(P: Database, S: Database, S': Database, at: int, q: Question, now: int)
    requires Valid(S.rules) && OwnRules(S.rules) && NeverExpires(S.rules)
    requires S'.rules == SyncedRules(S.rules, RulesView(P.rules), at)
    ensures var g := FirstApplying(Arranged(P.rules, S.rules), MatchName(q), now);
            Winner(S', q, now).Some? == g.Some? && BlocksBy(Winner(S', q, now)) == RuleBlocks(g)
  {
    hide FirstApplying, RulesView, MatchName, Arranged, SyncedRules, NeverExpires;
    ArrangedDecides(P.rules, S.rules, at, MatchName(q), now);
  }

  lemma {:induction false} ListedIfCovered(db: Database, entries: EntryTable, q: Question)
    requires db.entries == entries
    ensures Listed(db, q).Some? <==> EntriesCover(entries, MatchName(q))
  {
    hide Listed, MatchName, Covers;
    ListedIffCovered(db, q);
  }

  /** One query, asked on both nodes after the sync, against the tables before it. */
  lemma {:induction false} SyncedQueryAlikeIff(P: Database, S: Database, p: Payload, at: int, parse: URLParser,
                                               q: Question, now: int, c: Config)
    requires ValidDatabase(P) && IsExport(p, P) && !Rejected(p.sources, parse)
    requires ValidDatabase(S) && OwnRules(S.rules) && NeverExpires(S.rules)
    ensures (forall seen :: AnsweredAlike(P, Synced(S, p, at, parse).value, q, now, seen, c)) <==>
            AlikeAt(P, S, p, MatchName(q), now) && Statics(P, q, c) == StaticsAfter(S, p, q, c)
  {
    var S' := Synced(S, p, at, parse).value;
    SyncKeepsEntries(S, p, at, parse);
    SyncedStaticAnswers(S, p, at, parse, q, c);
    assert S'.rules == SyncedRules(S.rules, RulesView(P.rules), at);
    hide Synced, SyncedRules, RulesView, NeverExpires, MatchName, FirstApplying, Arranged, KeptEntries, EntriesCover, KeptCover;
    hide Winner, Listed, Statics, StaticsAfter, IsExport;
    hide BlocksBy, RuleBlocks, AnsweredAlike;
    QueryAlikeIff(P, S', q, now, c);
    WinnerOf(P, q, now);
    SyncedWinner(P, S, S', at, q, now);
    ListedIfCovered(P, P.entries, q);
    ListedIfCovered(S', KeptEntries(p, S), q);
    KeptCoverIs(S, p, MatchName(q));
  }

  // ---------------------------------------------------------------- every name

  /** Rule targets, what a sync makes of them, and listed domains. */
  ghost function TestNames(P: Database, S: Database, p: Payload): set<string> {
    RuleNames(P.rules)
    + (set e | e in P.entries && e.key.domain != "" :: e.key.domain)
    + (set e | e in S.entries && Keeps(S, p, e) && e.key.domain != "" :: e.key.domain)
  }

  lemma {:induction false} CoverSame(entries: EntryTable, ds: set<string>, m: string, n: string)
    requires CoveredSame(ds, m, n) && forall e :: e in entries && e.key.domain != "" ==> e.key.domain in ds
    ensures EntriesCover(entries, m) <==> EntriesCover(entries, n)
  {
    hide Covers;
  }

  lemma {:induction false} TestNamesHold(P: Database, S: Database, p: Payload)
    ensures forall d :: d in RuleNames(P.rules) ==> d in TestNames(P, S, p)
    ensures forall e :: e in P.entries && e.key.domain != "" ==> e.key.domain in TestNames(P, S, p)
    ensures forall e :: e in KeptEntries(p, S) && e.key.domain != "" ==> e.key.domain in TestNames(P, S, p)
  {
    hide RuleNames, KeptEntries, Keeps;
    forall e | e in KeptEntries(p, S)
      ensures e in S.entries && Keeps(S, p, e)
    {
      KeptIff(S, p, e);
      KeepsHeld(S, p, e);
    }
  }

  lemma {:induction false} KeepsHeld(S: Database, p: Payload, e: Entry)
    requires Keeps(S, p, e)
    ensures e in S.entries
  {
  }

  /** Names that the same tests cover are blocked alike together. */
  lemma {:induction false} AlikeSame(P: Database, S: Database, p: Payload, m: string, n: string, now: int)
    requires CoveredSame(TestNames(P, S, p), m, n)
    ensures AlikeAt(P, S, p, m, now) <==> AlikeAt(P, S, p, n, now)
  {
    var ds := TestNames(P, S, p);
    TestNamesHold(P, S, p);
    ArrangedWithin(P.rules, S.rules);
    assert CoveredSame(RuleNames(P.rules), m, n) by { hide Covers, RuleNames, TestNames; }
    hide TestNames, RuleNames, KeptEntries, Covers, FirstApplying, Arranged, EnabledWithin, CoveredSame, EntriesCover, KeptCover;
    hide RuleBlocks;
    ScannedSame(P.rules, RuleNames(P.rules), m, n, now);
    ScannedSame(Arranged(P.rules, S.rules), RuleNames(P.rules), m, n, now);
    CoverSame(P.entries, ds, m, n);
    CoverSame(KeptEntries(p, S), ds, m, n);
    KeptCoverIs(S, p, m);
    KeptCoverIs(S, p, n);
  }

  lemma {:induction false} NoneCover(entries: EntryTable, ds: set<string>, n: string)
    requires (forall d :: d in ds ==> !Covers(d, n)) && forall e :: e in entries && e.key.domain != "" ==> e.key.domain in ds
    ensures !EntriesCover(entries, n)
  {
    hide Covers;
  }

  lemma {:induction false} AlikeUncovered(P: Database, S: Database, p: Payload, n: string, now: int)
    requires forall d :: d in TestNames(P, S, p) ==> !Covers(d, n)
    ensures AlikeAt(P, S, p, n, now)
  {
    var ds := TestNames(P, S, p);
    TestNamesHold(P, S, p);
    hide TestNames, RuleNames, KeptEntries, Covers, FirstApplying, Arranged, EntriesCover, KeptCover;
    AgreesUncovered(P.rules, S.rules, n, now);
    NoneCover(P.entries, ds, n);
    NoneCover(KeptEntries(p, S), ds, n);
    KeptCoverIs(S, p, n);
  }

  // ---------------------------------------------------------------- a query at every test name

  lemma {:induction false} LongerThanAll(ds: set<string>) returns (n: nat)
    ensures n > 0 && forall d :: d in ds ==> |d| < n
  {
    n := 1;
    var left := ds;
    while left != {}
      invariant left <= ds && n > 0 && forall d :: d in ds - left ==> |d| < n
      decreases left
    {
      var d :| d in left;
      if |d| >= n {
        n := |d| + 1;
      }
      left := left - {d};
    }
  }

  predicate IsLabel(s: string) {
    s != "" && forall i :: 0 <= i < |s| ==> s[i] == 'a'
  }

  /** A name just below d, by a label longer than any of the names, is covered by those that cover d. */
  lemma {:induction false} BelowByLabel(head: string, d: string, e: string)
    requires IsLabel(head) && |e| < |head|
    ensures Covers(e, head + "." + d) <==> Covers(e, d)
  {
    var w := head + "." + d;
    assert w[|w| - |d| - 1..] == "." + d;
    assert Covers(d, w);
    if |e| > |d| {
      var i := |w| - |e| - 1;
      assert w[i] == head[i];
      NoDotBefore(e, w);
    } else if Covers(e, w) {
      CoverersAreNested(e, d, w);
    }
    if Covers(e, d) {
      CoversIsTransitive(e, d, w);
    }
  }

  lemma {:induction false} NoDotBefore(e: string, w: string)
    requires |e| < |w| && w[|w| - |e| - 1] != '.'
    ensures !Covers(e, w)
  {
    var dotted := "." + e;
    var tail := w[|w| - |dotted|..];
    assert tail[0] == w[|w| - |e| - 1] && dotted[0] == '.';
  }

  lemma {:induction false} LabelledIsClean(head: string, d: string)
    requires IsLabel(head) && Stored(d)
    ensures Clean(head + "." + d)
  {
    var w := head + "." + d;
    forall i | 0 <= i < |w|
      ensures !('A' <= w[i] <= 'Z')
    {
      assert w[i] == if i < |head| then head[i] else if i == |head| then '.' else d[i - |head| - 1];
    }
    assert w[0] == head[0] && w[|w| - 1] == d[|d| - 1];
  }

  /** Some query is decided as the stored name is. */
  lemma {:induction false} AskedBelow(ds: set<string>, d: string) returns (q: Question)
    requires Stored(d)
    ensures CoveredSame(ds, MatchName(q), d)
  {
    var n := LongerThanAll(ds);
    var head := seq(n, i => 'a');
    var w := head + "." + d;
    LabelledIsClean(head, d);
    CleanIsCanonical(w);
    q := Question(w, A);
    assert MatchName(q) == w;
    hide MatchName, Covers;
    forall e | e in ds
      ensures Covers(e, w) <==> Covers(e, d)
    {
      BelowByLabel(head, d, e);
    }
  }

  lemma {:induction false} SuffixIsStored(d: string, n: string)
    requires d != "" && Covers(d, n) && IsLower(n) && (n == "" || n[|n| - 1] == '.')
    ensures Stored(d)
  {
    assert |d| <= |n| && d == n[|n| - |d|..] by { SuffixOfCovered(d, n); }
    hide Covers;
  }

  lemma {:induction false} SuffixOfCovered(d: string, n: string)
    requires Covers(d, n)
    ensures |d| <= |n| && d == n[|n| - |d|..]
  {
    if n != d {
      var dotted := "." + d;
      assert n[|n| - |dotted|..] == dotted;
      assert d == dotted[1..];
    }
  }

  lemma {:induction false} MatchNameShape(q: Question)
    ensures var n := MatchName(q); IsLower(n) && (n == "" || n[|n| - 1] == '.')
  {
  }

  lemma {:induction false} TestNamesAreNotEmpty(P: Database, S: Database, p: Payload)
    requires forall r :: r in P.rules ==> r.key.target != ""
    ensures "" !in TestNames(P, S, p)
  {
    hide NormalizeName, KeptEntries, Keeps;
  }

  /**
   For every primary and every secondary: after a sync the secondary answers every query as the primary does, whichever
   reads work, if and only if, on the tables before the sync, every stored name among the enabled rules' targets, their
   normal forms and the listed domains is blocked alike, and every query has the same static answer.
   */
  lemma {:induction false} SyncedNodesAnswerAlikeIff(P: Database, S: Database, p: Payload, at: int, parse: URLParser,
                                                     now: int, c: Config)
    requires ValidDatabase(P) && IsExport(p, P) && !Rejected(p.sources, parse) && forall r :: r in P.rules ==> r.key.target != ""
    requires ValidDatabase(S) && OwnRules(S.rules) && NeverExpires(S.rules)
    ensures (forall q, seen :: AnsweredAlike(P, Synced(S, p, at, parse).value, q, now, seen, c)) <==>
            && (forall d :: d in TestNames(P, S, p) && Stored(d) ==> AlikeAt(P, S, p, d, now))
            && (forall q :: Statics(P, q, c) == StaticsAfter(S, p, q, c))
  {
    var S', ds := Synced(S, p, at, parse).value, TestNames(P, S, p);
    TestNamesAreNotEmpty(P, S, p);
    hide *;
    forall q
      ensures AnsweredAll(P, S', q, now, c) <==> AlikeAt(P, S, p, MatchName(q), now) && Statics(P, q, c) == StaticsAfter(S, p, q, c)
    {
      SyncedQueryAlikeIff(P, S, p, at, parse, q, now, c);
      AllReads(P, S', q, now, c);
    }
    AllQueries(P, S', now, c);
    if forall d :: d in ds && Stored(d) ==> AlikeAt(P, S, p, d, now) {
      forall q
        ensures AlikeAt(P, S, p, MatchName(q), now)
      {
        AlikeEverywhere(P, S, p, q, now);
      }
    }
    if forall q :: AnsweredAll(P, S', q, now, c) {
      forall d | d in ds && Stored(d)
        ensures AlikeAt(P, S, p, d, now)
      {
        var q := AskedBelow(ds, d);
        assert AnsweredAll(P, S', q, now, c);
        AlikeSame(P, S, p, MatchName(q), d, now);
      }
    }
  }

  /** The query is answered alike whichever reads work. */
  ghost predicate AnsweredAll(a: Database, b: Database, q: Question, now: int, c: Config) {
    forall seen :: AnsweredAlike(a, b, q, now, seen, c)
  }

  lemma {:induction false} AllReads(a: Database, b: Database, q: Question, now: int, c: Config)
    ensures AnsweredAll(a, b, q, now, c) <==> forall seen :: AnsweredAlike(a, b, q, now, seen, c)
  {
    hide AnsweredAlike;
  }

  lemma {:induction false} AllQueries(a: Database, b: Database, now: int, c: Config)
    ensures (forall q :: AnsweredAll(a, b, q, now, c)) <==> forall q, seen :: AnsweredAlike(a, b, q, now, seen, c)
  {
    hide AnsweredAlike;
    if forall q :: AnsweredAll(a, b, q, now, c) {
      forall q, seen
        ensures AnsweredAlike(a, b, q, now, seen, c)
      {
        assert AnsweredAll(a, b, q, now, c);
      }
    }
  }

  lemma {:induction false} AlikeEverywhere(P: Database, S: Database, p: Payload, q: Question, now: int)
    requires "" !in TestNames(P, S, p) && forall d :: d in TestNames(P, S, p) && Stored(d) ==> AlikeAt(P, S, p, d, now)
    ensures AlikeAt(P, S, p, MatchName(q), now)
  {
    hide TestNames, AlikeAt, MatchName, Stored, Covers, CoveredSame, IsLower;
    var ds, n := TestNames(P, S, p), MatchName(q);
    if e :| e in ds && Covers(e, n) {
      var d := Deepest(ds, n, e);
      MatchNameShape(q);
      SuffixIsStored(d, n);
      AlikeSame(P, S, p, n, d, now);
    } else {
      AlikeUncovered(P, S, p, n, now);
    }
  }
}
