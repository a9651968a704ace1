/** Whatever calls are made, the policy keeps the shape that the sync theorems assume of it. */
module StoredRuns {
  import opened Text
  import opened Names
  import opened Tables
  import opened Policy
  import opened HASync
  import opened SyncTheorems
  import opened SyncFixpoints
  import opened Calls

  /** Key and data of every row are as asked. */
  ghost predicate AllRows<K, D, M>(t: Table<K, D, M>, good: (K, D) -> bool) {
    forall i :: 0 <= i < |t| ==> good(t[i].key, t[i].data)
  }

  ghost predicate AllChanges<K, D>(cs: seq<Change<K, D>>, good: (K, D) -> bool) {
    forall i :: 0 <= i < |cs| ==> good(cs[i].key, cs[i].data)
  }

  lemma {:induction false} UpsertKeepsRows<K, D, M>(t: Table<K, D, M>, k: K, d: D, init: M, good: (K, D) -> bool)
    requires AllRows(t, good) && good(k, d)
    ensures AllRows(Upsert(t, k, d, init), good)
  {
  }

  lemma {:induction false} UpsertAllKeepsRows<K, D, M>(t: Table<K, D, M>, cs: seq<Change<K, D>>, init: M,
                                                       good: (K, D) -> bool)
    requires AllRows(t, good) && AllChanges(cs, good)
    ensures AllRows(UpsertAll(t, cs, init), good)
  {
    hide AllRows, Upsert;
    if cs != [] {
      var n := |cs| - 1;
      UpsertAllKeepsRows(t, cs[..n], init, good);
      UpsertKeepsRows(UpsertAll(t, cs[..n], init), cs[n].key, cs[n].data, init, good);
    }
  }

  lemma {:induction false} DropKeepsRows<K, D, M>(t: Table<K, D, M>, gone: set<K>, good: (K, D) -> bool)
    requires AllRows(t, good)
    ensures AllRows(Drop(t, gone), good)
  {
    if t != [] {
      DropKeepsRows(t[..|t| - 1], gone, good);
    }
  }

  /** The upserts and deletes of a sync keep what every change asks for. */
  lemma {:induction false} SyncKeepsRows<K, D, M>(t: Table<K, D, M>, cs: seq<Change<K, D>>, init: M, gone: set<K>,
                                                  good: (K, D) -> bool)
    requires AllRows(t, good) && AllChanges(cs, good)
    ensures AllRows(Drop(UpsertAll(t, cs, init), gone), good)
  {
    hide *;
    UpsertAllKeepsRows(t, cs, init, good);
    DropKeepsRows(UpsertAll(t, cs, init), gone, good);
  }

  lemma {:induction false} CollectedAreGood<R, K, D>(items: seq<R>, ask: R -> Option<Change<K, D>>,
                                                     good: (K, D) -> bool)
    requires forall i :: 0 <= i < |items| && ask(items[i]).Some? ==> good(ask(items[i]).value.key, ask(items[i]).value.data)
    ensures AllChanges(Collect(items, ask), good)
  {
    if items != [] {
      CollectedAreGood(items[..|items| - 1], ask, good);
    }
  }

  // ---------------------------------------------------------------- the shapes

  predicate RuleShape(k: RuleKey, d: RuleData) {
    OwnKey(k) && Stored(k.target)
  }

  predicate StaticShape(k: StaticKey, d: StaticData) {
    StoredStatic(Row(0, k, d, 0))
  }

  predicate SourceShape(url: string, d: SourceData) {
    url != "" && Trimmed(url) && FormatOf(d.format) == d.format
  }

  /** What the sync theorems assume of a primary, but for names that are no fixed points. */
  ghost predicate Shaped(db: Database) {
    StoredPolicy(db) && NeverExpires(db.rules)
  }

  ghost predicate ShapedRows(db: Database) {
    && AllRows(db.rules, RuleShape) && AllRows(db.statics, StaticShape) && AllRows(db.sources, SourceShape)
    && NeverExpires(db.rules)
  }

  lemma {:induction false} ShapedByRows(db: Database)
    ensures Shaped(db) <==> ShapedRows(db)
  {
    hide OwnKey, Stored, NeverExpires, Trimmed, IsUpper, FormatOf;
    if StoredPolicy(db) {
      forall i | 0 <= i < |db.rules| ensures RuleShape(db.rules[i].key, db.rules[i].data) { assert db.rules[i] in db.rules; }
      forall i | 0 <= i < |db.statics| ensures StaticShape(db.statics[i].key, db.statics[i].data) { assert db.statics[i] in db.statics; }
      forall i | 0 <= i < |db.sources| ensures SourceShape(db.sources[i].key, db.sources[i].data) { assert db.sources[i] in db.sources; }
    }
    if ShapedRows(db) {
      forall r | r in db.rules ensures RuleShape(r.key, r.data) {}
      forall r | r in db.statics ensures StaticShape(r.key, r.data) {}
      forall r | r in db.sources ensures SourceShape(r.key, r.data) {}
    }
  }

  // ---------------------------------------------------------------- what the arguments become

  lemma {:induction false} LowerKeepsBlanks(s: string)
    requires Trimmed(s)
    ensures Trimmed(ToLower(s))
  {
    hide ToLower;
    if s != "" {
      assert ToLower(s)[0] == LowerChar(s[0]) && ToLower(s)[|s| - 1] == LowerChar(s[|s| - 1]);
    }
  }

  lemma {:induction false} FormatIsStable(format: string)
    ensures FormatOf(FormatOf(format)) == FormatOf(format)
  {
    LowerKeepsBlanks(TrimSpace(format));
    assert Trimmed("domains") && IsLower("domains");
    hide ToLower, TrimSpace, Trimmed, IsLower;
  }

  lemma {:induction false} StaticAsksForShape(r: StaticRecord)
    ensures StaticChange(r).Some? ==> StaticShape(StaticChange(r).value.key, StaticChange(r).value.data)
  {
    ArgumentsAreStored("", "", r);
    hide StaticChange, StoredStatic;
  }

  lemma {:induction false} RuleAsksForShape(r: Rule)
    ensures RuleChange(r).Some? ==> RuleShape(RuleChange(r).value.key, RuleChange(r).value.data)
  {
    hide NormalizeName, ToLower, TrimSpace;
    assert RuleChange(r).Some? ==> NormalizeName(r.key.target) != "";
  }

  lemma {:induction false} SourceAsksForShape(s: BlocklistSource)
    ensures SourceChange(s).Some? ==> SourceShape(SourceChange(s).value.key, SourceChange(s).value.data)
  {
    FormatIsStable(s.data.format);
    hide FormatOf, TrimSpace;
  }

  // ---------------------------------------------------------------- one call

  lemma {:induction false} AddRuleKeepsShape(t: RuleTable, target: string, action: string, note: string, now: int)
    requires AllRows(t, RuleShape) && NeverExpires(t) && RuleArgs(target, action).Ok?
    ensures var u := AddRuleTo(t, RuleArgs(target, action).value, note, now); AllRows(u, RuleShape) && NeverExpires(u)
  {
    var k, held := RuleArgs(target, action).value, Data(t, RuleArgs(target, action).value);
    ArgumentsAreStored(target, action, Row(0, StaticKey("", ""), StaticData("", 0), 0));
    var d := RuleData(true, if note == "" && held.Some? then held.value.note else note);
    UpsertNeverExpires(t, k, d, now);
    hide RuleArgs, OwnKey, Stored, NeverExpires, Upsert, Data;
    UpsertKeepsRows(t, k, d, FreshRule(now), RuleShape);
  }

  lemma {:induction false} UpsertNeverExpires(t: RuleTable, k: RuleKey, d: RuleData, now: int)
    requires NeverExpires(t)
    ensures NeverExpires(Upsert(t, k, d, FreshRule(now)))
  {
    forall r | r in Upsert(t, k, d, FreshRule(now))
      ensures r.meta.expiresAt.None?
    {
      var i :| 0 <= i < |Upsert(t, k, d, FreshRule(now))| && Upsert(t, k, d, FreshRule(now))[i] == r;
      assert i < |t| ==> t[i] in t;
    }
  }

  lemma {:induction false} RuleUpdatesKeepShape(t: RuleTable, id: int, enabled: bool, now: int)
    requires AllRows(t, RuleShape) && NeverExpires(t)
    ensures AllRows(EnableRule(t, id, enabled), RuleShape) && NeverExpires(EnableRule(t, id, enabled))
    ensures AllRows(CountHit(t, id, now), RuleShape) && NeverExpires(CountHit(t, id, now))
  {
    hide OwnKey, Stored;
    var i := FindId(t, id);
    assert i < |t| ==> t[i] in t;
  }

  lemma {:induction false} SourceUpdatesKeepShape(t: SourceTable, id: int, enabled: bool)
    requires AllRows(t, SourceShape)
    ensures AllRows(EnableSource(t, id, enabled), SourceShape)
  {
    hide FormatOf, Trimmed;
  }

  lemma {:induction false} RecordingKeepsShape(t: SourceTable, source: SourceRef, status: string, now: int, ok: bool)
    requires AllRows(t, SourceShape)
    ensures AllRows(Recorded(t, source, status, now, ok), SourceShape)
  {
    hide FormatOf, Trimmed, SourceShape;
  }

  lemma {:induction false} RefreshKeepsShape(db: Database, list: seq<FetchSource>, fetch: SourceRef -> Fetch, now: int)
    requires ShapedRows(db)
    ensures ShapedRows(RefreshAll(db, list, fetch, now))
  {
    hide AllRows, NeverExpires, Recorded, ReplacedEntries, StatusOf;
    if list != [] {
      var s := list[|list| - 1];
      var before := RefreshAll(db, list[..|list| - 1], fetch, now);
      RefreshKeepsShape(db, list[..|list| - 1], fetch, now);
      RecordingKeepsShape(before.sources, s.source, StatusOf(fetch(s.source)), now, fetch(s.source).recorded);
    }
  }

  lemma {:induction false} AddSourceKeepsShape(t: SourceTable, name: string, url: string, format: string,
                                               reachable: bool, now: int)
    requires AllRows(t, SourceShape) && AddSourceProblem(url, format, reachable).None?
    ensures AllRows(AddSourceTo(t, name, url, format, now), SourceShape)
  {
    var u, n := TrimSpace(url), TrimSpace(name);
    FormatIsStable(format);
    hide FormatOf, TrimSpace, Upsert;
    UpsertKeepsRows(t, u, SourceData(if n == "" then u else n, FormatOf(format), true), FreshSource(now), SourceShape);
  }

  lemma {:induction false} SyncedRulesKeepShape(t: RuleTable, rs: seq<Rule>, now: int)
    requires Valid(t) && OwnRules(t) && AllRows(t, RuleShape) && NeverExpires(t)
    ensures AllRows(SyncedRules(t, rs, now), RuleShape) && NeverExpires(SyncedRules(t, rs, now))
  {
    forall i | 0 <= i < |rs| { RuleAsksForShape(rs[i]); }
    RuleSyncIsExact(t, rs, now);
    hide RuleChange, RuleShape, AllRows, Keys, Drop, UpsertAll, Collect, NeverExpires, RuleKeepText, RuleKeepTexts;
    CollectedAreGood(rs, RuleChange, RuleShape);
    var cs := RuleChanges(rs);
    var u := UpsertAll(t, cs, FreshRule(now));
    var gone := set k | k in Keys(u) && RuleKeepText(k) !in RuleKeepTexts(cs);
    SyncKeepsRows(t, cs, FreshRule(now), gone, RuleShape);
    SyncedRulesNeverExpire(t, cs, now);
  }

  lemma {:induction false} SyncedStaticsKeepShape(t: StaticTable, rs: seq<StaticRecord>, now: int)
    requires AllRows(t, StaticShape)
    ensures AllRows(SyncedStatics(t, rs, now), StaticShape)
  {
    forall i | 0 <= i < |rs| { StaticAsksForShape(rs[i]); }
    hide StaticChange, StaticShape, AllRows, Keys, Drop, UpsertAll, Collect, KeepText, KeepTexts;
    CollectedAreGood(rs, StaticChange, StaticShape);
    var cs := StaticChanges(rs);
    var u := UpsertAll(t, cs, now);
    var gone := set k | k in Keys(u) && KeepText(k) !in KeepTexts(cs);
    SyncKeepsRows(t, cs, now, gone, StaticShape);
  }

  lemma {:induction false} SyncedSourcesKeepShape(t: SourceTable, rs: seq<BlocklistSource>, now: int)
    requires AllRows(t, SourceShape)
    ensures AllRows(SyncedSources(t, rs, now), SourceShape)
  {
    forall i | 0 <= i < |rs| { SourceAsksForShape(rs[i]); }
    hide SourceChange, SourceShape, AllRows, Keys, Drop, UpsertAll, Collect, ChangedKeys;
    CollectedAreGood(rs, SourceChange, SourceShape);
    var cs := SourceChanges(rs);
    SyncKeepsRows(t, cs, FreshSource(now), Keys(UpsertAll(t, cs, FreshSource(now))) - ChangedKeys(cs), SourceShape);
  }

  lemma {:induction false} ImportKeepsShape(db: Database, p: Payload, now: int, parse: URLParser)
    requires Sound(db) && ShapedRows(db) && !Rejected(p.sources, parse)
    ensures ShapedRows(Synced(db, p, now, parse).value)
  {
    hide Rejected, SyncedRules, SyncedStatics, SyncedSources, AllRows, NeverExpires, Valid, OwnRules, UpsertAll, Drop;
    hide SyncedPresets, OrphanedEntries;
    SyncedRulesKeepShape(db.rules, p.rules, now);
    SyncedStaticsKeepShape(db.statics, p.statics, now);
    SyncedSourcesKeepShape(db.sources, p.sources, now);
  }

  lemma {:induction false} RuleCallKeepsShape(db: Database, c: Call, parse: URLParser)
    requires ShapedRows(db) && (c.AddRule? || c.SetRuleEnabled? || c.RecordRuleHit?)
    ensures ShapedRows(Plain(db, c, parse).0)
  {
    hide AllRows, NeverExpires, AddRuleTo, EnableRule, CountHit, RuleArgs, FindId, RuleReply;
    match c {
      case AddRule(target, action, note, now, _, _) =>
        if RuleArgs(target, action).Ok? {
          AddRuleKeepsShape(db.rules, target, action, note, now);
        }
      case SetRuleEnabled(id, enabled, _, _) => RuleUpdatesKeepShape(db.rules, id, enabled, 0);
      case RecordRuleHit(id, now, _) => RuleUpdatesKeepShape(db.rules, id, true, now);
      case _ =>
    }
  }

  lemma {:induction false} ListCallKeepsShape(db: Database, c: Call, parse: URLParser)
    requires ShapedRows(db) && (c.UpsertStaticRecord? || c.AddSource? || c.SetSourceEnabled? || c.RefreshBlocklists?)
    ensures ShapedRows(Plain(db, c, parse).0)
  {
    hide AllRows, NeverExpires, AddSourceTo, EnableSource, StaticChange, Upsert, FindId, SourceReply, RefreshAll;
    hide AddSourceProblem, EnabledSources;
    match c {
      case UpsertStaticRecord(name, rtype, value, ttl, now, _) =>
        var asked := StaticChange(Row(0, StaticKey(name, rtype), StaticData(value, ttl), now));
        StaticAsksForShape(Row(0, StaticKey(name, rtype), StaticData(value, ttl), now));
        if asked.Some? {
          UpsertKeepsRows(db.statics, asked.value.key, asked.value.data, now, StaticShape);
        }
      case AddSource(name, url, format, reachable, now, _, _) =>
        if AddSourceProblem(url, format, reachable).None? {
          AddSourceKeepsShape(db.sources, name, url, format, reachable, now);
        }
      case SetSourceEnabled(id, enabled, _, _) => SourceUpdatesKeepShape(db.sources, id, enabled);
      case RefreshBlocklists(order, _, fetch, now) => RefreshKeepsShape(db, EnabledSources(db, order), fetch, now);
      case _ =>
    }
  }

  lemma {:induction false} CallKeepsShape(db: Database, c: Call, parse: URLParser)
    requires Sound(db) && ShapedRows(db)
    ensures ShapedRows(Plain(db, c, parse).0)
  {
    hide ShapedRows, Sound, Synced, Rejected;
    if c.AddRule? || c.SetRuleEnabled? || c.RecordRuleHit? {
      RuleCallKeepsShape(db, c, parse);
    } else if c.UpsertStaticRecord? || c.AddSource? || c.SetSourceEnabled? || c.RefreshBlocklists? {
      ListCallKeepsShape(db, c, parse);
    } else if c.ApplySync? && !Rejected(c.payload.sources, parse) {
      ImportKeepsShape(db, c.payload, c.now, parse);
    }
  }

  // ---------------------------------------------------------------- any run

  /** Any run of calls keeps the shape. */
  lemma {:induction false} EveryRunIsShaped(db: Database, cs: seq<Call>, parse: URLParser)
    requires Sound(db) && Shaped(db)
    ensures Sound(PlainRun(db, cs, parse)) && Shaped(PlainRun(db, cs, parse))
  {
    hide Sound, Shaped, ShapedRows, Plain;
    if cs != [] {
      var before, c := PlainRun(db, cs[..|cs| - 1], parse), cs[|cs| - 1];
      EveryRunIsShaped(db, cs[..|cs| - 1], parse);
      ShapedByRows(before);
      CallKeepsShape(before, c, parse);
      CallKeepsSound(before, c, parse);
      ShapedByRows(Plain(before, c, parse).0);
    }
  }

  lemma {:induction false} SeedStaticShape(name: string, value: string)
    requires Stored(name) && value != "" && Trimmed(value)
    ensures StaticShape(StaticKey(name, "A"), StaticData(value, 60))
  {
  }

  lemma {:induction false} SeededRowsKeepShape(t: StaticTable, now: int)
    requires AllRows(t, StaticShape)
    ensures AllRows(SeededStatics(t, now), StaticShape)
  {
    SeedStaticShape("router.test.", "192.168.1.1");
    SeedStaticShape("dashboard.test.", "127.0.0.1");
    hide AllRows, StaticShape, Upsert, Keys;
    UpsertKeepsRows(t, StaticKey("router.test.", "A"), StaticData("192.168.1.1", 60), now, StaticShape);
    var router := Seeded(t, StaticKey("router.test.", "A"), StaticData("192.168.1.1", 60), now);
    UpsertKeepsRows(router, StaticKey("dashboard.test.", "A"), StaticData("127.0.0.1", 60), now, StaticShape);
  }

  lemma {:induction false} SeededRuleKeepsShape(t: RuleTable, now: int)
    requires AllRows(t, RuleShape) && NeverExpires(t)
    ensures AllRows(SeededRule(t, now), RuleShape) && NeverExpires(SeededRule(t, now))
  {
    var d := RuleData(true, "Default test block rule");
    assert RuleShape(TEST_RULE, d);
    hide AllRows, RuleShape, NeverExpires, Upsert, HasTestRule;
    UpsertKeepsRows(t, TEST_RULE, d, FreshRule(now), RuleShape);
    UpsertNeverExpires(t, TEST_RULE, d, now);
  }

  // ---------------------------------------------------------------- nodes the program wrote

  const EMPTY := Database([], [], map[], [], [], None)

  /** What a node holds that was opened on a new file and then called. */
  ghost function NodeAfter(now: int, builtins: seq<Preset>, cs: seq<Call>, parse: URLParser): Database {
    PlainRun(SeededDatabase(EMPTY, now, builtins), cs, parse)
  }

  lemma {:induction false} NewNodeIsShaped(now: int, builtins: seq<Preset>)
    ensures Sound(SeededDatabase(EMPTY, now, builtins)) && Shaped(SeededDatabase(EMPTY, now, builtins))
  {
    SeedKeepsSound(EMPTY, now, builtins, |builtins| + 2);
    SeededRowsKeepShape(EMPTY.statics, now);
    SeededRuleKeepsShape(EMPTY.rules, now);
    hide SeededStatics, SeededRule, SeededPresets, NeverExpires, Shaped, Sound;
    ShapedByRows(SeededDatabase(EMPTY, now, builtins));
  }

  /** Every node, after any calls, meets what the sync theorems assume, but for names that are no fixed points and NULs. */
  lemma {:induction false} EveryNodeIsShaped(now: int, builtins: seq<Preset>, cs: seq<Call>, parse: URLParser)
    ensures var db := NodeAfter(now, builtins, cs, parse);
            ValidDatabase(db) && OwnRules(db.rules) && StoredPolicy(db) && NeverExpires(db.rules)
  {
    NewNodeIsShaped(now, builtins);
    EveryRunIsShaped(SeededDatabase(EMPTY, now, builtins), cs, parse);
    hide SeededDatabase, ValidDatabase, OwnRules, StoredPolicy, NeverExpires, PlainRun;
  }

  /**
   Between any two nodes, whatever was called on them: a sync that is not refused brings the primary's rules, static
   records and sources to the secondary if and only if the primary's names are fixed points of NormalizeName.
   */
  lemma {:induction false} NodesCarryOverIff(primary: seq<Call>, secondary: seq<Call>, builtins: seq<Preset>, t0: int,
                                             t1: int, p: Payload, at: int, parse: URLParser)
    requires var P, S := NodeAfter(t0, builtins, primary, parse), NodeAfter(t1, builtins, secondary, parse);
             IsExport(p, P) && !Rejected(p.sources, parse)
    ensures var P, S := NodeAfter(t0, builtins, primary, parse), NodeAfter(t1, builtins, secondary, parse);
            var S' := Synced(S, p, at, parse).value;
            (Image(S'.rules) == Image(P.rules) && Image(S'.statics) == Image(P.statics) && Image(S'.sources) == Image(P.sources)) <==>
            && (forall r :: r in P.rules ==> Canonical(r.key.target))
            && (forall r :: r in P.statics ==> Canonical(r.key.name)) && !Collides(S.statics, Keys(P.statics))
  {
    EveryNodeIsShaped(t0, builtins, primary, parse);
    EveryNodeIsShaped(t1, builtins, secondary, parse);
    hide *;
    PolicyCarriesOverIff(NodeAfter(t0, builtins, primary, parse), NodeAfter(t1, builtins, secondary, parse), p, at, parse);
  }
}
