/** What each Store call does to the database and answers, with no cache between. */
module Calls {
  import opened Text
  import opened Names
  import opened Tables
  import opened Policy
  import opened HASync
  import opened SyncTheorems

  /** What one source's download and parse came to; `recorded` says whether its status could be written. */
  datatype Fetch =
    | NotFetched(status: string, recorded: bool)
    | Parsed(domains: seq<string>, txOk: bool, recorded: bool)

  /** What a refresh reports of one source; the error's text is left out. */
  datatype RefreshResult = RefreshResult(name: string, url: string, status: string, entries: int)

  datatype Call =
    | ListRules(queryOk: bool)
    | ListStatics(queryOk: bool)
    | MatchRule(qname: string, now: int, queryOk: bool)
    | MatchBlocklist(qname: string, queryOk: bool)
    | AddRule(target: string, action: string, note: string, now: int, writeOk: bool, readOk: bool)
    | SetRuleEnabled(id: int, enabled: bool, writeOk: bool, readOk: bool)
    | RecordRuleHit(id: int, now: int, writeOk: bool)
    | UpsertStaticRecord(name: string, rtype: string, value: string, ttl: int, now: int, writeOk: bool)
    | RefreshBlocklists(order: seq<SourceRef>, listOk: bool, fetch: SourceRef -> Fetch, now: int)
    | AddSource(name: string, url: string, format: string, reachable: bool, now: int, writeOk: bool, readOk: bool)
    | SetSourceEnabled(id: int, enabled: bool, writeOk: bool, readOk: bool)
    | ApplySync(payload: Payload, now: int, txOk: bool)

  datatype Reply =
    | RuleList(rules: seq<Rule>)
    | StaticList(statics: seq<StaticRecord>)
    | RuleMatch(rule: Option<Rule>)
    | EntryMatch(entry: Option<Entry>)
    | RuleSaved(saved: Rule)
    | SourceSaved(source: BlocklistSource)
    | Refreshed(results: seq<RefreshResult>)
    | Done
    | Failed(problem: Problem)

  // ---------------------------------------------------------------- rules

  /** INSERT of a rule: a known key is enabled again and keeps its note unless a new one is given. */
  function AddRuleTo(t: RuleTable, k: RuleKey, note: string, now: int): RuleTable
  {
    var held := Data(t, k);
    Upsert(t, k, RuleData(true, if note == "" && held.Some? then held.value.note else note), FreshRule(now))
  }

  /** The key AddRule writes, or why it refuses. */
  function RuleArgs(target: string, action: string): Result<RuleKey, Problem> {
    var t := NormalizeName(target);
    var a := ToLower(TrimSpace(action));
    if t == "" then Err(TargetRequired)
    else if a != "block" && a != "allow" then Err(BadAction)
    else Ok(RuleKey(GLOBAL, t, a))
  }

  /** The position of the row with this id, or |t|. */
  function FindId<K, D, M>(t: Table<K, D, M>, id: int): (i: nat)
    ensures i <= |t|
    ensures i < |t| ==> t[i].id == id
    ensures forall j :: 0 <= j < i ==> t[j].id != id
  {
    if t == [] || t[0].id == id then 0 else 1 + FindId(t[1..], id)
  }

  function EnableRule(t: RuleTable, id: int, enabled: bool): RuleTable {
    var i := FindId(t, id);
    if i < |t| then t[i := t[i].(data := t[i].data.(enabled := enabled))] else t
  }

  function CountHit(t: RuleTable, id: int, now: int): RuleTable {
    var i := FindId(t, id);
    if i < |t| then
      t[i := t[i].(meta := t[i].meta.(hitCount := t[i].meta.hitCount + 1, lastHitAt := Some(now)))]
    else t
  }

  // ---------------------------------------------------------------- blocklist sources and entries

  /** The keys of one source: what a refresh of it leaves out first. */
  function EntriesOf(t: EntryTable, source: SourceRef): set<EntryKey> {
    set k | k in Keys(t) && k.source == source
  }

  /** INSERT OR IGNORE of one entry. */
  function AddEntry(t: EntryTable, k: EntryKey, sourceName: string, now: int): EntryTable {
    if k in Keys(t) then t else Upsert(t, k, sourceName, now)
  }

  function AddEntries(t: EntryTable, source: SourceRef, sourceName: string, domains: seq<string>, now: int):
    EntryTable
  {
    if domains == [] then t else
      var n := |domains| - 1;
      AddEntry(AddEntries(t, source, sourceName, domains[..n], now), EntryKey(domains[n], source), sourceName, now)
  }

  function ReplacedEntries(t: EntryTable, source: SourceRef, sourceName: string, domains: seq<string>, now: int):
    EntryTable
  {
    AddEntries(Drop(t, EntriesOf(t, source)), source, sourceName, domains, now)
  }

  function AddSourceProblem(url: string, format: string, reachable: bool): Option<Problem> {
    var u, f := TrimSpace(url), FormatOf(format);
    if u == "" then Some(URLRequired)
    else if !HasPrefix(u, "https://") && !HasPrefix(u, "http://") then Some(BadScheme)
    else if !reachable then Some(NotPublic)
    else if f != "domains" && f != "hosts" && f != "adguard" then Some(BadFormat)
    else None
  }

  function AddSourceTo(t: SourceTable, name: string, url: string, format: string, now: int): SourceTable
  {
    var u, n := TrimSpace(url), TrimSpace(name);
    Upsert(t, u, SourceData(if n == "" then u else n, FormatOf(format), true), FreshSource(now))
  }

  function EnableSource(t: SourceTable, id: int, enabled: bool): SourceTable {
    var i := FindId(t, id);
    if i < |t| then t[i := t[i].(data := t[i].data.(enabled := enabled))] else t
  }

  // ---------------------------------------------------------------- what single updates write

  lemma {:induction false} FindIdIn<K, D, M>(t: Table<K, D, M>, id: int, i: nat)
    requires Valid(t) && i < |t|
    ensures t[i].id == id <==> FindId(t, id) == i
  {
  }

  /** The flag it is given is written to the rule with that id, and to no other. */
  lemma {:induction false} EnableRuleSets(t: RuleTable, id: int, enabled: bool, i: nat)
    requires Valid(t) && i < |t|
    ensures |EnableRule(t, id, enabled)| == |t|
    ensures EnableRule(t, id, enabled)[i] == if t[i].id == id then Row(id, t[i].key, RuleData(enabled, t[i].data.note), t[i].meta) else t[i]
  {
    FindIdIn(t, id, i);
  }

  /** One more hit, at this time, for the rule with that id. */
  lemma {:induction false} CountHitSets(t: RuleTable, id: int, now: int, i: nat)
    requires Valid(t) && i < |t|
    ensures |CountHit(t, id, now)| == |t|
    ensures var m := t[i].meta;
            CountHit(t, id, now)[i] ==
            if t[i].id == id then Row(id, t[i].key, t[i].data, RuleMeta(m.expiresAt, m.hitCount + 1, Some(now), m.createdAt)) else t[i]
  {
    FindIdIn(t, id, i);
  }

  lemma {:induction false} EnableSourceSets(t: SourceTable, id: int, enabled: bool, i: nat)
    requires Valid(t) && i < |t|
    ensures |EnableSource(t, id, enabled)| == |t|
    ensures var d := t[i].data;
            EnableSource(t, id, enabled)[i] == if t[i].id == id then Row(id, t[i].key, SourceData(d.name, d.format, enabled), t[i].meta) else t[i]
  {
    FindIdIn(t, id, i);
  }

  /** The rule is enabled; it gets the note, or keeps the one it had when none is given. A new one starts without hits. */
  lemma {:induction false} AddRuleSets(t: RuleTable, k: RuleKey, note: string, now: int)
    requires Valid(t)
    ensures var u := AddRuleTo(t, k, note, now);
            && (k !in Keys(t) ==> u == t + [Row(NextId(t), k, RuleData(true, note), RuleMeta(None, 0, None, now))])
            && (forall i :: 0 <= i < |t| && t[i].key == k ==>
                  u == t[i := Row(t[i].id, k, RuleData(true, if note == "" then t[i].data.note else note), t[i].meta)])
  {
    forall i | 0 <= i < |t| && t[i].key == k
      ensures Find(t, k) == i && k in Keys(t)
    {
      FindIn(t, i);
    }
  }

  /** The source is enabled, under its URL's own name when none is given; a new one has not been checked. */
  lemma {:induction false} AddSourceSets(t: SourceTable, name: string, url: string, format: string, now: int)
    requires Valid(t)
    ensures var k, u := TrimSpace(url), AddSourceTo(t, name, url, format, now);
            var n := if TrimSpace(name) == "" then k else TrimSpace(name);
            && (k !in Keys(t) ==> u == t + [Row(NextId(t), k, SourceData(n, FormatOf(format), true), SourceMeta("not checked", None, now))])
            && (forall i :: 0 <= i < |t| && t[i].key == k ==>
                  u == t[i := Row(t[i].id, k, SourceData(n, FormatOf(format), true), t[i].meta)])
  {
    var k := TrimSpace(url);
    forall i | 0 <= i < |t| && t[i].key == k
      ensures Find(t, k) == i && k in Keys(t)
    {
      FindIn(t, i);
    }
    hide FormatOf, TrimSpace;
  }

  /** A blank format is "domains"; the others are taken in lower case. */
  lemma {:induction false} FormatIs(before: string, word: string, after: string, text: string)
    requires AllBlank(before) && AllBlank(after) && Trimmed(word) && IsLower(word) && SameButCase(text, before + word + after)
    ensures FormatOf(text) == if word == "" then "domains" else word
  {
    TrimSpaceIs(before, word, after);
    TrimSpaceKeepsCase(text, before + word + after);
    CaseIsDropped(TrimSpace(text), word);
    hide TrimSpace, SameButCase, AllBlank;
    assert ToLower(word) == word;
  }

  // ---------------------------------------------------------------- defaults

  /** INSERT OR IGNORE of one static record. */
  function Seeded(t: StaticTable, k: StaticKey, d: StaticData, now: int): StaticTable
  {
    if k in Keys(t) then t else Upsert(t, k, d, now)
  }

  function SeededStatics(t: StaticTable, now: int): StaticTable {
    var router := Seeded(t, StaticKey("router.test.", "A"), StaticData("192.168.1.1", 60), now);
    Seeded(router, StaticKey("dashboard.test.", "A"), StaticData("127.0.0.1", 60), now)
  }

  const TEST_RULE := RuleKey(GLOBAL, "blocked.test.", "block")

  /** Some rule, of any scope, has the default rule's target and action. */
  predicate HasTestRule(t: RuleTable) {
    exists k :: k in Keys(t) && k.target == TEST_RULE.target && k.action == TEST_RULE.action
  }

  function SeededRule(t: RuleTable, now: int): RuleTable {
    if HasTestRule(t) then t else Upsert(t, TEST_RULE, RuleData(true, "Default test block rule"), FreshRule(now))
  }

  /** A built-in preset: its texts are brought up to date, and its flag is kept, or off when it is new. */
  function SeededPreset(m: map<string, Preset>, p: Preset): map<string, Preset> {
    m[p.id := p.(enabled := p.id in m && m[p.id].enabled)]
  }

  function SeededPresets(m: map<string, Preset>, builtins: seq<Preset>): map<string, Preset> {
    if builtins == [] then m else
      SeededPreset(SeededPresets(m, builtins[..|builtins| - 1]), builtins[|builtins| - 1])
  }

  lemma {:induction false} NoPresetsSeeded(m: map<string, Preset>)
    ensures SeededPresets(m, []) == m
  {
  }

  lemma {:induction false} NextPreset(now: map<string, Preset>, m: map<string, Preset>, builtins: seq<Preset>, i: nat)
    requires i < |builtins| && now == SeededPresets(m, builtins[..i])
    ensures SeededPresets(m, builtins[..i + 1]) == SeededPreset(now, builtins[i])
  {
    hide SeededPreset;
    assert builtins[..i + 1][..i] == builtins[..i];
  }

  lemma {:induction false} SeededKeepsValid(t: StaticTable, k: StaticKey, d: StaticData, now: int)
    requires Valid(t)
    ensures Valid(Seeded(t, k, d, now))
  {
    UpsertKeepsValid(t, k, d, now);
  }

  lemma {:induction false} SeedKeepsSound(db: Database, now: int, builtins: seq<Preset>, works: nat)
    requires Sound(db)
    ensures Sound(SeededPartly(db, now, builtins, works))
    ensures works >= |builtins| + 2 ==> SeededPartly(db, now, builtins, works) == SeededDatabase(db, now, builtins)
  {
    hide SeededPresets;
    assert builtins[..|builtins|] == builtins;
    UpsertKeepsValid(db.rules, TEST_RULE, RuleData(true, "Default test block rule"), FreshRule(now));
    var router := Seeded(db.statics, StaticKey("router.test.", "A"), StaticData("192.168.1.1", 60), now);
    SeededKeepsValid(db.statics, StaticKey("router.test.", "A"), StaticData("192.168.1.1", 60), now);
    SeededKeepsValid(router, StaticKey("dashboard.test.", "A"), StaticData("127.0.0.1", 60), now);
  }

  /** The statements of SeedDefaults are the static records, the rule, and one a preset; the first `works` of them work. */
  function SeededPartly(db: Database, now: int, builtins: seq<Preset>, works: nat): Database {
    var n := if works < 2 then 0 else if works - 2 < |builtins| then works - 2 else |builtins|;
    db.(statics := if works >= 1 then SeededStatics(db.statics, now) else db.statics,
        rules := if works >= 2 then SeededRule(db.rules, now) else db.rules,
        presets := SeededPresets(db.presets, builtins[..n]))
  }

  function SeededDatabase(db: Database, now: int, builtins: seq<Preset>): Database {
    db.(statics := SeededStatics(db.statics, now), rules := SeededRule(db.rules, now), presets := SeededPresets(db.presets, builtins))
  }

  /** Seeding switches no preset on or off, and adds new ones switched off. */
  lemma {:induction false} SeedingKeepsFlags(m: map<string, Preset>, builtins: seq<Preset>, id: string)
    ensures id in m ==> id in SeededPresets(m, builtins) && SeededPresets(m, builtins)[id].enabled == m[id].enabled
    ensures id in SeededPresets(m, builtins) && id !in m ==> !SeededPresets(m, builtins)[id].enabled
  {
    if builtins != [] {
      SeedingKeepsFlags(m, builtins[..|builtins| - 1], id);
    }
  }

  lemma {:induction false} ViewLength(t: seq<Rule>)
    ensures |RulesView(t)| == |t|
  {
    if t != [] {
      ViewLength(t[1..]);
    }
  }

  /** Both default records are there. */
  predicate HasSeedRecords(t: StaticTable) {
    StaticKey("router.test.", "A") in Keys(t) && StaticKey("dashboard.test.", "A") in Keys(t)
  }

  lemma {:induction false} SeededLength(t: StaticTable, k: StaticKey, d: StaticData, now: int)
    ensures |Seeded(t, k, d, now)| == |t| + if k in Keys(t) then 0 else 1
    ensures k in Keys(t) ==> Seeded(t, k, d, now) == t
  {
  }

  lemma {:induction false} SeededTwoStable(t: StaticTable, a: StaticKey, b: StaticKey, d: StaticData, e: StaticData,
                                           now: int)
    ensures var u := Seeded(Seeded(t, a, d, now), b, e, now);
            (a in Keys(t) && b in Keys(t) ==> u == t) && (|u| == |t| ==> a in Keys(t) && b in Keys(t))
  {
    var once := Seeded(t, a, d, now);
    SeededLength(t, a, d, now);
    SeededLength(once, b, e, now);
    hide Seeded, Keys;
  }

  /** Seeding leaves the listing of the static records as it is exactly if both default records are there. */
  lemma {:induction false} SeededStaticsIff(t: StaticTable, now: int)
    ensures StaticsView(SeededStatics(t, now)) == StaticsView(t) <==> HasSeedRecords(t)
  {
    SeededTwoStable(t, StaticKey("router.test.", "A"), StaticKey("dashboard.test.", "A"),
                    StaticData("192.168.1.1", 60), StaticData("127.0.0.1", 60), now);
    hide Seeded, Keys, StaticsView;
  }

  lemma {:induction false} UpsertNewGrows(t: RuleTable, k: RuleKey, d: RuleData, init: RuleMeta)
    requires k !in Keys(t)
    ensures |Upsert(t, k, d, init)| == |t| + 1
  {
  }

  /** Seeding changes neither the rules nor their view exactly if there is a rule like the default one. */
  lemma {:induction false} SeededRuleIff(t: RuleTable, now: int)
    ensures RulesView(SeededRule(t, now)) == RulesView(t) <==> HasTestRule(t)
  {
    ViewLength(t);
    ViewLength(SeededRule(t, now));
    hide RulesView, Upsert, Keys;
    if !HasTestRule(t) {
      assert TEST_RULE !in Keys(t);
      UpsertNewGrows(t, TEST_RULE, RuleData(true, "Default test block rule"), FreshRule(now));
    }
  }

  // ---------------------------------------------------------------- one call

  predicate IsRead(c: Call) {
    c.ListRules? || c.ListStatics? || c.MatchRule? || c.MatchBlocklist?
  }

  /** A read, by a query that works. */
  function Answer(db: Database, c: Call): Reply
    requires IsRead(c)
  {
    match c
    case ListRules(_) => RuleList(RulesView(db.rules))
    case ListStatics(_) => StaticList(StaticsView(db.statics))
    case MatchRule(qname, now, _) => RuleMatch(FirstApplying(RulesView(db.rules), NormalizeName(qname), now))
    case MatchBlocklist(qname, _) => EntryMatch(LongestListed(EntryMap(db.entries), NormalizeName(qname)))
  }

  /** The row read back after a write, if the read works. */
  function RuleReply(t: RuleTable, i: nat, readOk: bool): Reply {
    if !readOk then Failed(DatabaseError) else if i < |t| then RuleSaved(t[i]) else Failed(NoRows)
  }

  function SourceReply(t: SourceTable, i: nat, readOk: bool): Reply {
    if !readOk then Failed(DatabaseError) else if i < |t| then SourceSaved(t[i]) else Failed(NoRows)
  }

  function PlainInsertRule(db: Database, k: RuleKey, note: string, now: int, writeOk: bool, readOk: bool):
    (Database, Reply)
  {
    if !writeOk then (db, Failed(DatabaseError)) else
      var rules := AddRuleTo(db.rules, k, note, now);
      (db.(rules := rules), RuleReply(rules, Find(rules, k), readOk))
  }

  function PlainAddRule(db: Database, target: string, action: string, note: string, now: int, writeOk: bool,
                        readOk: bool): (Database, Reply)
  {
    match RuleArgs(target, action)
    case Err(e) => (db, Failed(e))
    case Ok(k) => PlainInsertRule(db, k, note, now, writeOk, readOk)
  }

  function PlainEnableRule(db: Database, id: int, enabled: bool, ok: bool, readOk: bool): (Database, Reply) {
    if !ok then (db, Failed(DatabaseError))
    else if FindId(db.rules, id) == |db.rules| then (db, Failed(NoRows)) else
      var rules := EnableRule(db.rules, id, enabled);
      (db.(rules := rules), RuleReply(rules, FindId(rules, id), readOk))
  }

  function PlainWriteStatic(db: Database, c: Change<StaticKey, StaticData>, now: int, ok: bool): (Database, Reply) {
    if !ok then (db, Failed(DatabaseError)) else (db.(statics := Upsert(db.statics, c.key, c.data, now)), Done)
  }

  function PlainUpsertStatic(db: Database, name: string, rtype: string, value: string, ttl: int, now: int, ok: bool):
    (Database, Reply)
  {
    match StaticChange(Row(0, StaticKey(name, rtype), StaticData(value, ttl), now))
    case None => (db, Failed(FieldsRequired))
    case Some(c) => PlainWriteStatic(db, c, now, ok)
  }

  function PlainReplaceEntries(db: Database, source: SourceRef, sourceName: string, domains: seq<string>, now: int,
                               ok: bool): (Database, Reply)
  {
    if !ok then (db, Failed(DatabaseError))
    else (db.(entries := ReplacedEntries(db.entries, source, sourceName, domains, now)), Done)
  }

  function PlainAddSource(db: Database, name: string, url: string, format: string, reachable: bool, now: int,
                          ok: bool, readOk: bool): (Database, Reply)
  {
    match AddSourceProblem(url, format, reachable)
    case Some(e) => (db, Failed(e))
    case None =>
      if !ok then (db, Failed(DatabaseError)) else
        var sources := AddSourceTo(db.sources, name, url, format, now);
        (db.(sources := sources), SourceReply(sources, Find(sources, TrimSpace(url)), readOk))
  }

  function PlainEnableSource(db: Database, id: int, enabled: bool, ok: bool, readOk: bool): (Database, Reply) {
    if !ok then (db, Failed(DatabaseError))
    else if FindId(db.sources, id) == |db.sources| then (db, Failed(NoRows)) else
      var sources := EnableSource(db.sources, id, enabled);
      (db.(sources := sources), SourceReply(sources, FindId(sources, id), readOk))
  }

  // ---------------------------------------------------------------- refreshes

  /** The name of a source that is there and enabled. */
  function EnabledName(db: Database, source: SourceRef): Option<string> {
    match source
    case PresetSource(id) =>
      if id in db.presets && db.presets[id].enabled then Some(db.presets[id].name) else None
    case CustomSource(id) =>
      var i := FindId(db.sources, id);
      if i < |db.sources| && db.sources[i].data.enabled then Some(db.sources[i].data.name) else None
  }

  datatype FetchSource = FetchSource(source: SourceRef, name: string, url: string)

  /** Where a source that is there is fetched from. */
  function FetchURL(db: Database, source: SourceRef): string {
    match source
    case PresetSource(id) => if id in db.presets then db.presets[id].sourceURL else ""
    case CustomSource(id) =>
      var i := FindId(db.sources, id);
      if i < |db.sources| then db.sources[i].key else ""
  }

  /** The enabled ones of the sources, in this order. */
  function EnabledSources(db: Database, order: seq<SourceRef>): seq<FetchSource> {
    if order == [] then [] else
      var n := |order| - 1;
      var name := EnabledName(db, order[n]);
      EnabledSources(db, order[..n]) + if name.Some? then [FetchSource(order[n], name.value, FetchURL(db, order[n]))] else []
  }

  /** UPDATE of a custom source's status, whatever came of it. */
  function Recorded(t: SourceTable, source: SourceRef, status: string, now: int, ok: bool): SourceTable
  {
    if source.PresetSource? || !ok then t else
      var i := FindId(t, source.rowId);
      if i < |t| then t[i := t[i].(meta := t[i].meta.(lastStatus := status, lastChecked := Some(now)))] else t
  }

  function StatusOf(f: Fetch): string {
    match f
    case NotFetched(status, _) => status
    case Parsed(_, txOk, _) => if txOk then "ok" else "store failed"
  }

  function RefreshOne(db: Database, s: FetchSource, f: Fetch, now: int): Database {
    var entries := if f.Parsed? && f.txOk then ReplacedEntries(db.entries, s.source, s.name, f.domains, now) else db.entries;
    db.(entries := entries, sources := Recorded(db.sources, s.source, StatusOf(f), now, f.recorded))
  }

  function RefreshAll(db: Database, list: seq<FetchSource>, fetch: SourceRef -> Fetch, now: int): Database {
    if list == [] then db else
      var s := list[|list| - 1];
      RefreshOne(RefreshAll(db, list[..|list| - 1], fetch, now), s, fetch(s.source), now)
  }

  /** The result of a source: its domains are counted only when they were stored. */
  function ResultOf(s: FetchSource, f: Fetch): RefreshResult {
    RefreshResult(s.name, s.url, StatusOf(f), if f.Parsed? && f.txOk then |set d | d in f.domains| else 0)
  }

  function ResultsOf(list: seq<FetchSource>, fetch: SourceRef -> Fetch): seq<RefreshResult> {
    seq(|list|, i requires 0 <= i < |list| => ResultOf(list[i], fetch(list[i].source)))
  }

  /** The sources are listed once, and then refreshed one after the other. */
  function PlainRefresh(db: Database, order: seq<SourceRef>, listOk: bool, fetch: SourceRef -> Fetch, now: int): (Database, Reply) {
    if !listOk then (db, Failed(DatabaseError)) else
      var list := EnabledSources(db, order);
      (RefreshAll(db, list, fetch, now), Refreshed(ResultsOf(list, fetch)))
  }

  ghost function PlainApplySync(db: Database, p: Payload, now: int, ok: bool, parse: URLParser): (Database, Reply) {
    if !ok then (db, Failed(DatabaseError)) else
      match Synced(db, p, now, parse)
      case Ok(after) => (after, Done)
      case Err(e) => (db, Failed(e))
  }

  /** The database after a call, and the reply a store without caches gives. */
  ghost function Plain(db: Database, c: Call, parse: URLParser): (Database, Reply) {
    match c
    case ListRules(ok) => (db, if ok then Answer(db, c) else Failed(DatabaseError))
    case ListStatics(ok) => (db, if ok then Answer(db, c) else Failed(DatabaseError))
    case MatchRule(_, _, ok) => (db, if ok then Answer(db, c) else Failed(DatabaseError))
    case MatchBlocklist(_, ok) => (db, if ok then Answer(db, c) else Failed(DatabaseError))
    case AddRule(target, action, note, now, writeOk, readOk) => PlainAddRule(db, target, action, note, now, writeOk, readOk)
    case SetRuleEnabled(id, enabled, ok, readOk) => PlainEnableRule(db, id, enabled, ok, readOk)
    case RecordRuleHit(id, now, ok) => (if ok then db.(rules := CountHit(db.rules, id, now)) else db, Done)
    case UpsertStaticRecord(name, rtype, value, ttl, now, ok) => PlainUpsertStatic(db, name, rtype, value, ttl, now, ok)
    case RefreshBlocklists(order, listOk, fetch, now) => PlainRefresh(db, order, listOk, fetch, now)
    case AddSource(name, url, format, reachable, now, ok, readOk) => PlainAddSource(db, name, url, format, reachable, now, ok, readOk)
    case SetSourceEnabled(id, enabled, ok, readOk) => PlainEnableSource(db, id, enabled, ok, readOk)
    case ApplySync(payload, now, ok) => PlainApplySync(db, payload, now, ok, parse)
  }

  /** The database after a run of calls. */
  ghost function PlainRun(db: Database, cs: seq<Call>, parse: URLParser): Database {
    if cs == [] then db else Plain(PlainRun(db, cs[..|cs| - 1], parse), cs[|cs| - 1], parse).0
  }

  // ---------------------------------------------------------------- what every call keeps

  lemma {:induction false} AddEntryKeepsValid(t: EntryTable, k: EntryKey, sourceName: string, now: int)
    requires Valid(t)
    ensures Valid(AddEntry(t, k, sourceName, now)) && Keys(AddEntry(t, k, sourceName, now)) == Keys(t) + {k}
  {
    if k !in Keys(t) {
      UpsertKeepsValid(t, k, sourceName, now);
    }
  }

  /** The keys a refresh writes. */
  ghost function ListedKeys(source: SourceRef, domains: seq<string>): set<EntryKey> {
    set i | 0 <= i < |domains| :: EntryKey(domains[i], source)
  }

  lemma {:induction false} ListedKeysSnoc(source: SourceRef, domains: seq<string>)
    requires domains != []
    ensures ListedKeys(source, domains) == ListedKeys(source, domains[..|domains| - 1]) + {EntryKey(domains[|domains| - 1], source)}
  {
    var n := |domains| - 1;
    assert forall i :: 0 <= i < n ==> domains[..n][i] == domains[i];
  }

  lemma {:induction false} AddEntriesKeepsValid(t: EntryTable, source: SourceRef, sourceName: string,
                                                domains: seq<string>, now: int)
    requires Valid(t)
    ensures Valid(AddEntries(t, source, sourceName, domains, now))
    ensures Keys(AddEntries(t, source, sourceName, domains, now)) == Keys(t) + ListedKeys(source, domains)
  {
    if domains != [] {
      var n := |domains| - 1;
      AddEntriesKeepsValid(t, source, sourceName, domains[..n], now);
      AddEntryKeepsValid(AddEntries(t, source, sourceName, domains[..n], now), EntryKey(domains[n], source), sourceName, now);
      ListedKeysSnoc(source, domains);
      hide AddEntry, ListedKeys, Valid, Keys;
    } else {
      assert ListedKeys(source, domains) == {};
    }
  }

  /** A refresh lists exactly the given domains for its source, and leaves every other source's entries. */
  lemma {:induction false} ReplacedKeys(t: EntryTable, source: SourceRef, sourceName: string, domains: seq<string>,
                                        now: int)
    requires Valid(t)
    ensures Valid(ReplacedEntries(t, source, sourceName, domains, now))
    ensures Keys(ReplacedEntries(t, source, sourceName, domains, now)) == (Keys(t) - EntriesOf(t, source)) + ListedKeys(source, domains)
  {
    DropKeepsValid(t, EntriesOf(t, source));
    AddEntriesKeepsValid(Drop(t, EntriesOf(t, source)), source, sourceName, domains, now);
  }

  lemma {:induction false} InPlaceKeepsValid<K, D, M>(t: Table<K, D, M>, u: Table<K, D, M>)
    requires Valid(t) && |u| == |t| && forall i :: 0 <= i < |t| ==> u[i].id == t[i].id && u[i].key == t[i].key
    ensures Valid(u) && Keys(u) == Keys(t)
  {
  }

  ghost predicate Sound(db: Database) {
    ValidDatabase(db) && OwnRules(db.rules)
  }

  lemma {:induction false} AddRuleKeepsSound(db: Database, k: RuleKey, note: string, now: int)
    requires Sound(db) && OwnKey(k)
    ensures Sound(db.(rules := AddRuleTo(db.rules, k, note, now)))
  {
    var held := Data(db.rules, k);
    UpsertKeepsValid(db.rules, k, RuleData(true, if note == "" && held.Some? then held.value.note else note), FreshRule(now));
  }

  lemma {:induction false} EnableRuleKeepsSound(db: Database, id: int, enabled: bool, ok: bool, readOk: bool)
    requires Sound(db)
    ensures Sound(PlainEnableRule(db, id, enabled, ok, readOk).0)
  {
    InPlaceKeepsValid(db.rules, EnableRule(db.rules, id, enabled));
  }

  lemma {:induction false} CountHitKeepsSound(db: Database, id: int, now: int)
    requires Sound(db)
    ensures Sound(db.(rules := CountHit(db.rules, id, now)))
  {
    InPlaceKeepsValid(db.rules, CountHit(db.rules, id, now));
  }

  lemma {:induction false} ReplaceEntriesKeepsSound(db: Database, source: SourceRef, sourceName: string,
                                                    domains: seq<string>, now: int, ok: bool)
    requires Sound(db)
    ensures Sound(PlainReplaceEntries(db, source, sourceName, domains, now, ok).0)
  {
    ReplacedKeys(db.entries, source, sourceName, domains, now);
  }

  lemma {:induction false} RecordKeepsSound(db: Database, source: SourceRef, status: string, now: int, ok: bool)
    requires Sound(db)
    ensures Sound(db.(sources := Recorded(db.sources, source, status, now, ok)))
  {
    InPlaceKeepsValid(db.sources, Recorded(db.sources, source, status, now, ok));
  }

  lemma {:induction false} RefreshOneKeepsSound(db: Database, s: FetchSource, f: Fetch, now: int)
    requires Sound(db)
    ensures Sound(RefreshOne(db, s, f, now))
  {
    hide Sound, Recorded, ReplacedEntries, StatusOf;
    var replaced := db.(entries := if f.Parsed? && f.txOk then ReplacedEntries(db.entries, s.source, s.name, f.domains, now) else db.entries);
    if f.Parsed? && f.txOk {
      ReplaceEntriesKeepsSound(db, s.source, s.name, f.domains, now, true);
    }
    assert Sound(replaced);
    RecordKeepsSound(replaced, s.source, StatusOf(f), now, f.recorded);
  }

  lemma {:induction false} RefreshAllKeepsSound(db: Database, list: seq<FetchSource>, fetch: SourceRef -> Fetch,
                                                now: int)
    requires Sound(db)
    ensures Sound(RefreshAll(db, list, fetch, now))
  {
    hide Sound, RefreshOne;
    if list != [] {
      var n := |list| - 1;
      RefreshAllKeepsSound(db, list[..n], fetch, now);
      RefreshOneKeepsSound(RefreshAll(db, list[..n], fetch, now), list[n], fetch(list[n].source), now);
    }
  }

  lemma {:induction false} AddSourceKeepsSound(db: Database, name: string, url: string, format: string,
                                               reachable: bool, now: int, ok: bool, readOk: bool)
    requires Sound(db)
    ensures Sound(PlainAddSource(db, name, url, format, reachable, now, ok, readOk).0)
  {
    var u, n := TrimSpace(url), TrimSpace(name);
    UpsertKeepsValid(db.sources, u, SourceData(if n == "" then u else n, FormatOf(format), true), FreshSource(now));
  }

  lemma {:induction false} EnableSourceKeepsSound(db: Database, id: int, enabled: bool, ok: bool, readOk: bool)
    requires Sound(db)
    ensures Sound(PlainEnableSource(db, id, enabled, ok, readOk).0)
  {
    InPlaceKeepsValid(db.sources, EnableSource(db.sources, id, enabled));
  }

  lemma {:induction false} SyncKeepsSound(db: Database, p: Payload, now: int, parse: URLParser)
    requires Sound(db) && !Rejected(p.sources, parse)
    ensures Sound(Synced(db, p, now, parse).value)
  {
    RuleSyncIsExact(db.rules, p.rules, now);
    StaticSyncIsExact(db.statics, p.statics, now);
    ReplaceKeepsValid(db.sources, SourceChanges(p.sources), FreshSource(now));
    var up := UpsertAll(db.sources, SourceChanges(p.sources), FreshSource(now));
    DropKeepsValid(db.entries, OrphanedEntries(db.entries, up, ChangedKeys(SourceChanges(p.sources))));
  }

  lemma {:induction false} AddRuleCall(db: Database, target: string, action: string, note: string, now: int,
                                       writeOk: bool, readOk: bool)
    requires Sound(db)
    ensures Sound(PlainAddRule(db, target, action, note, now, writeOk, readOk).0)
  {
    if RuleArgs(target, action).Ok? {
      var k := RuleArgs(target, action).value;
      assert OwnKey(k);
      hide RuleArgs, AddRuleTo, Sound;
      AddRuleKeepsSound(db, k, note, now);
    }
  }

  lemma {:induction false} UpsertStaticCall(db: Database, name: string, rtype: string, value: string, ttl: int,
                                            now: int, ok: bool)
    requires Sound(db)
    ensures Sound(PlainUpsertStatic(db, name, rtype, value, ttl, now, ok).0)
  {
    var c := StaticChange(Row(0, StaticKey(name, rtype), StaticData(value, ttl), now));
    hide StaticChange;
    if c.Some? {
      UpsertKeepsValid(db.statics, c.value.key, c.value.data, now);
    }
  }

  lemma {:induction false} ApplySyncCall(db: Database, p: Payload, now: int, ok: bool, parse: URLParser)
    requires Sound(db)
    ensures Sound(PlainApplySync(db, p, now, ok, parse).0)
  {
    hide Synced, Sound;
    if Synced(db, p, now, parse).Ok? {
      SyncKeepsSound(db, p, now, parse);
    }
  }

  lemma {:induction false} RefreshCall(db: Database, order: seq<SourceRef>, listOk: bool, fetch: SourceRef -> Fetch,
                                       now: int)
    requires Sound(db)
    ensures Sound(PlainRefresh(db, order, listOk, fetch, now).0)
  {
    hide Sound, EnabledSources, RefreshAll;
    RefreshAllKeepsSound(db, EnabledSources(db, order), fetch, now);
  }

  lemma {:induction false} CallKeepsSound(db: Database, c: Call, parse: URLParser)
    requires Sound(db)
    ensures Sound(Plain(db, c, parse).0)
  {
    hide Sound, Answer, CountHit, PlainAddRule, PlainEnableRule, PlainUpsertStatic;
    hide PlainRefresh, PlainAddSource, PlainEnableSource, PlainApplySync;
    match c {
      case AddRule(target, action, note, now, writeOk, readOk) => AddRuleCall(db, target, action, note, now, writeOk, readOk);
      case SetRuleEnabled(id, enabled, ok, readOk) => EnableRuleKeepsSound(db, id, enabled, ok, readOk);
      case RecordRuleHit(id, now, ok) => CountHitKeepsSound(db, id, now);
      case UpsertStaticRecord(name, rtype, value, ttl, now, ok) => UpsertStaticCall(db, name, rtype, value, ttl, now, ok);
      case RefreshBlocklists(order, listOk, fetch, now) => RefreshCall(db, order, listOk, fetch, now);
      case AddSource(name, url, format, reachable, now, ok, readOk) =>
        AddSourceKeepsSound(db, name, url, format, reachable, now, ok, readOk);
      case SetSourceEnabled(id, enabled, ok, readOk) => EnableSourceKeepsSound(db, id, enabled, ok, readOk);
      case ApplySync(p, now, ok) => ApplySyncCall(db, p, now, ok, parse);
      case _ =>
    }
  }
}
