/** The Store with its three caches, and the proof that no sequence of calls can tell them from the database. */
module Stores {
  import opened Text
  import opened Names
  import opened Tables
  import opened Policy
  import opened HASync
  import opened SyncTheorems
  import opened SyncTransactions
  import opened Calls

  class Store {
    const parse: URLParser
    var db: Database
    var rulesCache: seq<Rule>
    var rulesLoaded: bool
    var staticCache: seq<StaticRecord>
    var staticLoaded: bool
    var blocklistCache: map<string, Entry>
    var blocklistLoaded: bool

    /** A loaded cache holds what a query would return now. */
    ghost predicate Valid()
      reads this
    {
      && Sound(db)
      && (rulesLoaded ==> rulesCache == RulesView(db.rules))
      && (staticLoaded ==> staticCache == StaticsView(db.statics))
      && (blocklistLoaded ==> blocklistCache == EntryMap(db.entries))
    }

    /** Open: the tables a file holds, and nothing loaded. */
    constructor (db: Database, parse: URLParser)
      requires Sound(db)
      ensures Valid() && this.db == db && this.parse == parse
      ensures !rulesLoaded && !staticLoaded && !blocklistLoaded
    {
      this.db, this.parse := db, parse;
      rulesLoaded, staticLoaded, blocklistLoaded := false, false, false;
      rulesCache, staticCache, blocklistCache := [], [], map[];
    }

    method InvalidateRuleCache()
      modifies this`rulesCache, this`rulesLoaded
      ensures !rulesLoaded
    {
      rulesLoaded := false;
      rulesCache := [];
    }

    method InvalidateStaticCache()
      modifies this`staticCache, this`staticLoaded
      ensures !staticLoaded
    {
      staticLoaded := false;
      staticCache := [];
    }

    method InvalidateBlocklistCache()
      modifies this`blocklistCache, this`blocklistLoaded
      ensures !blocklistLoaded
    {
      blocklistLoaded := false;
      blocklistCache := map[];
    }

    // ---------------------------------------------------------------- reads

    method Rules(queryOk: bool) returns (r: Result<seq<Rule>, Problem>)
      requires Valid()
      modifies this`rulesCache, this`rulesLoaded
      ensures Valid()
      ensures r == if old(rulesLoaded) || queryOk then Ok(RulesView(db.rules)) else Err(DatabaseError)
      ensures rulesLoaded == r.Ok?
    {
      if rulesLoaded {
        return Ok(rulesCache);
      }
      if !queryOk {
        return Err(DatabaseError);
      }
      var rules := RulesView(db.rules);
      rulesCache := rules;
      rulesLoaded := true;
      r := Ok(rules);
    }

    method StaticRecords(queryOk: bool) returns (r: Result<seq<StaticRecord>, Problem>)
      requires Valid()
      modifies this`staticCache, this`staticLoaded
      ensures Valid()
      ensures r == if old(staticLoaded) || queryOk then Ok(StaticsView(db.statics)) else Err(DatabaseError)
      ensures staticLoaded == r.Ok?
    {
      if staticLoaded {
        return Ok(staticCache);
      }
      if !queryOk {
        return Err(DatabaseError);
      }
      var records := StaticsView(db.statics);
      staticCache := records;
      staticLoaded := true;
      r := Ok(records);
    }

    method BlocklistEntries(queryOk: bool) returns (r: Result<map<string, Entry>, Problem>)
      requires Valid()
      modifies this`blocklistCache, this`blocklistLoaded
      ensures Valid()
      ensures r == if old(blocklistLoaded) || queryOk then Ok(EntryMap(db.entries)) else Err(DatabaseError)
      ensures blocklistLoaded == r.Ok?
    {
      if blocklistLoaded {
        return Ok(blocklistCache);
      }
      if !queryOk {
        return Err(DatabaseError);
      }
      var cache := ReadEntries(db.entries);
      blocklistCache := cache;
      blocklistLoaded := true;
      r := Ok(cache);
    }

    static method ReadEntries(rows: seq<Entry>) returns (cache: map<string, Entry>)
      ensures cache == EntryMap(rows)
    {
      cache := map[];
      for i := 0 to |rows|
        invariant cache == EntryMap(rows[..i])
      {
        EntryMapStep(rows, i);
        hide EntryMap;
        cache := cache[rows[i].key.domain := rows[i]];
      }
      assert rows[..|rows|] == rows;
    }

    method MatchRule(qname: string, now: int, queryOk: bool) returns (r: Result<Option<Rule>, Problem>)
      requires Valid()
      modifies this`rulesCache, this`rulesLoaded
      ensures Valid()
      ensures r == if old(rulesLoaded) || queryOk then Ok(FirstApplying(RulesView(db.rules), NormalizeName(qname), now))
                   else Err(DatabaseError)
      ensures rulesLoaded == r.Ok?
    {
      var name := NormalizeName(qname);
      var list := Rules(queryOk);
      if list.Err? {
        return Err(list.error);
      }
      var found := Scan(list.value, name, now);
      r := Ok(found);
    }

    /** The loop over the rules, in the order they were read. */
    static method Scan(rules: seq<Rule>, name: string, now: int) returns (r: Option<Rule>)
      ensures r == FirstApplying(rules, name, now)
    {
      for i := 0 to |rules|
        invariant FirstApplying(rules[i..], name, now) == FirstApplying(rules, name, now)
      {
        var rule := rules[i];
        FirstApplyingStep(rules, i, name, now);
        hide FirstApplying;
        if !rule.data.enabled {
          continue;
        }
        if rule.meta.expiresAt.Some? && now > rule.meta.expiresAt.value {
          continue;
        }
        if name == rule.key.target || HasSuffix(name, "." + rule.key.target) {
          return Some(rule);
        }
      }
      r := None;
    }

    method MatchBlocklist(qname: string, queryOk: bool) returns (r: Result<Option<Entry>, Problem>)
      requires Valid()
      modifies this`blocklistCache, this`blocklistLoaded
      ensures Valid()
      ensures r == if old(blocklistLoaded) || queryOk then Ok(LongestListed(EntryMap(db.entries), NormalizeName(qname)))
                   else Err(DatabaseError)
      ensures blocklistLoaded == r.Ok?
    {
      var name := NormalizeName(qname);
      var entries := BlocklistEntries(queryOk);
      if entries.Err? {
        return Err(entries.error);
      }
      var found := Walk(entries.value, name);
      r := Ok(found);
    }

    /** for candidate := qname; candidate != ""; candidate = parentDomain(candidate) */
    static method Walk(cache: map<string, Entry>, name: string) returns (r: Option<Entry>)
      requires Dotted(name)
      ensures r == LongestListed(cache, name)
    {
      var candidate := name;
      while candidate != ""
        invariant Dotted(candidate)
        invariant LongestListed(cache, candidate) == LongestListed(cache, name)
        decreases |candidate|
      {
        if candidate in cache {
          return Some(cache[candidate]);
        }
        ParentIsShorter(candidate);
        candidate := ParentDomain(candidate);
      }
      r := None;
    }

    // ---------------------------------------------------------------- rules and static records

    method AddRule(target: string, action: string, note: string, now: int, writeOk: bool, readOk: bool)
      returns (r: Reply)
      requires Valid()
      modifies this
      ensures Valid()
      ensures (db, r) == PlainAddRule(old(db), target, action, note, now, writeOk, readOk)
    {
      var args := RuleArgs(target, action);
      if args.Err? {
        return Failed(args.error);
      }
      r := InsertRule(args.value, note, now, writeOk, readOk);
    }

    method InsertRule(k: RuleKey, note: string, now: int, writeOk: bool, readOk: bool) returns (r: Reply)
      requires Valid() && OwnKey(k)
      modifies this
      ensures Valid()
      ensures (db, r) == PlainInsertRule(old(db), k, note, now, writeOk, readOk)
    {
      AddRuleKeepsSound(db, k, note, now);
      if !writeOk {
        return Failed(DatabaseError);
      }
      db := db.(rules := AddRuleTo(db.rules, k, note, now));
      InvalidateRuleCache();
      r := RuleReply(db.rules, Find(db.rules, k), readOk);
    }

    method SetRuleEnabled(id: int, enabled: bool, writeOk: bool, readOk: bool) returns (r: Reply)
      requires Valid()
      modifies this
      ensures Valid()
      ensures (db, r) == PlainEnableRule(old(db), id, enabled, writeOk, readOk)
    {
      hide Sound, RulesView, EntryMap, EnableRule, RuleReply;
      EnableRuleKeepsSound(db, id, enabled, writeOk, readOk);
      if !writeOk {
        return Failed(DatabaseError);
      }
      if FindId(db.rules, id) == |db.rules| {
        return Failed(NoRows);
      }
      db := db.(rules := EnableRule(db.rules, id, enabled));
      InvalidateRuleCache();
      r := RuleReply(db.rules, FindId(db.rules, id), readOk);
    }

    method RecordRuleHit(id: int, now: int, writeOk: bool)
      requires Valid()
      modifies this`db, this`rulesCache, this`rulesLoaded
      ensures Valid()
      ensures db == if writeOk then old(db).(rules := CountHit(old(db).rules, id, now)) else old(db)
    {
      CountHitKeepsSound(db, id, now);
      hide CountHit, Sound, RulesView, EntryMap;
      if !writeOk {
        return;
      }
      db := db.(rules := CountHit(db.rules, id, now));
      InvalidateRuleCache();
    }

    method UpsertStaticRecord(name: string, rtype: string, value: string, ttl: int, now: int, writeOk: bool)
      returns (r: Reply)
      requires Valid()
      modifies this
      ensures Valid()
      ensures (db, r) == PlainUpsertStatic(old(db), name, rtype, value, ttl, now, writeOk)
    {
      var args := StaticChange(Row(0, StaticKey(name, rtype), StaticData(value, ttl), now));
      if args.None? {
        return Failed(FieldsRequired);
      }
      r := WriteStatic(args.value, now, writeOk);
    }

    method WriteStatic(c: Change<StaticKey, StaticData>, now: int, writeOk: bool) returns (r: Reply)
      requires Valid()
      modifies this
      ensures Valid()
      ensures (db, r) == PlainWriteStatic(old(db), c, now, writeOk)
    {
      UpsertKeepsValid(db.statics, c.key, c.data, now);
      if !writeOk {
        return Failed(DatabaseError);
      }
      db := db.(statics := Upsert(db.statics, c.key, c.data, now));
      InvalidateStaticCache();
      r := Done;
    }

    /**
     Writes without dropping a cache, up to the first statement that fails: the caches stay true exactly if each loaded
     one is of a table that was not reached or already held the defaults.
     */
    method SeedDefaults(now: int, builtins: seq<Preset>, works: nat) returns (ok: bool)
      requires Valid()
      modifies this`db
      ensures ok <==> works >= |builtins| + 2
      ensures db == SeededPartly(old(db), now, builtins, works)
      ensures Valid() <==>
              && (staticLoaded && works >= 1 ==> HasSeedRecords(old(db).statics))
              && (rulesLoaded && works >= 2 ==> HasTestRule(old(db).rules))
    {
      hide SeededStatics, SeededRule, SeededPresets, HasSeedRecords, HasTestRule, RulesView, StaticsView, EntryMap;
      hide Sound;
      SeedKeepsSound(db, now, builtins, works);
      SeededStaticsIff(db.statics, now);
      SeededRuleIff(db.rules, now);
      NoPresetsSeeded(db.presets);
      if works == 0 {
        return false;
      }
      db := db.(statics := SeededStatics(db.statics, now));
      if works == 1 {
        return false;
      }
      db := db.(rules := SeededRule(db.rules, now));
      for i := 0 to |builtins|
        invariant i <= works - 2
        invariant db == SeededPartly(old(db), now, builtins, i + 2)
      {
        if works == i + 2 {
          return false;
        }
        NextPreset(db.presets, old(db).presets, builtins, i);
        db := db.(presets := SeededPreset(db.presets, builtins[i]));
      }
      ok := true;
    }

    // ---------------------------------------------------------------- blocklists

    method ReplaceBlocklistEntries(source: SourceRef, sourceName: string, domains: seq<string>, now: int, txOk: bool)
      returns (r: Reply)
      requires Valid()
      modifies this
      ensures Valid()
      ensures (db, r) == PlainReplaceEntries(old(db), source, sourceName, domains, now, txOk)
    {
      hide AddEntry, Drop, EntriesOf, RulesView, StaticsView, EntryMap, Sound;
      ReplaceEntriesKeepsSound(db, source, sourceName, domains, now, txOk);
      if !txOk {
        return Failed(DatabaseError);
      }
      var kept := Drop(db.entries, EntriesOf(db.entries, source));
      var entries := kept;
      for i := 0 to |domains|
        invariant entries == AddEntries(kept, source, sourceName, domains[..i], now)
      {
        assert domains[..i + 1][..i] == domains[..i];
        entries := AddEntry(entries, EntryKey(domains[i], source), sourceName, now);
      }
      assert domains[..|domains|] == domains;
      db := db.(entries := entries);
      InvalidateBlocklistCache();
      r := Done;
    }

    method AddBlocklistSource(name: string, url: string, format: string, reachable: bool, now: int, writeOk: bool,
                              readOk: bool) returns (r: Reply)
      requires Valid()
      modifies this`db
      ensures Valid()
      ensures (db, r) == PlainAddSource(old(db), name, url, format, reachable, now, writeOk, readOk)
    {
      hide Sound, RulesView, EntryMap, AddSourceTo, AddSourceProblem, TrimSpace, SourceReply;
      AddSourceKeepsSound(db, name, url, format, reachable, now, writeOk, readOk);
      var problem := AddSourceProblem(url, format, reachable);
      if problem.Some? {
        return Failed(problem.value);
      }
      if !writeOk {
        return Failed(DatabaseError);
      }
      db := db.(sources := AddSourceTo(db.sources, name, url, format, now));
      r := SourceReply(db.sources, Find(db.sources, TrimSpace(url)), readOk);
    }

    method SetBlocklistSourceEnabled(id: int, enabled: bool, writeOk: bool, readOk: bool) returns (r: Reply)
      requires Valid()
      modifies this`db
      ensures Valid()
      ensures (db, r) == PlainEnableSource(old(db), id, enabled, writeOk, readOk)
    {
      hide Sound, RulesView, EntryMap, EnableSource, SourceReply;
      EnableSourceKeepsSound(db, id, enabled, writeOk, readOk);
      if !writeOk {
        return Failed(DatabaseError);
      }
      if FindId(db.sources, id) == |db.sources| {
        return Failed(NoRows);
      }
      db := db.(sources := EnableSource(db.sources, id, enabled));
      r := SourceReply(db.sources, FindId(db.sources, id), readOk);
    }

    /** One listed source: its entries are replaced or not, and its status is recorded either way. */
    method RefreshBlocklistSource(s: FetchSource, f: Fetch, now: int) returns (r: RefreshResult)
      requires Valid()
      modifies this
      ensures Valid()
      ensures db == RefreshOne(old(db), s, f, now) && r == ResultOf(s, f)
      ensures r.name == s.name && r.url == s.url
      ensures f.NotFetched? ==> r.status == f.status && r.entries == 0 && db.entries == old(db).entries
      ensures f.Parsed? && f.txOk ==> r.status == "ok" && r.entries == |set d | d in f.domains|
      ensures f.Parsed? && !f.txOk ==> r.status == "store failed" && r.entries == 0 && db.entries == old(db).entries
    {
      hide Sound, RulesView, EntryMap, ReplacedEntries, Recorded;
      var status, entries := "", 0;
      if f.NotFetched? {
        status := f.status;
      } else {
        var stored := ReplaceBlocklistEntries(s.source, s.name, f.domains, now, f.txOk);
        if stored == Done {
          status, entries := "ok", |set d | d in f.domains|;
        } else {
          status := "store failed";
        }
      }
      RecordKeepsSound(db, s.source, status, now, f.recorded);
      db := db.(sources := Recorded(db.sources, s.source, status, now, f.recorded));
      r := RefreshResult(s.name, s.url, status, entries);
    }

    /** RefreshBlocklists: the enabled sources are listed once, `order` being the order of the two listing queries. */
    method RefreshBlocklists(order: seq<SourceRef>, listOk: bool, fetch: SourceRef -> Fetch, now: int)
      returns (r: Reply)
      requires Valid()
      modifies this
      ensures Valid()
      ensures (db, r) == PlainRefresh(old(db), order, listOk, fetch, now)
    {
      hide Sound, RefreshOne, EnabledName, FetchURL, ResultOf;
      if !listOk {
        return Failed(DatabaseError);
      }
      var list := [];
      for i := 0 to |order|
        invariant list == EnabledSources(db, order[..i])
        invariant Valid() && db == old(db)
      {
        assert order[..i + 1][..i] == order[..i];
        assert list + [] == list;
        var name := EnabledName(db, order[i]);
        if name.Some? {
          list := list + [FetchSource(order[i], name.value, FetchURL(db, order[i]))];
        }
      }
      assert order[..|order|] == order;
      var results := [];
      for i := 0 to |list|
        invariant Valid() && db == RefreshAll(old(db), list[..i], fetch, now)
        invariant results == ResultsOf(list[..i], fetch)
      {
        assert list[..i + 1][..i] == list[..i];
        var result := RefreshBlocklistSource(list[i], fetch(list[i].source), now);
        results := results + [result];
      }
      assert list[..|list|] == list;
      r := Refreshed(results);
    }

    // ---------------------------------------------------------------- policy sync

    /** `presets` and `sources` are the rows the two listing queries return, in their order. */
    method ExportHASyncPayload(presets: seq<Preset>, sources: seq<BlocklistSource>, staticsOk: bool, rulesOk: bool,
                               listsOk: bool) returns (r: Result<Payload, Problem>)
      requires Valid()
      requires forall x :: x in presets <==> x.id in db.presets && db.presets[x.id] == x
      requires forall x :: x in sources <==> x in db.sources
      modifies this`rulesCache, this`rulesLoaded, this`staticCache, this`staticLoaded
      ensures Valid()
      ensures r.Ok? <==> (old(staticLoaded) || staticsOk) && (old(rulesLoaded) || rulesOk) && listsOk
      ensures r.Ok? ==> IsExport(r.value, db)
    {
      hide Sound, RulesView, EntryMap, StaticsView, IsExport;
      ListsAreExport(presets, sources, db);
      var statics := StaticRecords(staticsOk);
      if statics.Err? {
        return Err(statics.error);
      }
      var rules := Rules(rulesOk);
      if rules.Err? {
        return Err(rules.error);
      }
      if !listsOk {
        return Err(DatabaseError);
      }
      r := Ok(Payload(statics.value, rules.value, presets, sources, RetentionDays(db.retention)));
    }

    method ApplyHASyncPayload(payload: Payload, now: int, txOk: bool) returns (r: Reply)
      requires Valid()
      modifies this
      ensures Valid()
      ensures (db, r) == PlainApplySync(old(db), payload, now, txOk, parse)
    {
      if !txOk {
        return Failed(DatabaseError);
      }
      var tx := SyncTransaction(db, payload, now, parse);
      if tx.Err? {
        return Failed(tx.error);
      }
      SyncKeepsSound(db, payload, now, parse);
      Commit(tx.value);
      r := Done;
    }

    /** The transaction's rows become the database, and every cache is dropped. */
    method Commit(after: Database)
      requires Sound(after)
      modifies this
      ensures Valid() && db == after
    {
      db := after;
      InvalidateStaticCache();
      InvalidateRuleCache();
      InvalidateBlocklistCache();
    }

    // ---------------------------------------------------------------- any call

    method DoRead(c: Call) returns (r: Reply)
      requires Valid() && IsRead(c)
      modifies this`rulesCache, this`rulesLoaded, this`staticCache, this`staticLoaded, this`blocklistCache, this`blocklistLoaded
      ensures Valid()
      ensures r == Answer(db, c) || r == Plain(db, c, parse).1
    {
      match c {
        case ListRules(ok) =>
          var list := Rules(ok);
          r := if list.Ok? then RuleList(list.value) else Failed(list.error);
        case ListStatics(ok) =>
          var list := StaticRecords(ok);
          r := if list.Ok? then StaticList(list.value) else Failed(list.error);
        case MatchRule(qname, now, ok) =>
          var m := MatchRule(qname, now, ok);
          r := if m.Ok? then RuleMatch(m.value) else Failed(m.error);
        case MatchBlocklist(qname, ok) =>
          var m := MatchBlocklist(qname, ok);
          r := if m.Ok? then EntryMatch(m.value) else Failed(m.error);
      }
    }

    method DoWrite(c: Call) returns (r: Reply)
      requires Valid() && !IsRead(c)
      modifies this
      ensures Valid()
      ensures (db, r) == Plain(old(db), c, parse)
    {
      hide PlainAddRule, PlainUpsertStatic, PlainAddSource, PlainApplySync;
      hide PlainEnableRule, PlainEnableSource, PlainRefresh, CountHit;
      match c {
        case AddRule(target, action, note, now, writeOk, readOk) => r := AddRule(target, action, note, now, writeOk, readOk);
        case SetRuleEnabled(id, enabled, ok, readOk) => r := SetRuleEnabled(id, enabled, ok, readOk);
        case RecordRuleHit(id, now, ok) =>
          RecordRuleHit(id, now, ok);
          r := Done;
        case UpsertStaticRecord(name, rtype, value, ttl, now, ok) => r := UpsertStaticRecord(name, rtype, value, ttl, now, ok);
        case RefreshBlocklists(order, listOk, fetch, now) => r := RefreshBlocklists(order, listOk, fetch, now);
        case AddSource(name, url, format, reachable, now, ok, readOk) =>
          r := AddBlocklistSource(name, url, format, reachable, now, ok, readOk);
        case SetSourceEnabled(id, enabled, ok, readOk) => r := SetBlocklistSourceEnabled(id, enabled, ok, readOk);
        case ApplySync(payload, now, ok) => r := ApplyHASyncPayload(payload, now, ok);
      }
    }

    method Do(c: Call) returns (r: Reply)
      requires Valid()
      modifies this
      ensures Valid()
      ensures db == Plain(old(db), c, parse).0
      ensures Faithful(r, old(db), c, parse)
    {
      if IsRead(c) {
        ReadsChangeNothing(db, c, parse);
        r := DoRead(c);
      } else {
        r := DoWrite(c);
      }
    }
  }

  lemma {:induction false} ListsAreExport(presets: seq<Preset>, sources: seq<BlocklistSource>, db: Database)
    requires forall x :: x in presets <==> x.id in db.presets && db.presets[x.id] == x
    requires forall x :: x in sources <==> x in db.sources
    ensures IsExport(Payload(StaticsView(db.statics), RulesView(db.rules), presets, sources, RetentionDays(db.retention)), db)
  {
    hide StaticsView, RulesView, RetentionDays;
  }

  /** How the program starts: the file is opened and the defaults are written before anything is read; it stops if one fails. */
  method Open(db: Database, parse: URLParser, now: int, builtins: seq<Preset>, works: nat) returns (s: Store?)
    requires Sound(db)
    ensures s != null <==> works >= |builtins| + 2
    ensures s != null ==> fresh(s) && s.Valid() && s.parse == parse && s.db == SeededDatabase(db, now, builtins)
  {
    hide SeededDatabase, SeededPartly, HasSeedRecords, HasTestRule, Sound;
    SeedKeepsSound(db, now, builtins, works);
    s := new Store(db, parse);
    var ok := s.SeedDefaults(now, builtins, works);
    if !ok {
      return null;
    }
  }

  /** Seeding a file without the defaults after a read of it leaves that read's cache stale. */
  method SeedTooLate(db: Database, parse: URLParser, now: int, builtins: seq<Preset>) returns (s: Store)
    requires Sound(db) && (!HasSeedRecords(db.statics) || !HasTestRule(db.rules))
    ensures fresh(s) && s.db == SeededDatabase(db, now, builtins) && !s.Valid()
    ensures !HasSeedRecords(db.statics) ==> s.staticLoaded && s.staticCache != StaticsView(s.db.statics)
    ensures !HasTestRule(db.rules) ==> s.rulesLoaded && s.rulesCache != RulesView(s.db.rules)
  {
    hide *;
    SeedingShows(db, now, builtins);
    s := new Store(db, parse);
    var records := s.StaticRecords(true);
    var rules := s.Rules(true);
    CachesHold(s);
    var _ := s.SeedDefaults(now, builtins, |builtins| + 2);
  }

  lemma {:induction false} SeedingShows(db: Database, now: int, builtins: seq<Preset>)
    requires Sound(db)
    ensures SeededPartly(db, now, builtins, |builtins| + 2) == SeededDatabase(db, now, builtins)
    ensures !HasSeedRecords(db.statics) ==> StaticsView(SeededDatabase(db, now, builtins).statics) != StaticsView(db.statics)
    ensures !HasTestRule(db.rules) ==> RulesView(SeededDatabase(db, now, builtins).rules) != RulesView(db.rules)
  {
    SeededStaticsIff(db.statics, now);
    SeededRuleIff(db.rules, now);
    SeedKeepsSound(db, now, builtins, |builtins| + 2);
    hide SeededStatics, SeededRule, SeededPresets, HasSeedRecords, HasTestRule, RulesView, StaticsView, Sound;
    hide SeededPartly;
  }

  lemma {:induction false} CachesHold(s: Store)
    requires s.Valid()
    ensures s.rulesLoaded ==> s.rulesCache == RulesView(s.db.rules)
    ensures s.staticLoaded ==> s.staticCache == StaticsView(s.db.statics)
  {
    hide Sound, RulesView, StaticsView, EntryMap;
  }

  lemma {:induction false} ReadsChangeNothing(db: Database, c: Call, parse: URLParser)
    requires IsRead(c)
    ensures Plain(db, c, parse).0 == db
  {
  }

  /** The reply of a store without caches, or the true answer where that store's query would have failed. */
  ghost predicate Faithful(r: Reply, db: Database, c: Call, parse: URLParser) {
    r == Plain(db, c, parse).1 || (IsRead(c) && r == Answer(db, c))
  }

  /**
   Any sequence of calls on a store leaves the database that the calls leave without caches, and each reply is
   what the database held at that call: no caller can observe a stale cache.
   */
  method Run(s: Store, calls: seq<Call>) returns (replies: seq<Reply>)
    requires s.Valid()
    modifies s
    ensures s.Valid() && s.db == PlainRun(old(s.db), calls, s.parse)
    ensures |replies| == |calls|
    ensures forall i :: 0 <= i < |calls| ==> Faithful(replies[i], PlainRun(old(s.db), calls[..i], s.parse), calls[i], s.parse)
  {
    hide Plain, Faithful;
    replies := [];
    for i := 0 to |calls|
      invariant s.Valid() && s.db == PlainRun(old(s.db), calls[..i], s.parse)
      invariant |replies| == i
      invariant forall j :: 0 <= j < i ==> Faithful(replies[j], PlainRun(old(s.db), calls[..j], s.parse), calls[j], s.parse)
    {
      assert calls[..i + 1][..i] == calls[..i];
      var r := s.Do(calls[i]);
      replies := replies + [r];
    }
    assert calls[..|calls|] == calls;
  }
}
