/** What each call writes and answers, column by column. */
module CallEffects {
  import opened Text
  import opened Names
  import opened Tables
  import opened Policy
  import opened HASync
  import opened Calls
  import opened SourceLifecycle

  // ---------------------------------------------------------------- rules

  /** The rule is enabled; it gets the note, or keeps the one it had when none is given. A new one starts without hits. */
  ghost predicate RuleIsAdded(t: RuleTable, u: RuleTable, k: RuleKey, note: string, now: int) {
    && (k !in Keys(t) ==> u == t + [Row(NextId(t), k, RuleData(true, note), RuleMeta(None, 0, None, now))])
    && (forall i :: 0 <= i < |t| && t[i].key == k ==>
          u == t[i := Row(t[i].id, k, RuleData(true, if note == "" then t[i].data.note else note), t[i].meta)])
  }

  /** The answer to a write that worked: the row as it is now, or the failure of reading it. */
  ghost predicate AnswersRule(reply: Reply, t: RuleTable, k: RuleKey, readOk: bool) {
    if readOk then reply.RuleSaved? && reply.saved in t && reply.saved.key == k else reply == Failed(DatabaseError)
  }

  ghost predicate Refuses(before: Database, after: (Database, Reply), why: Problem) {
    after == (before, Failed(why))
  }

  lemma {:induction false} AddRuleIs(db: Database, target: string, action: string, note: string, now: int,
                                     writeOk: bool, readOk: bool)
    requires Sound(db)
    ensures var name, verb := NormalizeName(target), ToLower(TrimSpace(action));
            var after := PlainAddRule(db, target, action, note, now, writeOk, readOk);
            if name == "" then Refuses(db, after, TargetRequired)
            else if verb != "block" && verb != "allow" then Refuses(db, after, BadAction)
            else if !writeOk then Refuses(db, after, DatabaseError)
            else
              && after.0 == db.(rules := after.0.rules)
              && RuleIsAdded(db.rules, after.0.rules, RuleKey("global", name, verb), note, now)
              && AnswersRule(after.1, after.0.rules, RuleKey("global", name, verb), readOk)
  {
    var k := RuleKey("global", NormalizeName(target), ToLower(TrimSpace(action)));
    hide RuleArgs, AddRuleTo, NormalizeName, TrimSpace, ToLower, Find, Keys;
    RuleChecks(target, action);
    AddRuleSets(db.rules, k, note, now);
    AddedIsThere(db.rules, k, note, now);
  }

  lemma {:induction false} RuleChecks(target: string, action: string)
    ensures var name, verb := NormalizeName(target), ToLower(TrimSpace(action));
            RuleArgs(target, action) ==
            if name == "" then Err(TargetRequired)
            else if verb != "block" && verb != "allow" then Err(BadAction)
            else Ok(RuleKey("global", name, verb))
  {
    hide NormalizeName, TrimSpace, ToLower;
  }

  lemma {:induction false} AddedIsThere(t: RuleTable, k: RuleKey, note: string, now: int)
    ensures k in Keys(AddRuleTo(t, k, note, now))
  {
    var u := AddRuleTo(t, k, note, now);
    assert Find(t, k) < |u| && u[Find(t, k)].key == k;
  }

  /** The flag is written to the rule with that id, and to no other; without one the call fails. */
  lemma {:induction false} SetRuleEnabledIs(db: Database, id: int, enabled: bool, writeOk: bool, readOk: bool)
    requires Sound(db)
    ensures var after := PlainEnableRule(db, id, enabled, writeOk, readOk);
            if !writeOk then Refuses(db, after, DatabaseError)
            else if forall r :: r in db.rules ==> r.id != id then Refuses(db, after, NoRows)
            else
              && after.0 == db.(rules := after.0.rules) && |after.0.rules| == |db.rules|
              && (forall i :: 0 <= i < |db.rules| ==>
                    var r := db.rules[i];
                    after.0.rules[i] == if r.id == id then Row(id, r.key, RuleData(enabled, r.data.note), r.meta) else r)
              && (if readOk then after.1.RuleSaved? && after.1.saved in after.0.rules && after.1.saved.id == id
                  else after.1 == Failed(DatabaseError))
  {
    var t := db.rules;
    forall i | 0 <= i < |t|
      ensures |EnableRule(t, id, enabled)| == |t|
      ensures EnableRule(t, id, enabled)[i] == if t[i].id == id then Row(id, t[i].key, RuleData(enabled, t[i].data.note), t[i].meta) else t[i]
    {
      EnableRuleSets(t, id, enabled, i);
    }
  }

  /** One more hit, at this time, for the rule with that id; a failed write changes nothing and is not reported. */
  lemma {:induction false} RecordRuleHitIs(db: Database, id: int, now: int, writeOk: bool, parse: URLParser)
    requires Sound(db)
    ensures var after := Plain(db, Call.RecordRuleHit(id, now, writeOk), parse);
            && after == (db.(rules := after.0.rules), Done)
            && |after.0.rules| == |db.rules|
            && forall i :: 0 <= i < |db.rules| ==>
                 var r := db.rules[i];
                 after.0.rules[i] ==
                 if writeOk && r.id == id then Row(id, r.key, r.data, RuleMeta(r.meta.expiresAt, r.meta.hitCount + 1, Some(now), r.meta.createdAt))
                 else r
  {
    if writeOk {
      forall i | 0 <= i < |db.rules|
        ensures |CountHit(db.rules, id, now)| == |db.rules|
        ensures var r := db.rules[i];
                CountHit(db.rules, id, now)[i] ==
                if r.id == id then Row(id, r.key, r.data, RuleMeta(r.meta.expiresAt, r.meta.hitCount + 1, Some(now), r.meta.createdAt)) else r
      {
        CountHitSets(db.rules, id, now, i);
      }
      hide CountHit;
      assert db.rules == [] ==> |CountHit(db.rules, id, now)| == |db.rules| by { NoHits(id, now); }
    }
  }

  lemma {:induction false} NoHits(id: int, now: int)
    ensures CountHit([], id, now) == []
  {
  }

  // ---------------------------------------------------------------- static records

  lemma {:induction false} UpsertStaticRecordIs(db: Database, name: string, rtype: string, value: string, ttl: int,
                                                now: int, ok: bool)
    requires Sound(db)
    ensures var k, v := StaticKey(NormalizeName(name), ToUpper(TrimSpace(rtype))), TrimSpace(value);
            var after := PlainUpsertStatic(db, name, rtype, value, ttl, now, ok);
            if k.name == "" || k.rtype == "" || v == "" then Refuses(db, after, FieldsRequired)
            else if !ok then Refuses(db, after, DatabaseError)
            else
              var t, u, d := db.statics, after.0.statics, StaticData(v, if ttl > 0 then ttl else 60);
              && after == (db.(statics := u), Done)
              && (k !in Keys(t) ==> u == t + [Row(NextId(t), k, d, now)])
              && (forall i :: 0 <= i < |t| && t[i].key == k ==> u == t[i := Row(t[i].id, k, d, t[i].meta)])
  {
    var t, k := db.statics, StaticKey(NormalizeName(name), ToUpper(TrimSpace(rtype)));
    forall i | 0 <= i < |t| && t[i].key == k
      ensures Find(t, k) == i && k in Keys(t)
    {
      FindIn(t, i);
    }
    hide NormalizeName, TrimSpace, ToUpper, Keys;
  }

  // ---------------------------------------------------------------- custom sources

  ghost predicate SourceIsAdded(t: SourceTable, u: SourceTable, url: string, d: SourceData, now: int) {
    && (url !in Keys(t) ==> u == t + [Row(NextId(t), url, d, SourceMeta("not checked", None, now))])
    && (forall i :: 0 <= i < |t| && t[i].key == url ==> u == t[i := Row(t[i].id, url, d, t[i].meta)])
  }

  lemma {:induction false} SourceChecks(url: string, format: string, reachable: bool)
    ensures var u, f := TrimSpace(url), ToLower(TrimSpace(format));
            && FormatOf(format) == (if f == "" then "domains" else f)
            && AddSourceProblem(url, format, reachable) ==
               if u == "" then Some(URLRequired)
               else if !("https://" <= u) && !("http://" <= u) then Some(BadScheme)
               else if !reachable then Some(NotPublic)
               else if f != "" && f != "domains" && f != "hosts" && f != "adguard" then Some(BadFormat)
               else None
  {
    hide TrimSpace, ToLower;
  }

  /** The checks in their order; `reachable` says whether the URL's host has only public addresses. */
  lemma {:induction false} AddSourceIs(db: Database, name: string, url: string, format: string, reachable: bool,
                                       now: int, ok: bool, readOk: bool)
    requires Sound(db)
    ensures var u, f := TrimSpace(url), ToLower(TrimSpace(format));
            var n := if TrimSpace(name) == "" then u else TrimSpace(name);
            var after := PlainAddSource(db, name, url, format, reachable, now, ok, readOk);
            if u == "" then Refuses(db, after, URLRequired)
            else if !("https://" <= u) && !("http://" <= u) then Refuses(db, after, BadScheme)
            else if !reachable then Refuses(db, after, NotPublic)
            else if f != "" && f != "domains" && f != "hosts" && f != "adguard" then Refuses(db, after, BadFormat)
            else if !ok then Refuses(db, after, DatabaseError)
            else
              && after.0 == db.(sources := after.0.sources)
              && SourceIsAdded(db.sources, after.0.sources, u, SourceData(n, if f == "" then "domains" else f, true), now)
              && (if readOk then after.1.SourceSaved? && after.1.source in after.0.sources && after.1.source.key == u
                  else after.1 == Failed(DatabaseError))
  {
    SourceChecks(url, format, reachable);
    AddSourceSets(db.sources, name, url, format, now);
    AddedSourceIsThere(db.sources, name, url, format, now);
    hide AddSourceProblem, AddSourceTo, FormatOf, TrimSpace, ToLower, Valid, Keys, Find;
  }

  lemma {:induction false} AddedSourceIsThere(t: SourceTable, name: string, url: string, format: string, now: int)
    ensures TrimSpace(url) in Keys(AddSourceTo(t, name, url, format, now))
  {
    var u := AddSourceTo(t, name, url, format, now);
    hide TrimSpace, FormatOf;
    var k := TrimSpace(url);
    assert Find(t, k) < |u| && u[Find(t, k)].key == k;
  }

  lemma {:induction false} SetSourceEnabledIs(db: Database, id: int, enabled: bool, writeOk: bool, readOk: bool)
    requires Sound(db)
    ensures var after := PlainEnableSource(db, id, enabled, writeOk, readOk);
            if !writeOk then Refuses(db, after, DatabaseError)
            else if forall r :: r in db.sources ==> r.id != id then Refuses(db, after, NoRows)
            else
              && after.0 == db.(sources := after.0.sources) && |after.0.sources| == |db.sources|
              && (forall i :: 0 <= i < |db.sources| ==>
                    var r := db.sources[i];
                    after.0.sources[i] == if r.id == id then Row(id, r.key, SourceData(r.data.name, r.data.format, enabled), r.meta) else r)
              && (if readOk then after.1.SourceSaved? && after.1.source in after.0.sources && after.1.source.id == id
                  else after.1 == Failed(DatabaseError))
  {
    var t := db.sources;
    forall i | 0 <= i < |t|
      ensures |EnableSource(t, id, enabled)| == |t|
      ensures EnableSource(t, id, enabled)[i] ==
              if t[i].id == id then Row(id, t[i].key, SourceData(t[i].data.name, t[i].data.format, enabled), t[i].meta) else t[i]
    {
      EnableSourceSets(t, id, enabled, i);
    }
  }

  // ---------------------------------------------------------------- imported rows

  /** The import asks for the rules AddRule would take, with the flag and note they come with; the others it passes over. */
  lemma {:induction false} ImportedRuleIs(r: Rule)
    ensures var args := RuleArgs(r.key.target, r.key.action);
            RuleChange(r) == if args.Ok? then Some(Change(args.value, r.data)) else None
  {
    hide NormalizeName, TrimSpace, ToLower;
  }

  lemma {:induction false} ImportedSourceIs(s: BlocklistSource)
    ensures var u, f := TrimSpace(s.key), ToLower(TrimSpace(s.data.format));
            SourceChange(s) ==
            if u == "" then None else Some(Change(u, SourceData(s.data.name, if f == "" then "domains" else f, s.data.enabled)))
  {
    hide TrimSpace, ToLower;
  }

  // ---------------------------------------------------------------- defaults

  /** Seeding adds the two records where their keys are new, and changes no row. */
  lemma {:induction false} SeededStaticsAre(t: StaticTable, now: int)
    requires Valid(t)
    ensures var u, r, d := SeededStatics(t, now), StaticKey("router.test.", "A"), StaticKey("dashboard.test.", "A");
            && t <= u && Keys(u) == Keys(t) + {r, d}
            && Data(u, r) == (if r in Keys(t) then Data(t, r) else Some(StaticData("192.168.1.1", 60)))
            && Data(u, d) == (if d in Keys(t) then Data(t, d) else Some(StaticData("127.0.0.1", 60)))
  {
    var r, d := StaticKey("router.test.", "A"), StaticKey("dashboard.test.", "A");
    assert |r.name| != |d.name|;
    SeedTwo(t, r, StaticData("192.168.1.1", 60), d, StaticData("127.0.0.1", 60), now);
    hide Seeded, Keys, Data;
  }

  lemma {:induction false} SeedTwo(t: StaticTable, r: StaticKey, x: StaticData, d: StaticKey, y: StaticData, now: int)
    requires Valid(t) && r != d
    ensures var u := Seeded(Seeded(t, r, x, now), d, y, now);
            && t <= u && Keys(u) == Keys(t) + {r, d}
            && Data(u, r) == (if r in Keys(t) then Data(t, r) else Some(x))
            && Data(u, d) == (if d in Keys(t) then Data(t, d) else Some(y))
  {
    hide Seeded, Keys, Data, Valid;
    SeedOne(t, r, x, now, r);
    SeedOne(t, r, x, now, d);
    SeedOne(Seeded(t, r, x, now), d, y, now, r);
    SeedOne(Seeded(t, r, x, now), d, y, now, d);
  }

  lemma {:induction false} SeedOne(t: StaticTable, k: StaticKey, d: StaticData, now: int, x: StaticKey)
    requires Valid(t)
    ensures var u := Seeded(t, k, d, now);
            && Valid(u) && t <= u && Keys(u) == Keys(t) + {k}
            && Data(u, x) == if x == k && k !in Keys(t) then Some(d) else Data(t, x)
  {
    UpsertKeepsValid(t, k, d, now);
    UpsertData(t, k, d, now, x);
    hide Data, Valid;
  }

  /** And the rule, where no rule of its target and action is there. */
  lemma {:induction false} SeededRuleIs(t: RuleTable, now: int)
    ensures var k, u := RuleKey("global", "blocked.test.", "block"), SeededRule(t, now);
            if exists x :: x in Keys(t) && x.target == "blocked.test." && x.action == "block" then u == t
            else u == t + [Row(NextId(t), k, RuleData(true, "Default test block rule"), RuleMeta(None, 0, None, now))]
  {
    hide Keys;
  }

  /** A built-in preset ends with its own texts and the flag it had, off when it is new; the others stay as they are. */
  lemma {:induction false} SeededPresetsAre(m: map<string, Preset>, builtins: seq<Preset>, id: string)
    requires forall i, j :: 0 <= i < j < |builtins| ==> builtins[i].id != builtins[j].id
    ensures (forall i :: 0 <= i < |builtins| ==> builtins[i].id != id) ==>
              (id in SeededPresets(m, builtins) <==> id in m) && (id in m ==> SeededPresets(m, builtins)[id] == m[id])
    ensures forall p :: p in builtins && p.id == id ==>
              id in SeededPresets(m, builtins)
              && SeededPresets(m, builtins)[id] ==
                 Preset(id, p.name, p.tier, p.description, p.homeURL, p.sourceURL, id in m && m[id].enabled)
  {
    if builtins != [] {
      var n := |builtins| - 1;
      var p, before := builtins[n], SeededPresets(m, builtins[..n]);
      SeededPresetsAre(m, builtins[..n], p.id);
      SeededPresetsAre(m, builtins[..n], id);
      SeededLast(m, builtins);
      hide SeededPresets;
      assert builtins == builtins[..n] + [p];
    }
  }

  lemma {:induction false} SeededLast(m: map<string, Preset>, builtins: seq<Preset>)
    requires builtins != []
    ensures var p, before := builtins[|builtins| - 1], SeededPresets(m, builtins[..|builtins| - 1]);
            SeededPresets(m, builtins) ==
            before[p.id := Preset(p.id, p.name, p.tier, p.description, p.homeURL, p.sourceURL, p.id in before && before[p.id].enabled)]
  {
  }

  // ---------------------------------------------------------------- refreshes

  /** The source is there and switched on. */
  ghost predicate IsEnabled(db: Database, source: SourceRef) {
    match source
    case PresetSource(id) => id in db.presets && db.presets[id].enabled
    case CustomSource(id) => exists r :: r in db.sources && r.id == id && r.data.enabled
  }

  lemma {:induction false} EnabledIff(db: Database, source: SourceRef)
    requires Sound(db)
    ensures EnabledName(db, source).Some? <==> IsEnabled(db, source)
  {
    if source.CustomSource? {
      if r :| r in db.sources && r.id == source.rowId && r.data.enabled {
        var i :| 0 <= i < |db.sources| && db.sources[i] == r;
        FindIdIn(db.sources, source.rowId, i);
      }
    }
  }

  /** What a refresh leaves in the entries table: the parsed domains of every enabled source that was stored, and the rest as it was. */
  lemma {:induction false} RefreshedEntriesIff(db: Database, order: seq<SourceRef>, fetch: SourceRef -> Fetch,
                                               now: int, k: EntryKey)
    requires Sound(db) && forall i, j :: 0 <= i < j < |order| ==> order[i] != order[j]
    ensures var after := PlainRefresh(db, order, true, fetch, now).0;
            k in Keys(after.entries) <==>
            if k.source in order && IsEnabled(db, k.source) && fetch(k.source).Parsed? && fetch(k.source).txOk
            then k.domain in fetch(k.source).domains
            else k in Keys(db.entries)
  {
    var after := PlainRefresh(db, order, true, fetch, now).0;
    EnabledIff(db, k.source);
    RefreshIsPerSource(db, order, fetch, now, k.source);
    assert k in Keys(after.entries) <==> k in EntriesOf(after.entries, k.source);
    assert k in Keys(db.entries) <==> k in EntriesOf(db.entries, k.source);
    if fetch(k.source).Parsed? {
      ListedIff(k, fetch(k.source).domains);
    }
    hide Sound, IsEnabled, EnabledName, EntriesOf, ListedKeys, PlainRefresh, Keys;
  }

  lemma {:induction false} ListedIff(k: EntryKey, domains: seq<string>)
    ensures k in ListedKeys(k.source, domains) <==> k.domain in domains
  {
    if k.domain in domains {
      var i :| 0 <= i < |domains| && domains[i] == k.domain;
      assert EntryKey(domains[i], k.source) == k;
    }
  }

  /** The rows of the source are new ones, under its name and with this time; every other source's rows stay as they are. */
  ghost predicate RowsOfRefresh(t: EntryTable, u: EntryTable, source: SourceRef, sourceName: string, now: int) {
    && (forall r :: r in u && r.key.source != source ==> r in t)
    && (forall r :: r in t && r.key.source != source ==> r in u)
    && (forall r :: r in u && r.key.source == source ==> r.data == sourceName && r.meta == now)
  }

  lemma {:induction false} AddEntryRows(t: EntryTable, u: EntryTable, source: SourceRef, d: string,
                                        sourceName: string, now: int)
    requires RowsOfRefresh(t, u, source, sourceName, now)
    ensures RowsOfRefresh(t, AddEntry(u, EntryKey(d, source), sourceName, now), source, sourceName, now)
  {
    var k := EntryKey(d, source);
    if k !in Keys(u) {
      assert AddEntry(u, k, sourceName, now) == u + [Row(NextId(u), k, sourceName, now)];
      hide AddEntry, NextId;
    }
  }

  lemma {:induction false} AddEntriesRows(t: EntryTable, u: EntryTable, source: SourceRef, domains: seq<string>,
                                          sourceName: string, now: int)
    requires RowsOfRefresh(t, u, source, sourceName, now)
    ensures RowsOfRefresh(t, AddEntries(u, source, sourceName, domains, now), source, sourceName, now)
  {
    hide RowsOfRefresh, AddEntry;
    if domains != [] {
      var n := |domains| - 1;
      AddEntriesRows(t, u, source, domains[..n], sourceName, now);
      AddEntryRows(t, AddEntries(u, source, sourceName, domains[..n], now), source, domains[n], sourceName, now);
    }
  }

  lemma {:induction false} ReplacedRows(t: EntryTable, source: SourceRef, sourceName: string, domains: seq<string>,
                                        now: int)
    ensures RowsOfRefresh(t, ReplacedEntries(t, source, sourceName, domains, now), source, sourceName, now)
  {
    var gone := EntriesOf(t, source);
    var left := Drop(t, gone);
    forall r: Entry
      ensures r in left <==> r in t && r.key.source != source
    {
      DropMember(t, gone, r);
      if r in t {
        var i :| 0 <= i < |t| && t[i] == r;
        assert r.key in Keys(t);
      }
    }
    hide Drop, EntriesOf, Keys;
    AddEntriesRows(t, left, source, domains, sourceName, now);
  }

  /** The report has one line for each enabled source, in the order in which they were listed. */
  lemma {:induction false} ReportGrows(db: Database, order: seq<SourceRef>, source: SourceRef,
                                       fetch: SourceRef -> Fetch, now: int)
    requires Sound(db)
    ensures var f := fetch(source);
            var before := PlainRefresh(db, order, true, fetch, now).1;
            var after := PlainRefresh(db, order + [source], true, fetch, now).1;
            && before.Refreshed? && after.Refreshed?
            && (order == [] ==> before.results == [])
            && (!IsEnabled(db, source) ==> after.results == before.results)
            && (IsEnabled(db, source) ==>
                  |after.results| == |before.results| + 1 && before.results <= after.results
                  && IsReportOf(db, source, f, after.results[|before.results|]))
  {
    var all, list := order + [source], EnabledSources(db, order);
    assert all[..|order|] == order;
    EnabledIff(db, source);
    NamesOf(db, source);
    hide Sound, EnabledName, FetchURL, IsEnabled, ResultOf, RefreshAll, IsReportOf;
    var name := EnabledName(db, source);
    assert EnabledSources(db, all) == list + if name.Some? then [FetchSource(source, name.value, FetchURL(db, source))] else [];
    if name.Some? {
      var s := FetchSource(source, name.value, FetchURL(db, source));
      assert ResultsOf(list + [s], fetch) == ResultsOf(list, fetch) + [ResultOf(s, fetch(source))];
      ReportOf(db, source, s, fetch(source));
    } else {
      assert list + [] == list;
    }
  }

  /** Name and URL as the tables have them, the status, and the number of different domains that were stored. */
  ghost predicate IsReportOf(db: Database, source: SourceRef, f: Fetch, r: RefreshResult) {
    && (source.PresetSource? && source.id in db.presets ==>
          r.name == db.presets[source.id].name && r.url == db.presets[source.id].sourceURL)
    && (source.CustomSource? ==> forall s :: s in db.sources && s.id == source.rowId ==> r.name == s.data.name && r.url == s.key)
    && (match f
        case NotFetched(status, _) => r.status == status && r.entries == 0
        case Parsed(domains, true, _) => r.status == "ok" && r.entries == |set d | d in domains|
        case Parsed(_, false, _) => r.status == "store failed" && r.entries == 0)
  }

  lemma {:induction false} NamesOf(db: Database, source: SourceRef)
    requires Sound(db)
    ensures source.PresetSource? && EnabledName(db, source).Some? ==>
              source.id in db.presets && EnabledName(db, source).value == db.presets[source.id].name
              && FetchURL(db, source) == db.presets[source.id].sourceURL
    ensures source.CustomSource? && EnabledName(db, source).Some? ==>
              forall s :: s in db.sources && s.id == source.rowId ==>
                EnabledName(db, source).value == s.data.name && FetchURL(db, source) == s.key
  {
    if source.CustomSource? {
      forall s | s in db.sources && s.id == source.rowId
        ensures FindId(db.sources, source.rowId) < |db.sources| && db.sources[FindId(db.sources, source.rowId)] == s
      {
        var i :| 0 <= i < |db.sources| && db.sources[i] == s;
        FindIdIn(db.sources, source.rowId, i);
      }
    }
  }

  lemma {:induction false} ReportOf(db: Database, source: SourceRef, s: FetchSource, f: Fetch)
    requires Sound(db) && EnabledName(db, source) == Some(s.name) && s.url == FetchURL(db, source)
    ensures IsReportOf(db, source, f, ResultOf(s, f))
  {
    NamesOf(db, source);
    hide Sound, EnabledName, FetchURL;
  }
}
