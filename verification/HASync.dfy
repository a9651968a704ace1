/** What one node sends as its policy, and what applying it makes of another node's tables. */
module HASync {
  import opened Text
  import opened Names
  import opened Tables
  import opened Policy

  datatype Payload = Payload(
    statics: seq<StaticRecord>,
    rules: seq<Rule>,
    presets: seq<Preset>,
    sources: seq<BlocklistSource>,
    retentionDays: int)

  /** The part of a parsed URL the import looks at. */
  datatype URL = URL(scheme: string, hostname: string)
  type URLParser = string -> Option<URL>

  // ---------------------------------------------------------------- one row

  function StaticTTL(ttl: int): int {
    if ttl <= 0 then 60 else ttl
  }

  /** The row a static record asks for, or none when a column is blank. */
  function StaticChange(r: StaticRecord): Option<Change<StaticKey, StaticData>> {
    var name := NormalizeName(r.key.name);
    var rtype := ToUpper(TrimSpace(r.key.rtype));
    var value := TrimSpace(r.data.value);
    if name == "" || rtype == "" || value == "" then None
    else Some(Change(StaticKey(name, rtype), StaticData(value, StaticTTL(r.data.ttl))))
  }

  const GLOBAL := "global"

  function RuleChange(r: Rule): Option<Change<RuleKey, RuleData>> {
    var target := NormalizeName(r.key.target);
    var action := ToLower(TrimSpace(r.key.action));
    if target == "" || (action != "block" && action != "allow") then None
    else Some(Change(RuleKey(GLOBAL, target, action), RuleData(r.data.enabled, r.data.note)))
  }

  function FormatOf(format: string): string {
    var f := ToLower(TrimSpace(format));
    if f == "" then "domains" else f
  }

  predicate ValidSource(s: BlocklistSource, parse: URLParser) {
    var u := parse(TrimSpace(s.key));
    && u.Some? && u.value.scheme != "" && u.value.hostname != ""
    && (u.value.scheme == "http" || u.value.scheme == "https")
    && FormatOf(s.data.format) in ["domains", "hosts", "adguard"]
  }

  function SourceChange(s: BlocklistSource): Option<Change<string, SourceData>> {
    var url := TrimSpace(s.key);
    if url == "" then None else Some(Change(url, SourceData(s.data.name, FormatOf(s.data.format), s.data.enabled)))
  }

  // ---------------------------------------------------------------- whole tables

  function StaticChanges(rs: seq<StaticRecord>): seq<Change<StaticKey, StaticData>> {
    Collect(rs, StaticChange)
  }

  function RuleChanges(rs: seq<Rule>): seq<Change<RuleKey, RuleData>> {
    Collect(rs, RuleChange)
  }

  function SourceChanges(rs: seq<BlocklistSource>): seq<Change<string, SourceData>> {
    Collect(rs, SourceChange)
  }

  /** Some imported source has a URL or a format the import refuses. */
  ghost predicate Rejected(sources: seq<BlocklistSource>, parse: URLParser) {
    exists i :: 0 <= i < |sources| && TrimSpace(sources[i].key) != "" && !ValidSource(sources[i], parse)
  }

  /** A source with a URL is refused exactly if the URL is not an http one with a host, or the format is none of the three. */
  lemma {:induction false} SourceRefusedIff(s: BlocklistSource, parse: URLParser)
    ensures Rejected([s], parse) <==>
            var k, f := TrimSpace(s.key), ToLower(TrimSpace(s.data.format));
            && k != ""
            && (|| parse(k).None? || parse(k).value.hostname == ""
                || parse(k).value.scheme !in {"http", "https"} || f !in {"", "domains", "hosts", "adguard"})
  {
    hide TrimSpace, ToLower;
    assert ValidSource(s, parse) <==> !(var k, f := TrimSpace(s.key), ToLower(TrimSpace(s.data.format));
                                        || parse(k).None? || parse(k).value.hostname == ""
                                        || parse(k).value.scheme !in {"http", "https"} || f !in {"", "domains", "hosts", "adguard"});
    hide ValidSource;
    assert [s][0] == s;
  }

  /** The set of kept static rows is a set of joined texts, not of pairs. */
  function KeepText(k: StaticKey): string {
    k.name + "\0" + k.rtype
  }

  function RuleKeepText(k: RuleKey): string {
    k.scope + "\0" + k.target + "\0" + k.action
  }

  ghost function KeepTexts(cs: seq<Change<StaticKey, StaticData>>): set<string> {
    set k | k in ChangedKeys(cs) :: KeepText(k)
  }

  ghost function RuleKeepTexts(cs: seq<Change<RuleKey, RuleData>>): set<string> {
    set k | k in ChangedKeys(cs) :: RuleKeepText(k)
  }

  ghost function SyncedStatics(t: StaticTable, rs: seq<StaticRecord>, now: int): StaticTable
  {
    var cs := StaticChanges(rs);
    var u := UpsertAll(t, cs, now);
    Drop(u, set k | k in Keys(u) && KeepText(k) !in KeepTexts(cs))
  }

  function FreshRule(now: int): RuleMeta {
    RuleMeta(None, 0, None, now)
  }

  ghost function SyncedRules(t: RuleTable, rs: seq<Rule>, now: int): RuleTable
  {
    var cs := RuleChanges(rs);
    var u := UpsertAll(t, cs, FreshRule(now));
    Drop(u, set k | k in Keys(u) && RuleKeepText(k) !in RuleKeepTexts(cs))
  }

  function SyncPreset(m: map<string, Preset>, p: Preset): map<string, Preset> {
    if TrimSpace(p.id) == "" then m
    else if p.id in m then m[p.id := m[p.id].(enabled := p.enabled)]
    else m[p.id := p]
  }

  function SyncedPresets(m: map<string, Preset>, ps: seq<Preset>): map<string, Preset> {
    if ps == [] then m else SyncPreset(SyncedPresets(m, ps[..|ps| - 1]), ps[|ps| - 1])
  }

  function FreshSource(now: int): SourceMeta {
    SourceMeta("not checked", None, now)
  }

  ghost function SyncedSources(t: SourceTable, rs: seq<BlocklistSource>, now: int): SourceTable
  {
    Replace(t, SourceChanges(rs), FreshSource(now))
  }

  /** The row with this id has a URL that is not kept. */
  ghost predicate Unkept(sources: seq<BlocklistSource>, keep: set<string>, id: int) {
    exists i :: 0 <= i < |sources| && sources[i].id == id && sources[i].key !in keep
  }

  /** The custom entries whose source row the sync deletes. */
  ghost function OrphanedEntries(entries: EntryTable, sources: SourceTable, keep: set<string>): set<EntryKey>
  {
    set k | k in Keys(entries) && k.source.CustomSource? && Unkept(sources, keep, k.source.rowId)
  }

  /** The whole transaction; a refused source rolls all of it back. */
  ghost function Synced(db: Database, p: Payload, now: int, parse: URLParser): (r: Result<Database, Problem>)
    ensures r.Ok? <==> !Rejected(p.sources, parse)
  {
    if Rejected(p.sources, parse) then Err(SourceRefused) else
      var keep := ChangedKeys(SourceChanges(p.sources));
      var upserted := UpsertAll(db.sources, SourceChanges(p.sources), FreshSource(now));
      Ok(Database(
           SyncedRules(db.rules, p.rules, now),
           SyncedStatics(db.statics, p.statics, now),
           SyncedPresets(db.presets, p.presets),
           SyncedSources(db.sources, p.sources, now),
           Drop(db.entries, OrphanedEntries(db.entries, upserted, keep)),
           if p.retentionDays > 0 then Some(p.retentionDays) else db.retention))
  }
}
