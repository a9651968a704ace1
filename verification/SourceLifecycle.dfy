/** Which blocklist entries belong to whom, as sources are added, refreshed, switched and deleted by a sync. */
module SourceLifecycle {
  import opened Text
  import opened Names
  import opened Tables
  import opened Policy
  import opened HASync
  import opened SyncTheorems
  import opened Calls
  import opened Stores
  import Resolver

  ghost predicate LiveRow(t: SourceTable, id: int) {
    exists i :: 0 <= i < |t| && t[i].id == id
  }

  ghost predicate Live(db: Database, source: SourceRef) {
    source.CustomSource? ==> LiveRow(db.sources, source.rowId)
  }

  /** Each entry of a custom source names a row of the sources table. */
  ghost predicate NoOrphans(db: Database) {
    forall k :: k in Keys(db.entries) ==> Live(db, k.source)
  }

  // ---------------------------------------------------------------- what each call keeps

  lemma {:induction false} UpsertKeepsRows(t: SourceTable, k: string, d: SourceData, init: SourceMeta, id: int)
    requires LiveRow(t, id)
    ensures LiveRow(Upsert(t, k, d, init), id)
  {
    var i :| 0 <= i < |t| && t[i].id == id;
    assert Upsert(t, k, d, init)[i].id == id;
  }

  lemma {:induction false} UpsertAllKeepsRows(t: SourceTable, cs: seq<Change<string, SourceData>>, init: SourceMeta,
                                              id: int)
    requires LiveRow(t, id)
    ensures LiveRow(UpsertAll(t, cs, init), id)
  {
    if cs != [] {
      hide LiveRow;
      var n := |cs| - 1;
      UpsertAllKeepsRows(t, cs[..n], init, id);
      UpsertKeepsRows(UpsertAll(t, cs[..n], init), cs[n].key, cs[n].data, init, id);
    }
  }

  lemma {:induction false} DropKeepsRow(t: SourceTable, gone: set<string>, i: nat)
    requires i < |t| && t[i].key !in gone
    ensures LiveRow(Drop(t, gone), t[i].id)
  {
    DropMember(t, gone, t[i]);
    var u := Drop(t, gone);
    var j :| 0 <= j < |u| && u[j] == t[i];
  }

  lemma {:induction false} AddedKeepsRows(t: SourceTable, name: string, url: string, format: string, now: int,
                                          id: int)
    requires LiveRow(t, id)
    ensures LiveRow(AddSourceTo(t, name, url, format, now), id)
  {
    hide LiveRow, TrimSpace, FormatOf, FreshSource, Upsert;
    var u, n := TrimSpace(url), TrimSpace(name);
    UpsertKeepsRows(t, u, SourceData(if n == "" then u else n, FormatOf(format), true), FreshSource(now), id);
  }

  lemma {:induction false} AddSourceKeepsOwners(db: Database, c: Call, parse: URLParser)
    requires NoOrphans(db) && c.AddSource?
    ensures NoOrphans(Plain(db, c, parse).0)
  {
    hide LiveRow, AddSourceTo, AddSourceProblem, Keys;
    var after := Plain(db, c, parse).0;
    assert after.entries == db.entries;
    forall k | k in Keys(after.entries)
      ensures Live(after, k.source)
    {
      assert Live(db, k.source);
      if k.source.CustomSource? {
        AddedKeepsRows(db.sources, c.name, c.url, c.format, c.now, k.source.rowId);
      }
    }
  }

  lemma {:induction false} EnableKeepsOwners(db: Database, c: Call, parse: URLParser)
    requires NoOrphans(db) && c.SetSourceEnabled?
    ensures NoOrphans(Plain(db, c, parse).0)
  {
    var after := Plain(db, c, parse).0;
    forall k | k in Keys(after.entries)
      ensures Live(after, k.source)
    {
      if k.source.CustomSource? {
        var i :| 0 <= i < |db.sources| && db.sources[i].id == k.source.rowId;
        assert after.sources[i].id == k.source.rowId;
      }
    }
  }

  /**
   One source's entries replaced: no entry is left without its source exactly if the write was rolled back, wrote
   nothing, or was for a preset or a row still there.
   */
  lemma {:induction false} ReplaceOrphansIff(db: Database, source: SourceRef, sourceName: string,
                                             domains: seq<string>, now: int, ok: bool)
    requires ValidDatabase(db) && NoOrphans(db)
    ensures NoOrphans(PlainReplaceEntries(db, source, sourceName, domains, now, ok).0) <==>
            !ok || domains == [] || Live(db, source)
  {
    hide LiveRow;
    ReplacedKeys(db.entries, source, sourceName, domains, now);
    if domains != [] {
      var k := EntryKey(domains[0], source);
      assert k in ListedKeys(source, domains);
    }
    hide ReplacedEntries, EntriesOf;
  }

  lemma {:induction false} RecordedKeepsRows(t: SourceTable, source: SourceRef, status: string, now: int, ok: bool,
                                             id: int)
    ensures LiveRow(Recorded(t, source, status, now, ok), id) <==> LiveRow(t, id)
  {
    var u := Recorded(t, source, status, now, ok);
    assert |u| == |t| && forall i :: 0 <= i < |t| ==> u[i].id == t[i].id;
    if LiveRow(t, id) {
      var i :| 0 <= i < |t| && t[i].id == id;
      assert u[i].id == id;
    }
  }

  lemma {:induction false} RefreshOneKeepsOwners(db: Database, s: FetchSource, f: Fetch, now: int)
    requires ValidDatabase(db) && NoOrphans(db) && Live(db, s.source)
    ensures NoOrphans(RefreshOne(db, s, f, now))
    ensures forall id :: LiveRow(RefreshOne(db, s, f, now).sources, id) <==> LiveRow(db.sources, id)
  {
    hide LiveRow, Recorded, ReplacedEntries, Keys;
    var after := RefreshOne(db, s, f, now);
    forall id
      ensures LiveRow(after.sources, id) <==> LiveRow(db.sources, id)
    {
      RecordedKeepsRows(db.sources, s.source, StatusOf(f), now, f.recorded, id);
    }
    if f.Parsed? {
      ReplaceOrphansIff(db, s.source, s.name, f.domains, now, f.txOk);
    }
  }

  lemma {:induction false} RefreshAllKeepsOwners(db: Database, list: seq<FetchSource>, fetch: SourceRef -> Fetch,
                                                 now: int)
    requires Sound(db) && NoOrphans(db) && forall i :: 0 <= i < |list| ==> Live(db, list[i].source)
    ensures NoOrphans(RefreshAll(db, list, fetch, now))
    ensures forall id :: LiveRow(RefreshAll(db, list, fetch, now).sources, id) <==> LiveRow(db.sources, id)
  {
    hide LiveRow, NoOrphans, Sound, RefreshOne;
    if list != [] {
      var n := |list| - 1;
      RefreshAllKeepsOwners(db, list[..n], fetch, now);
      RefreshAllKeepsSound(db, list[..n], fetch, now);
      var before := RefreshAll(db, list[..n], fetch, now);
      SoundIsValid(before);
      assert Live(before, list[n].source);
      RefreshOneKeepsOwners(before, list[n], fetch(list[n].source), now);
    }
  }

  lemma {:induction false} EnabledAreLive(db: Database, order: seq<SourceRef>)
    ensures forall i :: 0 <= i < |EnabledSources(db, order)| ==> Live(db, EnabledSources(db, order)[i].source)
  {
    if order != [] {
      EnabledAreLive(db, order[..|order| - 1]);
    }
  }

  /** The sync deletes the entries of every row it deletes. */
  lemma {:induction false} SyncKeepsOwners(db: Database, p: Payload, now: int, parse: URLParser)
    requires ValidDatabase(db) && NoOrphans(db) && !Rejected(p.sources, parse)
    ensures NoOrphans(Synced(db, p, now, parse).value)
  {
    var cs := SourceChanges(p.sources);
    var keep := ChangedKeys(cs);
    var up := UpsertAll(db.sources, cs, FreshSource(now));
    var after := Synced(db, p, now, parse).value;
    var orphans := OrphanedEntries(db.entries, up, keep);
    DropKeys(db.entries, orphans);
    hide UpsertAll, Drop, SourceChanges;
    forall k | k in Keys(after.entries)
      ensures Live(after, k.source)
    {
      if k.source.CustomSource? {
        UpsertAllKeepsRows(db.sources, cs, FreshSource(now), k.source.rowId);
        var i :| 0 <= i < |up| && up[i].id == k.source.rowId;
        assert up[i].key in keep;
        DropKeepsRow(up, Keys(up) - keep, i);
      }
    }
  }

  lemma {:induction false} RefreshKeepsOwners(db: Database, order: seq<SourceRef>, listOk: bool,
                                              fetch: SourceRef -> Fetch, now: int)
    requires Sound(db) && NoOrphans(db)
    ensures NoOrphans(PlainRefresh(db, order, listOk, fetch, now).0)
  {
    hide Sound, NoOrphans, Live, EnabledSources, RefreshAll;
    EnabledAreLive(db, order);
    RefreshAllKeepsOwners(db, EnabledSources(db, order), fetch, now);
  }

  lemma {:induction false} CallKeepsOwners(db: Database, c: Call, parse: URLParser)
    requires Sound(db) && NoOrphans(db)
    ensures NoOrphans(Plain(db, c, parse).0)
  {
    hide Sound, NoOrphans, Answer, PlainAddRule, PlainEnableRule, CountHit, PlainUpsertStatic, PlainRefresh;
    hide PlainAddSource, PlainEnableSource;
    hide Synced;
    SoundIsValid(db);
    match c {
      case AddSource(_, _, _, _, _, _, _) => AddSourceKeepsOwners(db, c, parse);
      case SetSourceEnabled(_, _, _, _) => EnableKeepsOwners(db, c, parse);
      case RefreshBlocklists(order, listOk, fetch, now) => RefreshKeepsOwners(db, order, listOk, fetch, now);
      case ApplySync(p, now, ok) =>
        if ok && Synced(db, p, now, parse).Ok? {
          SyncKeepsOwners(db, p, now, parse);
        }
      case _ =>
        OtherCallsKeepSources(db, c, parse);
        SameTablesSameOwners(db, Plain(db, c, parse).0);
    }
  }

  lemma {:induction false} SameTablesSameOwners(a: Database, b: Database)
    requires NoOrphans(a) && b.sources == a.sources && b.entries == a.entries
    ensures NoOrphans(b)
  {
    hide LiveRow, Keys;
    forall k | k in Keys(b.entries) ensures Live(b, k.source) { assert Live(a, k.source); }
  }

  lemma {:induction false} OtherCallsKeepSources(db: Database, c: Call, parse: URLParser)
    requires !c.AddSource? && !c.SetSourceEnabled? && !c.RefreshBlocklists? && !c.ApplySync?
    ensures Plain(db, c, parse).0.sources == db.sources && Plain(db, c, parse).0.entries == db.entries
  {
    hide RuleArgs, StaticChange, AddRuleTo, EnableRule, CountHit, Upsert, FindId, RuleReply;
  }

  /**
   In every sequential run each custom entry names a live source row; so the id that the next source gets, even a reused
   one, has no entries.
   */
  lemma {:induction false} EveryEntryHasItsSource(db: Database, cs: seq<Call>, parse: URLParser)
    requires Sound(db) && NoOrphans(db)
    ensures Sound(PlainRun(db, cs, parse)) && NoOrphans(PlainRun(db, cs, parse))
    ensures var after := PlainRun(db, cs, parse);
            forall k :: k in Keys(after.entries) ==> k.source != CustomSource(NextId(after.sources))
  {
    hide Sound, NoOrphans, Plain;
    if cs != [] {
      var n := |cs| - 1;
      EveryEntryHasItsSource(db, cs[..n], parse);
      CallKeepsOwners(PlainRun(db, cs[..n], parse), cs[n], parse);
      CallKeepsSound(PlainRun(db, cs[..n], parse), cs[n], parse);
    }
    SoundIsValid(PlainRun(db, cs, parse));
    NextIdHasNoEntries(PlainRun(db, cs, parse));
  }

  lemma {:induction false} SoundIsValid(db: Database)
    requires Sound(db)
    ensures ValidDatabase(db)
  {
  }

  lemma {:induction false} NextIdHasNoEntries(db: Database)
    requires ValidDatabase(db) && NoOrphans(db)
    ensures forall k :: k in Keys(db.entries) ==> k.source != CustomSource(NextId(db.sources))
  {
    forall k | k in Keys(db.entries) && k.source.CustomSource?
      ensures k.source.rowId < NextId(db.sources)
    {
      assert Live(db, k.source);
      var i :| 0 <= i < |db.sources| && db.sources[i].id == k.source.rowId;
      hide Keys;
    }
  }

  // ---------------------------------------------------------------- refreshes

  lemma {:induction false} KeyedRow(t: EntryTable, k: EntryKey) returns (e: Entry)
    requires k in Keys(t)
    ensures e in t && e.key == k
  {
    var i :| 0 <= i < |t| && t[i].key == k;
    e := t[i];
  }

  /** Refreshing one source never unblocks a name that an entry of another source covers. */
  lemma {:induction false} RefreshNeverUnblocks(db: Database, source: SourceRef, sourceName: string,
                                                domains: seq<string>, now: int, ok: bool, e: Entry, name: string)
    requires ValidDatabase(db) && e in db.entries && e.key.source != source && e.key.domain != "" && Covers(e.key.domain, name)
    ensures Resolver.ListBlocks(PlainReplaceEntries(db, source, sourceName, domains, now, ok).0, name)
  {
    ReplacedKeys(db.entries, source, sourceName, domains, now);
    var after := PlainReplaceEntries(db, source, sourceName, domains, now, ok).0;
    var i :| 0 <= i < |db.entries| && db.entries[i] == e;
    assert e.key in Keys(db.entries);
    assert e.key in Keys(after.entries);
    hide ReplacedEntries, Covers, EntriesOf, ListedKeys;
    var f := KeyedRow(after.entries, e.key);
  }

  lemma {:induction false} OneReplace(t: EntryTable, s: FetchSource, domains: seq<string>, now: int, source: SourceRef)
    requires Valid(t)
    ensures EntriesOf(ReplacedEntries(t, s.source, s.name, domains, now), source) ==
            if source == s.source then ListedKeys(source, domains) else EntriesOf(t, source)
  {
    ReplacedKeys(t, s.source, s.name, domains, now);
    hide ReplacedEntries, Valid;
  }

  /** The entries a source has after its turn: those its fetch brought and could store, else those it had. */
  ghost function Refreshed(was: set<EntryKey>, source: SourceRef, f: Fetch): set<EntryKey> {
    if f.Parsed? && f.txOk then ListedKeys(source, f.domains) else was
  }

  ghost predicate DistinctSources(list: seq<FetchSource>) {
    forall i, j :: 0 <= i < j < |list| ==> list[i].source != list[j].source
  }

  ghost predicate Lists(list: seq<FetchSource>, source: SourceRef) {
    exists i :: 0 <= i < |list| && list[i].source == source
  }

  lemma {:induction false} OneTurn(db: Database, s: FetchSource, f: Fetch, now: int, source: SourceRef)
    requires ValidDatabase(db)
    ensures EntriesOf(RefreshOne(db, s, f, now).entries, source) ==
            if source == s.source then Refreshed(EntriesOf(db.entries, source), source, f) else EntriesOf(db.entries, source)
  {
    hide EntriesOf, ListedKeys, ReplacedEntries, Recorded, Valid;
    if f.Parsed? {
      assert Valid(db.entries);
      OneReplace(db.entries, s, f.domains, now, source);
    }
  }

  lemma {:induction false} ListsSnoc(list: seq<FetchSource>, source: SourceRef)
    requires list != [] && DistinctSources(list)
    ensures DistinctSources(list[..|list| - 1])
    ensures Lists(list, source) <==> Lists(list[..|list| - 1], source) || source == list[|list| - 1].source
    ensures source == list[|list| - 1].source ==> !Lists(list[..|list| - 1], source)
  {
    var n := |list| - 1;
    if Lists(list, source) && source != list[n].source {
      var i :| 0 <= i < |list| && list[i].source == source;
      assert list[..n][i].source == source;
    }
    if source == list[n].source {
      assert list[n].source == source;
    }
  }

  lemma {:induction false} OwnedAfter(db: Database, list: seq<FetchSource>, fetch: SourceRef -> Fetch, now: int,
                                      source: SourceRef)
    requires Sound(db) && DistinctSources(list)
    ensures EntriesOf(RefreshAll(db, list, fetch, now).entries, source) ==
            if Lists(list, source) then Refreshed(EntriesOf(db.entries, source), source, fetch(source)) else EntriesOf(db.entries, source)
  {
    hide Sound, EntriesOf, Refreshed, RefreshOne, DistinctSources, Lists;
    if list != [] {
      var n := |list| - 1;
      ListsSnoc(list, source);
      OwnedAfter(db, list[..n], fetch, now, source);
      RefreshAllKeepsSound(db, list[..n], fetch, now);
      var before := RefreshAll(db, list[..n], fetch, now);
      SoundIsValid(before);
      OneTurn(before, list[n], fetch(list[n].source), now, source);
    } else {
      NothingListed(source);
    }
  }

  lemma {:induction false} NothingListed(source: SourceRef)
    ensures !Lists([], source)
  {
  }

  lemma {:induction false} EnabledAreListed(db: Database, order: seq<SourceRef>, source: SourceRef)
    requires forall i, j :: 0 <= i < j < |order| ==> order[i] != order[j]
    ensures DistinctSources(EnabledSources(db, order))
    ensures forall i :: 0 <= i < |EnabledSources(db, order)| ==> EnabledSources(db, order)[i].source in order
    ensures Lists(EnabledSources(db, order), source) <==> source in order && EnabledName(db, source).Some?
  {
    hide EnabledName;
    if order != [] {
      var n := |order| - 1;
      var before, all := EnabledSources(db, order[..n]), EnabledSources(db, order);
      EnabledAreListed(db, order[..n], source);
      assert order == order[..n] + [order[n]];
      assert forall i :: 0 <= i < |before| ==> all[i] == before[i];
      if Lists(before, source) {
        var i :| 0 <= i < |before| && before[i].source == source;
        assert all[i].source == source;
      }
      if EnabledName(db, order[n]).Some? {
        assert all[|before|].source == order[n];
      }
    }
  }

  /**
   A refresh gives each enabled source exactly the domains its fetch brought, if it was parsed and stored, and leaves
   every other source, enabled or not, with exactly the entries it had.
   */
  lemma {:induction false} RefreshIsPerSource(db: Database, order: seq<SourceRef>, fetch: SourceRef -> Fetch,
                                              now: int, source: SourceRef)
    requires Sound(db) && forall i, j :: 0 <= i < j < |order| ==> order[i] != order[j]
    ensures EntriesOf(PlainRefresh(db, order, true, fetch, now).0.entries, source) ==
            if source in order && EnabledName(db, source).Some? && fetch(source).Parsed? && fetch(source).txOk
            then ListedKeys(source, fetch(source).domains)
            else EntriesOf(db.entries, source)
  {
    hide Sound, EntriesOf, ListedKeys, EnabledName, RefreshAll, EnabledSources, DistinctSources, Lists;
    EnabledAreListed(db, order, source);
    OwnedAfter(db, EnabledSources(db, order), fetch, now, source);
  }

  // ---------------------------------------------------------------- a refresh overtaken by a sync

  lemma {:induction false} EmptySyncClears(db: Database, r: BlocklistSource, now: int, parse: URLParser)
    requires ValidDatabase(db) && db.sources == [r]
    ensures Synced(db, Payload([], [], [], [], 0), now, parse).Ok?
    ensures Synced(db, Payload([], [], [], [], 0), now, parse).value.sources == []
    ensures Valid(Synced(db, Payload([], [], [], [], 0), now, parse).value.entries)
  {
    var cs := SourceChanges([]);
    var up := UpsertAll(db.sources, cs, FreshSource(now));
    assert cs == [] && up == [r] && ChangedKeys(cs) == {};
    DropAll(up, Keys(up) - ChangedKeys(cs));
    DropKeepsValid(db.entries, OrphanedEntries(db.entries, up, ChangedKeys(cs)));
    hide SyncedRules, SyncedStatics, Drop, UpsertAll;
  }

  lemma {:induction false} WrittenForNobody(db: Database, id: int, name: string, domain: string, now: int)
    requires Valid(db.entries) && db.sources == []
    ensures var after := PlainReplaceEntries(db, CustomSource(id), name, [domain], now, true).0;
            after.sources == [] && EntryKey(domain, CustomSource(id)) in Keys(after.entries) && !NoOrphans(after)
  {
    ReplacedKeys(db.entries, CustomSource(id), name, [domain], now);
    assert [domain][0] == domain;
    var k := EntryKey(domain, CustomSource(id));
    assert k in ListedKeys(CustomSource(id), [domain]);
    hide ReplacedEntries, ListedKeys, EntriesOf, Keys;
    var after := PlainReplaceEntries(db, CustomSource(id), name, [domain], now, true).0;
    assert !Live(after, k.source);
  }

  lemma {:induction false} FirstSourceAdded(db: Database, url: string, format: string, now: int)
    requires db.sources == [] && AddSourceProblem(url, format, true).None?
    ensures var after := PlainAddSource(db, "", url, format, true, now, true, true).0;
            && after.entries == db.entries
            && |after.sources| == 1 && after.sources[0].id == 1 && after.sources[0].key == TrimSpace(url)
  {
    hide AddSourceProblem, FormatOf, TrimSpace;
  }

  /**
   If a sync deletes a source between a refresh's read of it and the refresh's write, the entries are written for no
   row, and the next source added, whatever its URL, gets the row id and with it the entries.
   */
  lemma {:induction false} OvertakenRefreshIsInherited(db: Database, r: BlocklistSource, domain: string, url: string,
                                                       format: string, now: int, parse: URLParser)
    requires ValidDatabase(db) && db.sources == [r] && r.id == 1
    requires AddSourceProblem(url, format, true).None?
    ensures var synced := PlainApplySync(db, Payload([], [], [], [], 0), now, true, parse).0;
            var written := PlainReplaceEntries(synced, CustomSource(r.id), r.data.name, [domain], now, true).0;
            var added := PlainAddSource(written, "", url, format, true, now, true, true).0;
            && !NoOrphans(written)
            && |added.sources| == 1 && added.sources[0].id == r.id && added.sources[0].key == TrimSpace(url)
            && EntryKey(domain, CustomSource(added.sources[0].id)) in Keys(added.entries)
  {
    EmptySyncClears(db, r, now, parse);
    var synced := PlainApplySync(db, Payload([], [], [], [], 0), now, true, parse).0;
    assert synced == Synced(db, Payload([], [], [], [], 0), now, parse).value by { hide Synced; }
    hide *;
    WrittenForNobody(synced, r.id, r.data.name, domain, now);
    FirstSourceAdded(PlainReplaceEntries(synced, CustomSource(r.id), r.data.name, [domain], now, true).0, url, format, now);
  }
}
