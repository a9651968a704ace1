/** ApplyHASyncPayload's transaction, statement by statement, on a copy of the tables. */
module SyncTransactions {
  import opened Text
  import opened Tables
  import opened Policy
  import opened HASync

  /** One upsert for each item that asks for one; the first asking item that is refused ends the loop. */
  method ApplyChanges<R, K(==), D, M>(t: Table<K, D, M>, items: seq<R>, ask: R -> Option<Change<K, D>>,
                           refuse: R -> bool, init: M) returns (u: Table<K, D, M>, keep: set<K>, refused: bool)
    ensures refused <==> exists i :: 0 <= i < |items| && ask(items[i]).Some? && refuse(items[i])
    ensures !refused ==> u == UpsertAll(t, Collect(items, ask), init) && keep == ChangedKeys(Collect(items, ask))
  {
    u, keep, refused := t, {}, false;
    for i := 0 to |items|
      invariant forall j :: 0 <= j < i && ask(items[j]).Some? ==> !refuse(items[j])
      invariant u == UpsertAll(t, Collect(items[..i], ask), init)
      invariant keep == ChangedKeys(Collect(items[..i], ask))
    {
      CollectStep(items, ask, i);
      var c := ask(items[i]);
      if c.None? {
        continue;
      }
      if refuse(items[i]) {
        refused := true;
        return;
      }
      var cs := Collect(items[..i], ask);
      UpsertAllSnoc(t, cs, c.value, init);
      ChangedKeysSnoc(cs + [c.value]);
      assert (cs + [c.value])[..|cs|] == cs;
      keep := keep + {c.value.key};
      u := Upsert(u, c.value.key, c.value.data, init);
    }
    assert items[..|items|] == items;
  }

  ghost function Elements<T>(s: seq<T>): set<T> {
    set x | x in s
  }

  function Missing<K(==), D, M>(t: Table<K, D, M>, text: K -> string, keep: set<string>): set<K> {
    set k | k in Keys(t) && text(k) !in keep
  }

  /** The keys whose text is not kept, collected first and deleted one by one. */
  method DeleteMissing<K(==), D, M>(t: Table<K, D, M>, text: K -> string, keep: set<string>) returns (u: Table<K, D, M>)
    ensures u == Drop(t, Missing(t, text, keep))
  {
    var remove := [];
    for i := 0 to |t|
      invariant forall k :: k in remove <==> text(k) !in keep && exists j :: 0 <= j < i && t[j].key == k
    {
      if text(t[i].key) !in keep {
        remove := remove + [t[i].key];
      }
    }
    u := t;
    DropNothing(t, {});
    assert Elements(remove[..0]) == {};
    for i := 0 to |remove|
      invariant u == Drop(t, Elements(remove[..i]))
    {
      DropTwice(t, Elements(remove[..i]), {remove[i]});
      assert remove[..i + 1] == remove[..i] + [remove[i]];
      assert Elements(remove[..i + 1]) == Elements(remove[..i]) + {remove[i]};
      u := Drop(u, {remove[i]});
    }
    assert remove[..|remove|] == remove;
    assert Elements(remove) == Missing(t, text, keep);
  }

  lemma {:induction false} MissingStatics(t: StaticTable, cs: seq<Change<StaticKey, StaticData>>, texts: set<string>)
    requires texts == set k | k in ChangedKeys(cs) :: KeepText(k)
    ensures Missing(t, KeepText, texts) == set k | k in Keys(t) && KeepText(k) !in KeepTexts(cs)
  {
  }

  lemma {:induction false} MissingRules(t: RuleTable, cs: seq<Change<RuleKey, RuleData>>, texts: set<string>)
    requires texts == set k | k in ChangedKeys(cs) :: RuleKeepText(k)
    ensures Missing(t, RuleKeepText, texts) == set k | k in Keys(t) && RuleKeepText(k) !in RuleKeepTexts(cs)
  {
  }

  method SyncStatics(t: StaticTable, records: seq<StaticRecord>, now: int) returns (u: StaticTable)
    ensures u == SyncedStatics(t, records, now)
  {
    var statics, keys, _ := ApplyChanges(t, records, StaticChange, r => false, now);
    var texts := set k | k in keys :: KeepText(k);
    u := DeleteMissing(statics, KeepText, texts);
    MissingStatics(statics, StaticChanges(records), texts);
  }

  method SyncRules(t: RuleTable, list: seq<Rule>, now: int) returns (u: RuleTable)
    ensures u == SyncedRules(t, list, now)
  {
    var rules, keys, _ := ApplyChanges(t, list, RuleChange, r => false, FreshRule(now));
    var texts := set k | k in keys :: RuleKeepText(k);
    u := DeleteMissing(rules, RuleKeepText, texts);
    MissingRules(rules, RuleChanges(list), texts);
  }

  method SyncPresets(m: map<string, Preset>, presets: seq<Preset>) returns (r: map<string, Preset>)
    ensures r == SyncedPresets(m, presets)
  {
    r := m;
    for i := 0 to |presets|
      invariant r == SyncedPresets(m, presets[..i])
    {
      assert presets[..i + 1][..i] == presets[..i];
      r := SyncPreset(r, presets[i]);
    }
    assert presets[..|presets|] == presets;
  }

  /** The ids of the rows whose URL is not kept. */
  method UnlistedSources(t: SourceTable, keep: set<string>) returns (remove: seq<int>)
    ensures forall id :: id in remove <==> exists j :: 0 <= j < |t| && t[j].id == id && t[j].key !in keep
  {
    remove := [];
    for i := 0 to |t|
      invariant forall id :: id in remove <==> exists j :: 0 <= j < i && t[j].id == id && t[j].key !in keep
    {
      if t[i].key !in keep {
        remove := remove + [t[i].id];
      }
    }
  }

  function KeysWithIds(t: SourceTable, ids: seq<int>): set<string> {
    set j | 0 <= j < |t| && t[j].id in ids :: t[j].key
  }

  function EntriesWithIds(t: EntryTable, ids: seq<int>): set<EntryKey> {
    set k | k in Keys(t) && k.source.CustomSource? && k.source.rowId in ids
  }

  method DeleteEntriesOf(t: EntryTable, ids: seq<int>) returns (u: EntryTable)
    ensures u == Drop(t, EntriesWithIds(t, ids))
  {
    u := t;
    DropNothing(t, {});
    assert EntriesWithIds(t, ids[..0]) == {};
    for i := 0 to |ids|
      invariant u == Drop(t, EntriesWithIds(t, ids[..i]))
    {
      var doomed := EntriesWithIds(u, [ids[i]]);
      DropTwice(t, EntriesWithIds(t, ids[..i]), doomed);
      DropKeys(t, EntriesWithIds(t, ids[..i]));
      assert ids[..i + 1] == ids[..i] + [ids[i]];
      assert EntriesWithIds(t, ids[..i + 1]) == EntriesWithIds(t, ids[..i]) + doomed;
      u := Drop(u, doomed);
    }
    assert ids[..|ids|] == ids;
  }

  /** Deletes the rows with these ids. */
  method DeleteSources(t: SourceTable, ids: seq<int>) returns (u: SourceTable)
    ensures u == Drop(t, KeysWithIds(t, ids))
  {
    u := t;
    DropNothing(t, {});
    assert KeysWithIds(t, ids[..0]) == {};
    for i := 0 to |ids|
      invariant u == Drop(t, KeysWithIds(t, ids[..i]))
    {
      var doomed := KeysWithIds(t, [ids[i]]);
      DropTwice(t, KeysWithIds(t, ids[..i]), doomed);
      assert ids[..i + 1] == ids[..i] + [ids[i]];
      assert KeysWithIds(t, ids[..i + 1]) == KeysWithIds(t, ids[..i]) + doomed;
      u := Drop(u, doomed);
    }
    assert ids[..|ids|] == ids;
  }

  lemma {:induction false} UnlistedAreTheRest(t: SourceTable, entries: EntryTable, keep: set<string>,
                                              remove: seq<int>)
    requires Valid(t)
    requires forall id :: id in remove <==> exists j :: 0 <= j < |t| && t[j].id == id && t[j].key !in keep
    ensures KeysWithIds(t, remove) == Keys(t) - keep
    ensures EntriesWithIds(entries, remove) == OrphanedEntries(entries, t, keep)
  {
  }

  /** The rows the transaction leaves, or the refusal that rolls it back. */
  method SyncTransaction(db: Database, p: Payload, now: int, parse: URLParser) returns (r: Result<Database, Problem>)
    requires ValidDatabase(db)
    ensures r == Synced(db, p, now, parse)
  {
    var statics := SyncStatics(db.statics, p.statics, now);
    var rules := SyncRules(db.rules, p.rules, now);
    var presets := SyncPresets(db.presets, p.presets);
    var sources, keep, refused := ApplyChanges(db.sources, p.sources, SourceChange, s => !ValidSource(s, parse), FreshSource(now));
    assert refused <==> Rejected(p.sources, parse);
    if refused {
      return Err(SourceRefused);
    }
    UpsertAllKeepsValid(db.sources, SourceChanges(p.sources), FreshSource(now));
    var remove := UnlistedSources(sources, keep);
    UnlistedAreTheRest(sources, db.entries, keep, remove);
    var entries := DeleteEntriesOf(db.entries, remove);
    sources := DeleteSources(sources, remove);
    var retention := if p.retentionDays > 0 then Some(p.retentionDays) else db.retention;
    r := Ok(Database(rules, statics, presets, sources, entries, retention));
  }
}
