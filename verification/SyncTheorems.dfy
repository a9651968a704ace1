/** When a sync makes the secondary's tables, and its decisions, those of the primary. */
module SyncTheorems {
  import opened Text
  import opened Names
  import opened Tables
  import opened Policy
  import opened HASync

  // ---------------------------------------------------------------- which rows the sync deletes

  predicate NulFree(s: string) {
    forall i :: 0 <= i < |s| ==> s[i] != '\0'
  }

  lemma {:induction false} NulMarksTheName(k: StaticKey, j: nat)
    requires NulFree(k.rtype) && j < |KeepText(k)|
    ensures KeepText(k)[|k.name|] == '\0'
    ensures j > |k.name| ==> KeepText(k)[j] != '\0'
  {
    if j > |k.name| {
      assert KeepText(k)[j] == k.rtype[j - |k.name| - 1];
    }
  }

  lemma {:induction false} KeepTextIsInjective(a: StaticKey, b: StaticKey)
    requires NulFree(a.rtype) && NulFree(b.rtype) && KeepText(a) == KeepText(b)
    ensures a == b
  {
    NulMarksTheName(a, |b.name|);
    NulMarksTheName(b, |a.name|);
    var s, n := KeepText(a), |a.name|;
    assert a.name == s[..n] && a.rtype == s[n + 1..];
    assert b.name == s[..n] && b.rtype == s[n + 1..];
  }

  /** A static row with another key than the ones to keep, but with the joined text of one of them. */
  ghost predicate Collides(t: StaticTable, keep: set<StaticKey>) {
    exists k, c :: k in Keys(t) && k !in keep && c in keep && KeepText(k) == KeepText(c)
  }

  /** The static table ends with exactly the keys asked for if and only if no stale row collides. */
  lemma {:induction false} StaticSyncIsExact(t: StaticTable, rs: seq<StaticRecord>, now: int)
    requires Valid(t)
    ensures Keys(SyncedStatics(t, rs, now)) == ChangedKeys(StaticChanges(rs)) <==> !Collides(t, ChangedKeys(StaticChanges(rs)))
    ensures !Collides(t, ChangedKeys(StaticChanges(rs))) ==> SyncedStatics(t, rs, now) == Replace(t, StaticChanges(rs), now)
    ensures Valid(SyncedStatics(t, rs, now))
  {
    var cs := StaticChanges(rs);
    var u := UpsertAll(t, cs, now);
    UpsertAllKeepsValid(t, cs, now);
    var gone := set k | k in Keys(u) && KeepText(k) !in KeepTexts(cs);
    DropKeepsValid(u, gone);
    if !Collides(t, ChangedKeys(cs)) {
      assert gone == Keys(u) - ChangedKeys(cs);
    } else {
      var k, c :| k in Keys(t) && k !in ChangedKeys(cs) && c in ChangedKeys(cs) && KeepText(k) == KeepText(c);
      assert KeepText(c) in KeepTexts(cs);
      assert k in Keys(Drop(u, gone));
    }
  }

  /** What a sync leaves at one key, from the tables before it. */
  ghost function StaticAfter(t: StaticTable, rs: seq<StaticRecord>, k: StaticKey): Option<StaticData> {
    var cs := StaticChanges(rs);
    if k in ChangedKeys(cs) then Wanted(cs, k) else if KeepText(k) in KeepTexts(cs) then Data(t, k) else None
  }

  /** Key by key, what a sync leaves of the static records, collisions included. */
  lemma {:induction false} SyncedStaticsData(t: StaticTable, rs: seq<StaticRecord>, now: int, k: StaticKey)
    requires Valid(t)
    ensures Data(SyncedStatics(t, rs, now), k) == StaticAfter(t, rs, k)
  {
    var cs := StaticChanges(rs);
    var u := UpsertAll(t, cs, now);
    var gone := set k | k in Keys(u) && KeepText(k) !in KeepTexts(cs);
    UpsertAllKeepsValid(t, cs, now);
    UpsertAllData(t, cs, now, k);
    WantedIffChanged(cs, k);
    DropData(u, gone, k);
    assert k in ChangedKeys(cs) ==> KeepText(k) in KeepTexts(cs);
  }

  /** Record types without a NUL character never collide. */
  lemma {:induction false} NulFreeTypesDoNotCollide(t: StaticTable, keep: set<StaticKey>)
    requires forall k :: k in Keys(t) || k in keep ==> NulFree(k.rtype)
    ensures !Collides(t, keep)
  {
    forall k, c | k in Keys(t) && c in keep && KeepText(k) == KeepText(c)
      ensures k == c
    {
      KeepTextIsInjective(k, c);
    }
  }

  lemma {:induction false} CollidingKeys(name: string, rtype: string) returns (stale: StaticKey, sent: StaticKey)
    requires Clean(name) && rtype != "" && Trimmed(rtype) && IsUpper(rtype)
    ensures stale.name == name && stale != sent && KeepText(stale) == KeepText(sent)
    ensures Clean(sent.name) && sent.rtype == rtype
    ensures stale.rtype != "" && Trimmed(stale.rtype) && IsUpper(stale.rtype)
  {
    var j := name + "\0.";
    stale, sent := StaticKey(name, ".\0" + rtype), StaticKey(j, rtype);
    assert |stale.name| != |sent.name|;
    assert name + "\0" + (".\0" + rtype) == j + "\0" + rtype;
    assert stale.rtype[|stale.rtype| - 1] == rtype[|rtype| - 1];
  }

  /** Collisions do occur: a type that spells a dot, a NUL and another type hides a stale record of any name. */
  lemma {:induction false} NulTypesCollide(name: string, rtype: string, d: StaticData)
    returns (stale: StaticRecord, sent: StaticRecord)
    requires Clean(name) && rtype != "" && Trimmed(rtype) && IsUpper(rtype)
    requires d.value != "" && Trimmed(d.value) && d.ttl > 0
    ensures stale.key.name == name && stale.key != sent.key && CanonicalStatic(stale) && CanonicalStatic(sent)
    ensures stale.data == d && sent.data == d
    ensures Collides([stale], ChangedKeys(StaticChanges([sent])))
  {
    var k, c := CollidingKeys(name, rtype);
    stale, sent := Row(1, k, d, 0), Row(1, c, d, 0);
    CanonicalStaticAsksForItself(sent);
    CollectFromAll([sent], StaticChange);
    var cs := StaticChanges([sent]);
    assert |cs| == 1 && cs[0].key == c;
    assert cs[0].key in ChangedKeys(cs) && [stale][0].key in Keys([stale]);
  }

  /** What AddRule, SeedDefaults and the sync itself write: the global scope, and one of two actions. */
  predicate OwnKey(k: RuleKey) {
    k.scope == GLOBAL && (k.action == "block" || k.action == "allow")
  }

  ghost predicate OwnRules(t: RuleTable) {
    forall k :: k in Keys(t) ==> OwnKey(k)
  }

  lemma {:induction false} RuleChangesAreOwn(rs: seq<Rule>)
    ensures forall k :: k in ChangedKeys(RuleChanges(rs)) ==> OwnKey(k)
  {
    forall k | k in ChangedKeys(RuleChanges(rs))
      ensures OwnKey(k)
    {
      CollectedFrom(rs, RuleChange, k);
    }
  }

  lemma {:induction false} RuleKeepTextIsInjective(a: RuleKey, b: RuleKey)
    requires OwnKey(a) && OwnKey(b) && RuleKeepText(a) == RuleKeepText(b)
    ensures a == b
  {
    var x, y := StaticKey(a.scope + "\0" + a.target, a.action), StaticKey(b.scope + "\0" + b.target, b.action);
    assert KeepText(x) == RuleKeepText(a) && KeepText(y) == RuleKeepText(b);
    KeepTextIsInjective(x, y);
    assert a.target == x.name[|GLOBAL| + 1..] && b.target == y.name[|GLOBAL| + 1..];
  }

  /** Rule keys cannot collide, so the rule table is always replaced exactly. */
  lemma {:induction false} RuleSyncIsExact(t: RuleTable, rs: seq<Rule>, now: int)
    requires Valid(t) && OwnRules(t)
    ensures SyncedRules(t, rs, now) == Replace(t, RuleChanges(rs), FreshRule(now))
    ensures Valid(SyncedRules(t, rs, now)) && OwnRules(SyncedRules(t, rs, now))
  {
    var cs := RuleChanges(rs);
    var u := UpsertAll(t, cs, FreshRule(now));
    UpsertAllKeepsValid(t, cs, FreshRule(now));
    RuleChangesAreOwn(rs);
    forall k, c | k in Keys(u) && c in ChangedKeys(cs) && RuleKeepText(k) == RuleKeepText(c)
      ensures k == c
    {
      RuleKeepTextIsInjective(k, c);
    }
    assert (set k | k in Keys(u) && RuleKeepText(k) !in RuleKeepTexts(cs)) == Keys(u) - ChangedKeys(cs);
    ReplaceKeepsValid(t, cs, FreshRule(now));
  }

  // ---------------------------------------------------------------- exports

  /** RetentionDays: the stored number of days, clamped, or 30. */
  function RetentionDays(stored: Option<int>): (days: int)
    ensures 1 <= days <= 3650
    ensures stored.Some? && 1 <= stored.value <= 3650 ==> days == stored.value
    ensures stored.Some? && stored.value > 3650 ==> days == 3650
    ensures stored.None? || stored.value < 1 ==> days == 30
  {
    if stored.None? || stored.value < 1 then 30 else if stored.value > 3650 then 3650 else stored.value
  }

  /** The payload lists rules and static records in reading order, sources and presets in some order. */
  ghost predicate IsExport(p: Payload, db: Database) {
    && p.rules == RulesView(db.rules)
    && p.statics == StaticsView(db.statics)
    && (forall s :: s in p.sources <==> s in db.sources)
    && (forall x :: x in p.presets <==> x.id in db.presets && db.presets[x.id] == x)
    && p.retentionDays == RetentionDays(db.retention)
  }

  predicate CanonicalRule(r: Rule) {
    OwnKey(r.key) && Clean(r.key.target)
  }

  predicate CanonicalStatic(r: StaticRecord) {
    && Clean(r.key.name)
    && r.key.rtype != "" && Trimmed(r.key.rtype) && IsUpper(r.key.rtype)
    && r.data.value != "" && Trimmed(r.data.value) && r.data.ttl > 0
  }

  predicate CanonicalSource(s: BlocklistSource) {
    s.key != "" && Trimmed(s.key) && FormatOf(s.data.format) == s.data.format
  }

  ghost predicate CanonicalRules(t: seq<Rule>) {
    forall r :: r in t ==> CanonicalRule(r)
  }

  ghost predicate CanonicalPolicy(db: Database) {
    && CanonicalRules(db.rules)
    && (forall r :: r in db.statics ==> CanonicalStatic(r))
    && (forall s :: s in db.sources ==> CanonicalSource(s))
  }

  lemma {:induction false} ActionIsStable(action: string)
    requires action == "block" || action == "allow"
    ensures ToLower(TrimSpace(action)) == action
  {
    assert IsLower("block") && IsLower("allow");
    assert Trimmed("block") && Trimmed("allow");
  }

  lemma {:induction false} CanonicalRuleAsksForItself(r: Rule)
    requires CanonicalRule(r)
    ensures RuleChange(r) == Some(Change(r.key, r.data))
  {
    ActionIsStable(r.key.action);
    CleanIsCanonical(r.key.target);
    assert NormalizeName(r.key.target) == r.key.target;
  }

  lemma {:induction false} CanonicalStaticAsksForItself(r: StaticRecord)
    requires CanonicalStatic(r)
    ensures StaticChange(r) == Some(Change(r.key, r.data))
  {
    CleanIsCanonical(r.key.name);
    assert NormalizeName(r.key.name) == r.key.name;
    assert TrimSpace(r.key.rtype) == r.key.rtype && TrimSpace(r.data.value) == r.data.value;
  }

  lemma {:induction false} CanonicalRuleChanges(rs: seq<Rule>)
    requires CanonicalRules(rs)
    ensures |RuleChanges(rs)| == |rs|
    ensures forall i :: 0 <= i < |rs| ==> RuleChanges(rs)[i] == Change(rs[i].key, rs[i].data)
  {
    forall i | 0 <= i < |rs| ensures RuleChange(rs[i]) == Some(Change(rs[i].key, rs[i].data)) {
      assert rs[i] in rs;
      CanonicalRuleAsksForItself(rs[i]);
    }
    CollectFromAll(rs, RuleChange);
  }

  lemma {:induction false} CanonicalStaticChanges(rs: seq<StaticRecord>)
    requires forall r :: r in rs ==> CanonicalStatic(r)
    ensures |StaticChanges(rs)| == |rs|
    ensures forall i :: 0 <= i < |rs| ==> StaticChanges(rs)[i] == Change(rs[i].key, rs[i].data)
  {
    forall i | 0 <= i < |rs| ensures StaticChange(rs[i]) == Some(Change(rs[i].key, rs[i].data)) {
      assert rs[i] in rs;
      CanonicalStaticAsksForItself(rs[i]);
    }
    CollectFromAll(rs, StaticChange);
  }

  lemma {:induction false} CanonicalSourceChanges(rs: seq<BlocklistSource>)
    requires forall r :: r in rs ==> CanonicalSource(r)
    ensures |SourceChanges(rs)| == |rs|
    ensures forall i :: 0 <= i < |rs| ==> SourceChanges(rs)[i] == Change(rs[i].key, rs[i].data)
  {
    forall i | 0 <= i < |rs| ensures SourceChange(rs[i]) == Some(Change(rs[i].key, rs[i].data)) {
      assert rs[i] in rs;
      assert TrimSpace(rs[i].key) == rs[i].key;
    }
    CollectFromAll(rs, SourceChange);
  }

  lemma {:induction false} ViewMember(t: seq<Rule>, r: Rule)
    ensures r in RulesView(t) <==> r in t
  {
    WithEnabledMember(t, true, r);
    WithEnabledMember(t, false, r);
  }

  // ---------------------------------------------------------------- the tables after a sync

  /** What the primary lists is what its rule and static tables hold. */
  lemma {:induction false} ExportAsksForTables(p: Payload, P: Database)
    requires ValidDatabase(P) && CanonicalPolicy(P) && IsExport(p, P)
    ensures WantedImage(RuleChanges(p.rules)) == Image(P.rules) && ChangedKeys(RuleChanges(p.rules)) == Keys(P.rules)
    ensures WantedImage(StaticChanges(p.statics)) == Image(P.statics) && ChangedKeys(StaticChanges(p.statics)) == Keys(P.statics)
    ensures WantedImage(SourceChanges(p.sources)) == Image(P.sources) && ChangedKeys(SourceChanges(p.sources)) == Keys(P.sources)
  {
    ExportAsksForRules(P.rules);
    forall r ensures r in p.statics <==> r in P.statics { ListedMember(P.statics, r); }
    hide StaticsView;
    CanonicalStaticChanges(p.statics);
    ListingAsksForImage(P.statics, p.statics, StaticChanges(p.statics));
    CanonicalSourceChanges(p.sources);
    ListingAsksForImage(P.sources, p.sources, SourceChanges(p.sources));
  }

  /**
   After a successful sync the secondary holds the primary's rule keys with their enabled flag and note,
   its static records with value and TTL, and its custom sources by URL: nothing more and nothing less.
   */
  lemma {:induction false} SyncIsAuthoritative(P: Database, S: Database, p: Payload, now: int, parse: URLParser)
    requires ValidDatabase(P) && CanonicalPolicy(P) && IsExport(p, P)
    requires ValidDatabase(S) && OwnRules(S.rules) && !Collides(S.statics, Keys(P.statics))
    requires !Rejected(p.sources, parse)
    ensures var S' := Synced(S, p, now, parse).value;
            && Image(S'.rules) == Image(P.rules)
            && Image(S'.statics) == Image(P.statics)
            && Image(S'.sources) == Image(P.sources)
            && RetentionDays(S'.retention) == RetentionDays(P.retention)
            && ValidDatabase(S') && OwnRules(S'.rules)
  {
    ExportAsksForTables(p, P);
    RuleSyncIsExact(S.rules, p.rules, now);
    ReplaceImage(S.rules, RuleChanges(p.rules), FreshRule(now));
    StaticSyncIsExact(S.statics, p.statics, now);
    ReplaceImage(S.statics, StaticChanges(p.statics), now);
    ReplaceImage(S.sources, SourceChanges(p.sources), FreshSource(now));
    ReplaceKeepsValid(S.sources, SourceChanges(p.sources), FreshSource(now));
    var keep := ChangedKeys(SourceChanges(p.sources));
    DropKeepsValid(S.entries, OrphanedEntries(S.entries, UpsertAll(S.sources, SourceChanges(p.sources), FreshSource(now)), keep));
  }

  /** A policy with the image of a canonical one is canonical. */
  lemma {:induction false} CanonicalByImage(P: Database, S: Database)
    requires ValidDatabase(P) && ValidDatabase(S) && CanonicalPolicy(P)
    requires Image(S.rules) == Image(P.rules) && Image(S.statics) == Image(P.statics) && Image(S.sources) == Image(P.sources)
    ensures CanonicalPolicy(S)
  {
    hide Image, Valid, Clean, OwnKey, Trimmed, IsUpper, FormatOf;
    forall r | r in S.rules ensures CanonicalRule(r) { var w := Twin(S.rules, P.rules, r); }
    forall r | r in S.statics ensures CanonicalStatic(r) { var w := Twin(S.statics, P.statics, r); }
    forall r | r in S.sources ensures CanonicalSource(r) { var w := Twin(S.sources, P.sources, r); }
  }

  /** What the secondary would itself export is the primary's policy: a third node that applies it gets the same images. */
  lemma {:induction false} ReExportCarriesThePolicy(P: Database, S: Database, T: Database, p: Payload, q: Payload,
                                                    t1: int, t2: int, parse: URLParser)
    requires ValidDatabase(P) && CanonicalPolicy(P) && IsExport(p, P)
    requires ValidDatabase(S) && OwnRules(S.rules) && !Collides(S.statics, Keys(P.statics)) && !Rejected(p.sources, parse)
    requires ValidDatabase(T) && OwnRules(T.rules) && !Collides(T.statics, Keys(P.statics))
    requires IsExport(q, Synced(S, p, t1, parse).value) && !Rejected(q.sources, parse)
    ensures var T' := Synced(T, q, t2, parse).value;
            && Image(T'.rules) == Image(P.rules) && Image(T'.statics) == Image(P.statics) && Image(T'.sources) == Image(P.sources)
            && RetentionDays(T'.retention) == RetentionDays(P.retention)
  {
    SyncIsAuthoritative(P, S, p, t1, parse);
    var S' := Synced(S, p, t1, parse).value;
    hide Synced, CanonicalPolicy, IsExport, Image, Valid, OwnRules;
    CanonicalByImage(P, S');
    SameKeys(S'.statics, P.statics);
    SyncIsAuthoritative(S', T, q, t2, parse);
  }

  /** A static key that `second` does not ask for but keeps: another key it asks for has its joined text. */
  ghost predicate Hidden(k: StaticKey, second: Payload) {
    k !in ChangedKeys(StaticChanges(second.statics)) && KeepText(k) in KeepTexts(StaticChanges(second.statics))
  }

  /** What S holds at the key is what the sync of `first` leaves there. */
  ghost predicate Untouched(S: Database, first: Payload, k: StaticKey) {
    Data(S.statics, k) == StaticAfter(S.statics, first.statics, k)
  }

  lemma {:induction false} LastStaticsWinIff(S: Database, first: Payload, second: Payload, t1: int, t2: int)
    requires Valid(S.statics)
    ensures var once := SyncedStatics(S.statics, first.statics, t1);
            Image(SyncedStatics(once, second.statics, t2)) == Image(SyncedStatics(S.statics, second.statics, t2)) <==>
            forall k :: Hidden(k, second) ==> Untouched(S, first, k)
  {
    var once := SyncedStatics(S.statics, first.statics, t1);
    StaticSyncIsExact(S.statics, first.statics, t1);
    hide StaticChanges, SyncedStatics;
    SameImageIff(SyncedStatics(once, second.statics, t2), SyncedStatics(S.statics, second.statics, t2));
    forall k
      ensures Data(SyncedStatics(once, second.statics, t2), k) == Data(SyncedStatics(S.statics, second.statics, t2), k) <==>
              (Hidden(k, second) ==> Untouched(S, first, k))
    {
      SyncedStaticsData(S.statics, first.statics, t1, k);
      SyncedStaticsData(once, second.statics, t2, k);
      SyncedStaticsData(S.statics, second.statics, t2, k);
    }
  }

  /**
   Applying `first` and then `second` leaves the images that applying `second` alone leaves, if and only if `first`
   touches no static record that the joined texts of `second` hide.
   */
  lemma {:induction false} LastSyncWinsIff(S: Database, first: Payload, second: Payload, t1: int, t2: int,
                                           parse: URLParser)
    requires ValidDatabase(S) && OwnRules(S.rules)
    requires !Rejected(first.sources, parse) && !Rejected(second.sources, parse)
    ensures var a := Synced(Synced(S, first, t1, parse).value, second, t2, parse).value;
            var b := Synced(S, second, t2, parse).value;
            (Image(a.rules) == Image(b.rules) && Image(a.statics) == Image(b.statics) && Image(a.sources) == Image(b.sources)) <==>
            forall k :: Hidden(k, second) ==> Untouched(S, first, k)
  {
    var cr, cu := RuleChanges(second.rules), SourceChanges(second.sources);
    RuleSyncIsExact(S.rules, first.rules, t1);
    RuleSyncIsExact(S.rules, second.rules, t2);
    RuleSyncIsExact(SyncedRules(S.rules, first.rules, t1), second.rules, t2);
    ReplaceImage(S.rules, cr, FreshRule(t2));
    ReplaceImage(SyncedRules(S.rules, first.rules, t1), cr, FreshRule(t2));
    ReplaceKeepsValid(S.sources, SourceChanges(first.sources), FreshSource(t1));
    ReplaceImage(S.sources, cu, FreshSource(t2));
    ReplaceImage(SyncedSources(S.sources, first.sources, t1), cu, FreshSource(t2));
    hide Hidden, Untouched, SyncedStatics, Image, WantedImage, Replace, RuleChanges, SourceChanges;
    LastStaticsWinIff(S, first, second, t1, t2);
  }

  /** An earlier sync does leave such records: on an empty node, for every name and type. */
  lemma {:induction false} EarlierSyncRemains(name: string, rtype: string, d: StaticData)
    returns (first: Payload, second: Payload, k: StaticKey)
    requires Clean(name) && rtype != "" && Trimmed(rtype) && IsUpper(rtype)
    requires d.value != "" && Trimmed(d.value) && d.ttl > 0
    ensures var none := Database([], [], map[], [], [], None);
            k.name == name && Hidden(k, second) && !Untouched(none, first, k)
  {
    hide Clean, Trimmed, IsUpper, StaticChanges, CanonicalStatic, KeepText;
    var stale, sent := NulTypesCollide(name, rtype, d);
    first, second, k := Payload([stale], [], [], [], 0), Payload([sent], [], [], [], 0), stale.key;
    CanonicalStaticChanges([stale]);
    CanonicalStaticChanges([sent]);
    var cs, ds := StaticChanges([stale]), StaticChanges([sent]);
    assert cs == [Change(k, d)] && ds == [Change(sent.key, d)];
    assert Wanted(cs, k) == Some(d) && cs[0].key in ChangedKeys(cs);
    var x, c :| x in Keys([stale]) && x !in ChangedKeys(ds) && c in ChangedKeys(ds) && KeepText(x) == KeepText(c);
  }

  // ---------------------------------------------------------------- syncing twice

  lemma {:induction false} StaticSyncTwice(t: StaticTable, rs: seq<StaticRecord>, now: int, again: int)
    requires Valid(t)
    ensures SyncedStatics(SyncedStatics(t, rs, now), rs, again) == SyncedStatics(t, rs, now)
  {
    var cs := StaticChanges(rs);
    var u := UpsertAll(t, cs, now);
    UpsertAllKeepsValid(t, cs, now);
    var gone := set k | k in Keys(u) && KeepText(k) !in KeepTexts(cs);
    var v := Drop(u, gone);
    DropKeepsValid(u, gone);
    forall k | k in ChangedKeys(cs)
      ensures Data(v, k) == Wanted(cs, k)
    {
      assert KeepText(k) in KeepTexts(cs);
      DropData(u, gone, k);
      UpsertAllData(t, cs, now, k);
      WantedIffChanged(cs, k);
    }
    UpsertAllStable(v, cs, again);
    DropNothing(v, set k | k in Keys(v) && KeepText(k) !in KeepTexts(cs));
  }

  /** The enabled flag the last preset row of that id asks for. */
  function LastEnabled(ps: seq<Preset>, id: string): Option<bool> {
    if ps == [] then None
    else if ps[|ps| - 1].id == id && TrimSpace(id) != "" then Some(ps[|ps| - 1].enabled)
    else LastEnabled(ps[..|ps| - 1], id)
  }

  lemma {:induction false} PresetIds(m: map<string, Preset>, ps: seq<Preset>, id: string)
    ensures id in SyncedPresets(m, ps) <==> id in m || LastEnabled(ps, id).Some?
  {
    if ps != [] {
      PresetIds(m, ps[..|ps| - 1], id);
    }
  }

  /** A sync adds unknown presets, sets the flag of the known ones and nothing else of them, and deletes none. */
  lemma {:induction false} PresetSync(m: map<string, Preset>, ps: seq<Preset>, id: string)
    ensures id in SyncedPresets(m, ps) <==> id in m || LastEnabled(ps, id).Some?
    ensures LastEnabled(ps, id).Some? ==> SyncedPresets(m, ps)[id].enabled == LastEnabled(ps, id).value
    ensures id in m ==> SyncedPresets(m, ps)[id] ==
                        if LastEnabled(ps, id).Some? then m[id].(enabled := LastEnabled(ps, id).value) else m[id]
  {
    PresetIds(m, ps, id);
    if ps != [] {
      var n := |ps| - 1;
      var m0, r := SyncedPresets(m, ps[..n]), SyncedPresets(m, ps);
      PresetSync(m, ps[..n], id);
      PresetIds(m, ps[..n], id);
      assert r == SyncPreset(m0, ps[n]);
      if ps[n].id == id && TrimSpace(id) != "" {
        assert LastEnabled(ps, id) == Some(ps[n].enabled);
        assert id in m0 ==> r[id] == m0[id].(enabled := ps[n].enabled);
        assert id !in m0 ==> r[id] == ps[n];
      } else {
        assert LastEnabled(ps, id) == LastEnabled(ps[..n], id);
        assert id in m0 ==> r[id] == m0[id];
      }
    }
  }

  /** A new one comes as it is first listed, with the flag it is last listed with. */
  lemma {:induction false} NewPresetSync(m: map<string, Preset>, ps: seq<Preset>, i: nat)
    requires i < |ps| && ps[i].id !in m && TrimSpace(ps[i].id) != "" && forall j :: 0 <= j < i ==> ps[j].id != ps[i].id
    ensures var id, last := ps[i].id, LastEnabled(ps, ps[i].id);
            last.Some? && id in SyncedPresets(m, ps) && SyncedPresets(m, ps)[id] == ps[i].(enabled := last.value)
  {
    hide *;
    var id, before := ps[i].id, ps[..|ps| - 1];
    PresetStep(m, ps, id);
    if i < |before| {
      assert before[i] == ps[i] && forall j :: 0 <= j < i ==> before[j] == ps[j];
      NewPresetSync(m, before, i);
    } else {
      assert forall j :: 0 <= j < |before| ==> before[j] == ps[j];
      NotListed(before, id);
      PresetIds(m, before, id);
      assert ps[|ps| - 1] == ps[i] && ps[i] == ps[i].(enabled := ps[i].enabled);
    }
  }

  lemma {:induction false} PresetStep(m: map<string, Preset>, ps: seq<Preset>, id: string)
    requires ps != [] && TrimSpace(id) != ""
    ensures var p, before, after := ps[|ps| - 1], SyncedPresets(m, ps[..|ps| - 1]), SyncedPresets(m, ps);
            && LastEnabled(ps, id) == (if p.id == id then Some(p.enabled) else LastEnabled(ps[..|ps| - 1], id))
            && (p.id != id && id in before ==> id in after && after[id] == before[id])
            && (p.id == id ==> id in after && after[id] == if id in before then before[id].(enabled := p.enabled) else p)
  {
    hide TrimSpace;
  }

  lemma {:induction false} NotListed(ps: seq<Preset>, id: string)
    requires forall j :: 0 <= j < |ps| ==> ps[j].id != id
    ensures LastEnabled(ps, id) == None
  {
    if ps != [] {
      NotListed(ps[..|ps| - 1], id);
    }
  }

  /** A payload with a number of days below 1 leaves the retention as it was. */
  lemma {:induction false} RetentionSync(S: Database, p: Payload, now: int, parse: URLParser)
    requires !Rejected(p.sources, parse)
    ensures Synced(S, p, now, parse).value.retention == if p.retentionDays < 1 then S.retention else Some(p.retentionDays)
  {
    hide SyncedRules, SyncedStatics, SyncedPresets, SyncedSources, OrphanedEntries, Drop, UpsertAll;
  }

  lemma {:induction false} PresetSyncTwice(m: map<string, Preset>, ps: seq<Preset>)
    ensures SyncedPresets(SyncedPresets(m, ps), ps) == SyncedPresets(m, ps)
  {
    var r := SyncedPresets(m, ps);
    var q := SyncedPresets(r, ps);
    forall id
      ensures id in q <==> id in r
      ensures id in r ==> q[id] == r[id]
    {
      PresetSync(m, ps, id);
      PresetSync(r, ps, id);
    }
  }

  /** Applying a payload a second time, at any later time, changes no row of any table. */
  lemma {:induction false} SyncTwiceIsOnce(S: Database, p: Payload, now: int, again: int, parse: URLParser)
    requires ValidDatabase(S) && OwnRules(S.rules) && !Rejected(p.sources, parse)
    ensures Synced(Synced(S, p, now, parse).value, p, again, parse) == Synced(S, p, now, parse)
  {
    var S' := Synced(S, p, now, parse).value;
    RuleSyncIsExact(S.rules, p.rules, now);
    RuleSyncIsExact(S'.rules, p.rules, again);
    ReplaceTwice(S.rules, RuleChanges(p.rules), FreshRule(now), FreshRule(again));
    StaticSyncTwice(S.statics, p.statics, now, again);
    PresetSyncTwice(S.presets, p.presets);
    var cs := SourceChanges(p.sources);
    ReplaceTwice(S.sources, cs, FreshSource(now), FreshSource(again));
    ReplaceKeepsValid(S.sources, cs, FreshSource(now));
    forall k | k in ChangedKeys(cs)
      ensures Data(S'.sources, k) == Wanted(cs, k)
    {
      ReplaceData(S.sources, cs, FreshSource(now), k);
    }
    UpsertAllStable(S'.sources, cs, FreshSource(again));
    forall i | 0 <= i < |S'.sources|
      ensures S'.sources[i].key in ChangedKeys(cs)
    {
      assert S'.sources[i].key in Keys(S'.sources);
    }
    assert OrphanedEntries(S'.entries, S'.sources, ChangedKeys(cs)) == {};
    DropNothing(S'.entries, {});
  }

  lemma {:induction false} NothingOrphaned(T: Database, q: Payload, now: int)
    requires ValidDatabase(T) && SyncedSources(T.sources, q.sources, now) == T.sources
    ensures var cs := SourceChanges(q.sources);
            Drop(T.entries, OrphanedEntries(T.entries, UpsertAll(T.sources, cs, FreshSource(now)), ChangedKeys(cs))) == T.entries
  {
    var cs := SourceChanges(q.sources);
    hide SourceChanges;
    ReplaceKeepsValid(T.sources, cs, FreshSource(now));
    forall k | k in ChangedKeys(cs)
      ensures Data(T.sources, k) == Wanted(cs, k)
    {
      ReplaceData(T.sources, cs, FreshSource(now), k);
    }
    hide Replace, Wanted, Data;
    UpsertAllStable(T.sources, cs, FreshSource(now));
    hide UpsertAll, ChangedKeys;
    forall i | 0 <= i < |T.sources|
      ensures T.sources[i].key in ChangedKeys(cs)
    {
      assert T.sources[i].key in Keys(T.sources);
    }
    assert OrphanedEntries(T.entries, T.sources, ChangedKeys(cs)) == {};
    DropNothing(T.entries, {});
  }

  lemma {:induction false} WantedKeys<K, D>(cs: seq<Change<K, D>>)
    ensures WantedImage(cs).Keys == ChangedKeys(cs)
  {
    forall k | k in ChangedKeys(cs)
      ensures k in WantedImage(cs)
    {
      WantedIffChanged(cs, k);
    }
  }

  /** A replacement changes nothing exactly if the table's image is already the one asked for. */
  lemma {:induction false} ReplaceStableIff<K, D, M>(t: Table<K, D, M>, cs: seq<Change<K, D>>, init: M)
    requires Valid(t)
    ensures Replace(t, cs, init) == t <==> Image(t) == WantedImage(cs)
  {
    ReplaceImage(t, cs, init);
    ImageKeys(t);
    WantedKeys(cs);
    hide Image, WantedImage, Replace, Keys, ChangedKeys;
    if Image(t) == WantedImage(cs) {
      ReplaceStable(t, cs, init);
    }
  }

  lemma {:induction false} StaticsStableIff(S: Database, p: Payload, now: int)
    requires Valid(S.statics)
    ensures SyncedStatics(S.statics, p.statics, now) == S.statics <==> forall k :: Untouched(S, p, k)
  {
    var cs := StaticChanges(p.statics);
    if forall k :: Untouched(S, p, k) {
      forall k | k in ChangedKeys(cs)
        ensures Data(S.statics, k) == Wanted(cs, k)
      {
        assert Untouched(S, p, k);
      }
      forall k | k in Keys(S.statics)
        ensures KeepText(k) in KeepTexts(cs)
      {
        assert Untouched(S, p, k);
        assert Data(S.statics, k).Some?;
      }
      var gone := set k | k in Keys(S.statics) && KeepText(k) !in KeepTexts(cs);
      assert gone == {};
      hide StaticChanges, ChangedKeys, UpsertAll, Drop, Data, Wanted, Untouched;
      UpsertAllStable(S.statics, cs, now);
      DropNothing(S.statics, gone);
    }
    if SyncedStatics(S.statics, p.statics, now) == S.statics {
      hide SyncedStatics, StaticChanges;
      forall k
        ensures Untouched(S, p, k)
      {
        SyncedStaticsData(S.statics, p.statics, now, k);
      }
    }
  }

  /** Every preset the payload names is there, with the flag it asks for. */
  ghost predicate PresetsHeld(m: map<string, Preset>, ps: seq<Preset>) {
    forall id :: LastEnabled(ps, id).Some? ==> id in m && m[id].enabled == LastEnabled(ps, id).value
  }

  lemma {:induction false} PresetsStableIff(m: map<string, Preset>, ps: seq<Preset>)
    ensures SyncedPresets(m, ps) == m <==> PresetsHeld(m, ps)
  {
    forall id
      ensures id in SyncedPresets(m, ps) <==> id in m || LastEnabled(ps, id).Some?
      ensures LastEnabled(ps, id).Some? ==> SyncedPresets(m, ps)[id].enabled == LastEnabled(ps, id).value
      ensures id in m ==> SyncedPresets(m, ps)[id] ==
                          if LastEnabled(ps, id).Some? then m[id].(enabled := LastEnabled(ps, id).value) else m[id]
    {
      PresetSync(m, ps, id);
    }
    hide SyncedPresets, LastEnabled;
  }

  /** The tables already hold what the payload asks for. */
  ghost predicate HoldsAlready(S: Database, p: Payload) {
    && Image(S.rules) == WantedImage(RuleChanges(p.rules))
    && (forall k :: Untouched(S, p, k))
    && Image(S.sources) == WantedImage(SourceChanges(p.sources))
    && PresetsHeld(S.presets, p.presets)
    && (p.retentionDays > 0 ==> S.retention == Some(p.retentionDays))
  }

  /** An import changes nothing, row for row, if and only if the tables already hold what it asks for. */
  lemma {:induction false} SyncChangesNothingIff(S: Database, p: Payload, now: int, parse: URLParser)
    requires ValidDatabase(S) && OwnRules(S.rules) && !Rejected(p.sources, parse)
    ensures Synced(S, p, now, parse).value == S <==> HoldsAlready(S, p)
  {
    RuleSyncIsExact(S.rules, p.rules, now);
    ReplaceStableIff(S.rules, RuleChanges(p.rules), FreshRule(now));
    ReplaceStableIff(S.sources, SourceChanges(p.sources), FreshSource(now));
    StaticsStableIff(S, p, now);
    PresetsStableIff(S.presets, p.presets);
    hide Untouched, Image, WantedImage, PresetsHeld, SyncedRules, SyncedStatics, SyncedPresets, Replace, RuleChanges;
    hide Rejected;
    if SyncedSources(S.sources, p.sources, now) == S.sources {
      NothingOrphaned(S, p, now);
    }
    hide UpsertAll, Drop, OrphanedEntries, SourceChanges;
  }

  // ---------------------------------------------------------------- the decisions after a sync

  ghost predicate NeverExpires(t: seq<Rule>) {
    forall r :: r in t ==> r.meta.expiresAt.None?
  }

  /** A name matches some enabled rule on the one node if and only if it does on the other. */
  lemma {:induction false} SameNamesMatched(a: RuleTable, b: RuleTable, qname: string, now: int)
    requires Valid(a) && Valid(b) && Image(a) == Image(b) && NeverExpires(a) && NeverExpires(b)
    ensures FirstApplying(RulesView(a), qname, now).Some? <==> FirstApplying(RulesView(b), qname, now).Some?
  {
    ViewDecidesByIdOrder(a, qname, now);
    ViewDecidesByIdOrder(b, qname, now);
    var f, g := FirstApplying(a, qname, now), FirstApplying(b, qname, now);
    if f.Some? {
      var w := Twin(a, b, f.value);
      assert Applies(w, qname, now);
      var i :| 0 <= i < |b| && b[i] == w;
    }
    if g.Some? {
      var w := Twin(b, a, g.value);
      assert Applies(w, qname, now);
      var i :| 0 <= i < |a| && a[i] == w;
    }
  }

  /** Two enabled rules x and y with nested targets and different actions, and their copies u and v. */
  predicate Conflict(x: Rule, y: Rule, u: Rule, v: Rule) {
    && x.key == u.key && y.key == v.key && x.data.enabled && y.data.enabled && x.key.action != y.key.action
    && (Covers(x.key.target, y.key.target) || Covers(y.key.target, x.key.target))
  }

  /** Conflicting rules stand in the same id order in both tables. */
  ghost predicate SameConflictOrder(a: seq<Rule>, b: seq<Rule>) {
    forall x, y, u, v :: x in a && y in a && u in b && v in b && Conflict(x, y, u, v) ==> (x.id < y.id <==> u.id < v.id)
  }

  lemma {:induction false} ActionsAgree(a: RuleTable, b: RuleTable, f: Rule, g: Rule, qname: string, now: int)
    requires Valid(a) && Valid(b) && Image(a) == Image(b) && NeverExpires(a) && NeverExpires(b)
    requires SameConflictOrder(a, b)
    requires LeastIdApplying(a, f, qname, now) && LeastIdApplying(b, g, qname, now)
    ensures f.key.action == g.key.action
  {
    if f.key.action != g.key.action {
      var u := Twin(a, b, f);
      var y := Twin(b, a, g);
      if |f.key.target| <= |g.key.target| {
        CoverersAreNested(f.key.target, g.key.target, qname);
      } else {
        CoverersAreNested(g.key.target, f.key.target, qname);
      }
      assert Conflict(f, y, u, g);
      assert Applies(u, qname, now) && Applies(y, qname, now);
      DistinctIds(a, f, y);
    }
  }

  /** Nodes with equal images decide every name alike when conflicting rules stand in the same order on both. */
  lemma {:induction false} SameOrderSameAction(a: RuleTable, b: RuleTable, qname: string, now: int)
    requires Valid(a) && Valid(b) && Image(a) == Image(b) && NeverExpires(a) && NeverExpires(b)
    requires SameConflictOrder(a, b)
    ensures var f, g := FirstApplying(RulesView(a), qname, now), FirstApplying(RulesView(b), qname, now);
            f.Some? == g.Some? && (f.Some? ==> f.value.key.action == g.value.key.action)
  {
    SameNamesMatched(a, b, qname, now);
    var f, g := FirstApplying(RulesView(a), qname, now), FirstApplying(RulesView(b), qname, now);
    if f.Some? {
      WinnerHasLeastId(a, f.value, qname, now);
      WinnerHasLeastId(b, g.value, qname, now);
      ActionsAgree(a, b, f.value, g.value, qname, now);
    }
  }

  // ---------------------------------------------------------------- when two nodes decide every name alike

  /** Both nodes leave the name to the blocklists, or both have a rule for it with the same action. */
  predicate DecidedAlike(a: seq<Rule>, b: seq<Rule>, qname: string, now: int) {
    var f, g := FirstApplying(RulesView(a), qname, now), FirstApplying(RulesView(b), qname, now);
    f.Some? == g.Some? && (f.Some? ==> f.value.key.action == g.value.key.action)
  }

  /** The same of the names cover both. */
  ghost predicate CoveredSame(ds: set<string>, m: string, n: string) {
    forall e :: e in ds ==> (Covers(e, m) <==> Covers(e, n))
  }

  lemma {:induction false} Longest(ds: set<string>, n: string, e: string) returns (d: string)
    requires e in ds && Covers(e, n)
    ensures d in ds && Covers(d, n) && forall x :: x in ds && Covers(x, n) ==> |x| <= |d|
  {
    hide Covers;
    d := e;
    var left := ds;
    while left != {}
      invariant left <= ds && d in ds && Covers(d, n)
      invariant forall x :: x in ds - left && Covers(x, n) ==> |x| <= |d|
      decreases left
    {
      var x :| x in left;
      if Covers(x, n) && |x| > |d| {
        d := x;
      }
      left := left - {x};
    }
  }

  /** Of some names, those that cover n are those that cover the deepest of them that does. */
  lemma {:induction false} Deepest(ds: set<string>, n: string, e: string) returns (d: string)
    requires e in ds && Covers(e, n)
    ensures d in ds && Covers(d, n) && CoveredSame(ds, n, d)
  {
    d := Longest(ds, n, e);
    hide Covers;
    forall x | x in ds
      ensures Covers(x, n) <==> Covers(x, d)
    {
      if Covers(x, n) {
        CoverersAreNested(x, d, n);
      }
      if Covers(x, d) {
        CoversIsTransitive(x, d, n);
      }
    }
  }

  lemma {:induction false} AppliersDecide(t: seq<Rule>, m: string, n: string, now: int)
    requires forall r :: r in t ==> (Applies(r, m, now) <==> Applies(r, n, now))
    ensures FirstApplying(t, m, now) == FirstApplying(t, n, now)
  {
    if t != [] {
      hide Applies;
      assert t[0] in t;
      forall r | r in t[1..] ensures r in t {}
      AppliersDecide(t[1..], m, n, now);
    }
  }

  ghost predicate EnabledWithin(rs: seq<Rule>, ds: set<string>) {
    forall r :: r in rs && r.data.enabled ==> r.key.target in ds
  }

  /** Names covered by the same targets are decided by the same rule. */
  lemma {:induction false} ScannedSame(rs: seq<Rule>, ds: set<string>, m: string, n: string, now: int)
    requires EnabledWithin(rs, ds) && CoveredSame(ds, m, n)
    ensures FirstApplying(rs, m, now) == FirstApplying(rs, n, now)
  {
    forall r | r in rs
      ensures Applies(r, m, now) <==> Applies(r, n, now)
    {
      hide Covers;
    }
    hide Applies, EnabledWithin, CoveredSame;
    AppliersDecide(rs, m, n, now);
  }

  lemma {:induction false} NoneScanned(rs: seq<Rule>, ds: set<string>, n: string, now: int)
    requires EnabledWithin(rs, ds) && forall d :: d in ds ==> !Covers(d, n)
    ensures FirstApplying(rs, n, now).None?
  {
    hide Covers;
    forall i | 0 <= i < |rs|
      ensures !Applies(rs[i], n, now)
    {
      assert rs[i] in rs;
    }
    hide Applies;
  }

  ghost function EnabledTargets(rs: seq<Rule>): set<string> {
    set r | r in rs && r.data.enabled :: r.key.target
  }

  /** Nodes with equal images decide every name alike if and only if they decide the enabled rules' own targets alike. */
  lemma {:induction false} NodesAgreeIffOnTargets(a: RuleTable, b: RuleTable, now: int)
    requires Valid(a) && Valid(b) && Image(a) == Image(b)
    ensures (forall qname :: DecidedAlike(a, b, qname, now)) <==>
            (forall r :: r in a && r.data.enabled ==> DecidedAlike(a, b, r.key.target, now))
  {
    var ds := EnabledTargets(a);
    forall r | r in b && r.data.enabled
      ensures r.key.target in ds
    {
      var w := Twin(b, a, r);
    }
    assert EnabledWithin(a, ds) && EnabledWithin(b, ds);
    hide DecidedAlike, Image, Valid, Covers, EnabledWithin;
    if forall r :: r in a && r.data.enabled ==> DecidedAlike(a, b, r.key.target, now) {
      forall qname
        ensures DecidedAlike(a, b, qname, now)
      {
        if e :| e in ds && Covers(e, qname) {
          var d := Deepest(ds, qname, e);
          DecidedSame(a, b, ds, d, qname, now);
        } else {
          LeftToLists(a, b, ds, qname, now);
        }
      }
    }
  }

  lemma {:induction false} DecidedSame(a: RuleTable, b: RuleTable, ds: set<string>, m: string, n: string, now: int)
    requires Valid(a) && Valid(b) && EnabledWithin(a, ds) && EnabledWithin(b, ds) && CoveredSame(ds, n, m)
    ensures DecidedAlike(a, b, m, now) <==> DecidedAlike(a, b, n, now)
  {
    hide FirstApplying, RulesView, Valid, EnabledWithin, CoveredSame;
    ViewDecidesByIdOrder(a, m, now);
    ViewDecidesByIdOrder(a, n, now);
    ViewDecidesByIdOrder(b, m, now);
    ViewDecidesByIdOrder(b, n, now);
    ScannedSame(a, ds, n, m, now);
    ScannedSame(b, ds, n, m, now);
  }

  lemma {:induction false} LeftToLists(a: RuleTable, b: RuleTable, ds: set<string>, n: string, now: int)
    requires Valid(a) && Valid(b) && EnabledWithin(a, ds) && EnabledWithin(b, ds) && forall d :: d in ds ==> !Covers(d, n)
    ensures DecidedAlike(a, b, n, now)
  {
    hide FirstApplying, RulesView, Valid, EnabledWithin, Covers;
    ViewDecidesByIdOrder(a, n, now);
    ViewDecidesByIdOrder(b, n, now);
    NoneScanned(a, ds, n, now);
    NoneScanned(b, ds, n, now);
  }

  lemma {:induction false} DistinctIds(t: RuleTable, x: Rule, y: Rule)
    requires Valid(t) && x in t && y in t && x.key != y.key
    ensures x.id != y.id
  {
    var i :| 0 <= i < |t| && t[i] == x;
    var j :| 0 <= j < |t| && t[j] == y;
  }

  lemma {:induction false} WithEnabledDistinct(t: RuleTable, e: bool)
    requires Valid(t)
    ensures forall i, j :: 0 <= i < j < |WithEnabled(t, e)| ==> WithEnabled(t, e)[i].key != WithEnabled(t, e)[j].key
  {
    if t != [] {
      var rest := WithEnabled(t[1..], e);
      WithEnabledDistinct(t[1..], e);
      forall j | 0 <= j < |rest|
        ensures rest[j].key != t[0].key
      {
        WithEnabledMember(t[1..], e, rest[j]);
      }
    }
  }

  lemma {:induction false} ViewDistinct(t: RuleTable)
    requires Valid(t)
    ensures forall i, j :: 0 <= i < j < |RulesView(t)| ==> RulesView(t)[i].key != RulesView(t)[j].key
  {
    WithEnabledDistinct(t, true);
    WithEnabledDistinct(t, false);
    forall x, y | x in WithEnabled(t, true) && y in WithEnabled(t, false)
      ensures x.key != y.key
    {
      WithEnabledMember(t, true, x);
      WithEnabledMember(t, false, y);
      var i :| 0 <= i < |t| && t[i] == x;
      var j :| 0 <= j < |t| && t[j] == y;
    }
    var a, b := WithEnabled(t, true), WithEnabled(t, false);
    forall i, j | 0 <= i < j < |RulesView(t)|
      ensures RulesView(t)[i].key != RulesView(t)[j].key
    {
      if i < |a| <= j {
        assert a[i] in a && b[j - |a|] in b;
      }
    }
  }

  /** Lists with equal keys and data, row by row, are scanned alike. */
  lemma {:induction false} ScannedAlike(a: seq<Rule>, b: seq<Rule>, qname: string, now: int)
    requires |a| == |b| && forall i :: 0 <= i < |a| ==> a[i].key == b[i].key && a[i].data == b[i].data
    requires NeverExpires(a) && NeverExpires(b)
    ensures var f, g := FirstApplying(a, qname, now), FirstApplying(b, qname, now);
            f.Some? == g.Some? && (f.Some? ==> f.value.key == g.value.key)
  {
    if a != [] {
      assert a[0] in a && b[0] in b;
      forall r | r in a[1..] ensures r in a {}
      forall r | r in b[1..] ensures r in b {}
      ScannedAlike(a[1..], b[1..], qname, now);
    }
  }

  lemma {:induction false} ViewNeverExpires(t: seq<Rule>)
    requires NeverExpires(t)
    ensures NeverExpires(RulesView(t))
  {
    forall r | r in RulesView(t)
      ensures r.meta.expiresAt.None?
    {
      ViewMember(t, r);
    }
  }

  /** What the primary lists is what its rule table holds. */
  lemma {:induction false} ExportAsksForRules(t: RuleTable)
    requires Valid(t) && CanonicalRules(t)
    ensures |RuleChanges(RulesView(t))| == |RulesView(t)|
    ensures forall i :: 0 <= i < |RulesView(t)| ==> RuleChanges(RulesView(t))[i] == Change(RulesView(t)[i].key, RulesView(t)[i].data)
    ensures WantedImage(RuleChanges(RulesView(t))) == Image(t) && ChangedKeys(RuleChanges(RulesView(t))) == Keys(t)
  {
    var rs := RulesView(t);
    forall r ensures r in rs <==> r in t { ViewMember(t, r); }
    CanonicalRuleChanges(rs);
    ListingAsksForImage(t, rs, RuleChanges(rs));
  }

  /** A secondary that held none of the primary's rule keys takes over the primary's precedence. */
  lemma {:induction false} FreshKeysKeepPrecedence(P: RuleTable, S: RuleTable, now: int, qname: string, at: int)
    requires Valid(P) && CanonicalRules(P) && NeverExpires(P)
    requires Valid(S) && OwnRules(S) && NeverExpires(S)
    requires Keys(P) !! Keys(S)
    ensures var f := FirstApplying(RulesView(P), qname, at);
            var g := FirstApplying(RulesView(SyncedRules(S, RulesView(P), now)), qname, at);
            f.Some? == g.Some? && (f.Some? ==> f.value.key == g.value.key)
  {
    var rs := RulesView(P);
    var t := SyncedRules(S, rs, now);
    ExportAsksForRules(P);
    RuleSyncIsExact(S, rs, now);
    ViewDistinct(P);
    ReplaceByNewKeys(S, RuleChanges(rs), FreshRule(now));
    ViewNeverExpires(P);
    ScannedAlike(rs, t, qname, at);
    ViewDecidesByIdOrder(t, qname, at);
  }

  lemma {:induction false} SyncedRulesNeverExpire(t: RuleTable, cs: seq<Change<RuleKey, RuleData>>, now: int)
    requires Valid(t) && NeverExpires(t)
    ensures NeverExpires(UpsertAll(t, cs, FreshRule(now))) && NeverExpires(Replace(t, cs, FreshRule(now)))
  {
    if cs != [] {
      SyncedRulesNeverExpire(t, cs[..|cs| - 1], now);
    }
    var u := UpsertAll(t, cs, FreshRule(now));
    DropIn(u, Keys(u) - ChangedKeys(cs));
  }

  /**
   What a sync preserves of the primary's rule decisions, for any name:
   whether some rule decides, the action if all deciding rules agree on it,
   and the action in any case if conflicting rules stand in the primary's order.
   */
  lemma {:induction false} SyncPreservesDecisions(P: RuleTable, S: RuleTable, now: int, qname: string, at: int)
    requires Valid(P) && CanonicalRules(P) && NeverExpires(P)
    requires Valid(S) && OwnRules(S) && NeverExpires(S)
    ensures var t := SyncedRules(S, RulesView(P), now);
            var f := FirstApplying(RulesView(P), qname, at);
            var g := FirstApplying(RulesView(t), qname, at);
            && f.Some? == g.Some?
            && (f.Some? && (forall r :: r in P && Applies(r, qname, at) ==> r.key.action == f.value.key.action)
                ==> g.value.key.action == f.value.key.action)
            && (f.Some? && SameConflictOrder(P, t) ==> g.value.key.action == f.value.key.action)
  {
    var t := SyncedRules(S, RulesView(P), now);
    ExportAsksForRules(P);
    RuleSyncIsExact(S, RulesView(P), now);
    ReplaceImage(S, RuleChanges(RulesView(P)), FreshRule(now));
    SyncedRulesNeverExpire(S, RuleChanges(RulesView(P)), now);
    SameNamesMatched(P, t, qname, at);
    var f := FirstApplying(RulesView(P), qname, at);
    var g := FirstApplying(RulesView(t), qname, at);
    if f.Some? {
      WinnerHasLeastId(t, g.value, qname, at);
      var w := Twin(t, P, g.value);
      assert Applies(w, qname, at);
      if SameConflictOrder(P, t) {
        SameOrderSameAction(P, t, qname, at);
      }
    }
  }

  lemma {:induction false} ViewOfTwo(x: Rule, y: Rule)
    requires x.data.enabled && y.data.enabled
    ensures RulesView([x, y]) == [x, y]
  {
    assert [x, y][1..] == [y] && [y][1..] == [];
    var none: seq<Rule> := [];
    assert WithEnabled(none, true) == none && WithEnabled(none, false) == none;
    assert WithEnabled([y], true) == [y] + none && WithEnabled([y], false) == none + none;
    assert WithEnabled([x, y], true) == [x] + [y] && WithEnabled([x, y], false) == none + none;
  }

  lemma {:induction false} UpsertOne<K, D, M>(t: Table<K, D, M>, c: Change<K, D>, init: M)
    ensures UpsertAll(t, [c], init) == Upsert(t, c.key, c.data, init)
  {
    assert [] + [c] == [c];
    UpsertAllSnoc(t, [], c, init);
    hide Upsert;
  }

  lemma {:induction false} HeldTwo(held: Rule, added: Rule)
    requires held.id == 1 && added.id == 2 && held.key != added.key
    ensures Upsert([held], added.key, added.data, added.meta) == [held, added]
    ensures Upsert([held, added], held.key, held.data, added.meta) == [held, added]
  {
    assert Find([held], added.key) == 1 && Find([held, added], held.key) == 0;
  }

  /** A table that holds `second` receives `first` and `second`: the row it held stays in front. */
  lemma {:induction false} HeldRowStaysFirst(first: RuleKey, second: RuleKey, d: RuleData)
    requires first != second
    ensures Replace([Row(1, second, d, FreshRule(0))], [Change(first, d), Change(second, d)], FreshRule(0))
            == [Row(1, second, d, FreshRule(0)), Row(2, first, d, FreshRule(0))]
  {
    var held, added: Rule := Row(1, second, d, FreshRule(0)), Row(2, first, d, FreshRule(0));
    var c1, c2 := Change(first, d), Change(second, d);
    HeldTwo(held, added);
    UpsertOne([held], c1, FreshRule(0));
    UpsertAllSnoc([held], [c1], c2, FreshRule(0));
    assert [c1] + [c2] == [c1, c2];
    var cs, t := [c1, c2], [held, added];
    hide Upsert, UpsertAll;
    assert cs[0].key in ChangedKeys(cs) && cs[1].key in ChangedKeys(cs);
    hide Drop;
    DropNothing(t, Keys(t) - ChangedKeys(cs));
  }

  lemma {:induction false} HeadDecides(x: Rule, y: Rule, qname: string)
    requires x.data.enabled && y.data.enabled && x.meta.expiresAt.None? && Covers(x.key.target, qname)
    ensures FirstApplying(RulesView([x, y]), qname, 0) == Some(x)
  {
    ViewOfTwo(x, y);
  }

  lemma {:induction false} SyncOntoHeld(x: Rule, y: Rule)
    requires CanonicalRule(x) && CanonicalRule(y) && x.key != y.key
    requires x.data == y.data && x.data.enabled
    ensures SyncedRules([Row(1, y.key, y.data, FreshRule(0))], RulesView([x, y]), 0)
            == [Row(1, y.key, y.data, FreshRule(0)), Row(2, x.key, x.data, FreshRule(0))]
  {
    ViewOfTwo(x, y);
    var rs := [x, y];
    assert forall r :: r in rs ==> r == x || r == y;
    CanonicalRuleChanges(rs);
    assert RuleChanges(rs) == [Change(x.key, x.data), Change(y.key, x.data)];
    HeldRowStaysFirst(x.key, y.key, x.data);
    RuleSyncIsExact([Row(1, y.key, y.data, FreshRule(0))], rs, 0);
  }

  lemma {:induction false} TwoRules(x: Rule, y: Rule)
    requires CanonicalRule(x) && CanonicalRule(y) && x.key != y.key && 1 <= x.id < y.id
    requires x.meta == y.meta == FreshRule(0)
    ensures Valid([x, y]) && CanonicalRules([x, y]) && NeverExpires([x, y])
  {
  }

  lemma {:induction false} OneRule(x: Rule)
    requires OwnKey(x.key) && 1 <= x.id && x.meta == FreshRule(0)
    ensures Valid([x]) && OwnRules([x]) && NeverExpires([x])
  {
  }

  lemma {:induction false} HeldKeyWins(x: Rule, y: Rule, held: Rule)
    requires CanonicalRule(x) && CanonicalRule(y) && x.key != y.key
    requires x.data == y.data && x.data.enabled && x.meta == y.meta == FreshRule(0)
    requires Covers(x.key.target, y.key.target)
    requires held == Row(1, y.key, y.data, FreshRule(0))
    ensures FirstApplying(RulesView([x, y]), y.key.target, 0) == Some(x)
    ensures FirstApplying(RulesView(SyncedRules([held], RulesView([x, y]), 0)), y.key.target, 0) == Some(held)
  {
    SyncOntoHeld(x, y);
    HeadDecides(x, y, y.key.target);
    HeadDecides(held, Row(2, x.key, x.data, FreshRule(0)), y.key.target);
  }

  /**
   Without that premise it may not: for any two nested names there are a primary that blocks the inner one and a
   secondary that, after the sync, allows it, because the key it already held kept its old id.
   */
  lemma {:induction false} PrecedenceCanDiffer(outer: string, inner: string) returns (P: RuleTable, S: RuleTable)
    requires Clean(outer) && Clean(inner) && Covers(outer, inner)
    ensures Valid(P) && CanonicalRules(P) && NeverExpires(P)
    ensures Valid(S) && OwnRules(S) && NeverExpires(S)
    ensures var f := FirstApplying(RulesView(P), inner, 0);
            var g := FirstApplying(RulesView(SyncedRules(S, RulesView(P), 0)), inner, 0);
            f.Some? && f.value.key.action == "block" && g.Some? && g.value.key.action == "allow"
  {
    var d := RuleData(true, "");
    var x := Row(1, RuleKey(GLOBAL, outer, "block"), d, FreshRule(0));
    var y := Row(2, RuleKey(GLOBAL, inner, "allow"), d, FreshRule(0));
    var held := Row(1, y.key, d, FreshRule(0));
    assert x.key.action != y.key.action;
    TwoRules(x, y);
    OneRule(held);
    HeldKeyWins(x, y, held);
    P, S := [x, y], [held];
  }
}
