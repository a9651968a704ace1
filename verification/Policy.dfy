/** The policy tables, the views the caches hold of them, and which row decides a name. */
module Policy {
  import opened Text
  import opened Names
  import opened Tables

  datatype RuleKey = RuleKey(scope: string, target: string, action: string)
  datatype RuleData = RuleData(enabled: bool, note: string)
  datatype RuleMeta = RuleMeta(expiresAt: Option<int>, hitCount: int, lastHitAt: Option<int>, createdAt: int)
  type Rule = Row<RuleKey, RuleData, RuleMeta>
  type RuleTable = Table<RuleKey, RuleData, RuleMeta>

  datatype StaticKey = StaticKey(name: string, rtype: string)
  datatype StaticData = StaticData(value: string, ttl: int)
  type StaticRecord = Row<StaticKey, StaticData, int>
  type StaticTable = Table<StaticKey, StaticData, int>

  datatype SourceData = SourceData(name: string, format: string, enabled: bool)
  datatype SourceMeta = SourceMeta(lastStatus: string, lastChecked: Option<int>, createdAt: int)
  type BlocklistSource = Row<string, SourceData, SourceMeta>
  type SourceTable = Table<string, SourceData, SourceMeta>

  /** The (source_type, source_id) columns; a custom source is named by its row id. */
  datatype SourceRef = PresetSource(id: string) | CustomSource(rowId: int)

  datatype EntryKey = EntryKey(domain: string, source: SourceRef)
  type Entry = Row<EntryKey, string, int>
  type EntryTable = Table<EntryKey, string, int>

  datatype Preset = Preset(id: string, name: string, tier: string, description: string,
                           homeURL: string, sourceURL: string, enabled: bool)

  datatype Database = Database(
    rules: RuleTable,
    statics: StaticTable,
    presets: map<string, Preset>,
    sources: SourceTable,
    entries: EntryTable,
    retention: Option<int>)

  /** Why a call fails. */
  datatype Problem =
    | DatabaseError | NoRows
    | TargetRequired | BadAction
    | FieldsRequired
    | URLRequired | BadScheme | NotPublic | BadFormat
    | SourceRefused

  ghost predicate ValidDatabase(db: Database) {
    Valid(db.rules) && Valid(db.statics) && Valid(db.sources) && Valid(db.entries)
  }

  // ---------------------------------------------------------------- static records

  /** (a.name, a.type) < (b.name, b.type) */
  predicate KeyLess(a: StaticKey, b: StaticKey) {
    Less(a.name, b.name) || (a.name == b.name && Less(a.rtype, b.rtype))
  }

  lemma {:induction false} KeyOrderIsTotal(a: StaticKey, b: StaticKey)
    ensures a == b || KeyLess(a, b) || KeyLess(b, a)
  {
    LessIsTotal(a.name, b.name);
    LessIsTotal(a.rtype, b.rtype);
    hide Less;
  }

  lemma {:induction false} KeyOrderIsTransitive(a: StaticKey, b: StaticKey, c: StaticKey)
    requires KeyLess(a, b) && KeyLess(b, c)
    ensures KeyLess(a, c)
  {
    hide Less;
    if Less(a.name, b.name) && Less(b.name, c.name) {
      LessIsTransitive(a.name, b.name, c.name);
    }
    if Less(a.rtype, b.rtype) && Less(b.rtype, c.rtype) {
      LessIsTransitive(a.rtype, b.rtype, c.rtype);
    }
  }

  /** The record goes before the first one with a greater key. */
  function Placed(rs: seq<StaticRecord>, r: StaticRecord): (p: seq<StaticRecord>)
    ensures multiset(p) == multiset(rs) + multiset{r} && |p| == |rs| + 1
  {
    if rs == [] || KeyLess(r.key, rs[0].key) then [r] + rs else
      assert rs == [rs[0]] + rs[1..];
      [rs[0]] + Placed(rs[1..], r)
  }

  /** ORDER BY name, type */
  function StaticsView(t: seq<StaticRecord>): (v: seq<StaticRecord>)
    ensures multiset(v) == multiset(t) && |v| == |t|
  {
    if t == [] then [] else
      var n := |t| - 1;
      assert t == t[..n] + [t[n]];
      Placed(StaticsView(t[..n]), t[n])
  }

  predicate Ascending(rs: seq<StaticRecord>) {
    forall i, j :: 0 <= i < j < |rs| ==> KeyLess(rs[i].key, rs[j].key)
  }

  lemma {:induction false} PlacedMember(rs: seq<StaticRecord>, r: StaticRecord, x: StaticRecord)
    ensures x in Placed(rs, r) <==> x in rs || x == r
  {
    assert x in multiset(Placed(rs, r)) <==> x in multiset(rs) || x == r;
    hide Placed;
  }

  lemma {:induction false} PlacedAscends(rs: seq<StaticRecord>, r: StaticRecord)
    requires Ascending(rs) && forall x :: x in rs ==> x.key != r.key
    ensures Ascending(Placed(rs, r))
  {
    hide KeyLess;
    if rs != [] {
      KeyOrderIsTotal(r.key, rs[0].key);
      if KeyLess(r.key, rs[0].key) {
        forall j | 0 < j < |rs| ensures KeyLess(r.key, rs[j].key) {
          KeyOrderIsTransitive(r.key, rs[0].key, rs[j].key);
        }
      } else {
        PlacedAscends(rs[1..], r);
        var rest := Placed(rs[1..], r);
        forall j | 0 <= j < |rest| ensures KeyLess(rs[0].key, rest[j].key) {
          PlacedMember(rs[1..], r, rest[j]);
        }
      }
    }
  }

  lemma {:induction false} ListedMember(t: seq<StaticRecord>, x: StaticRecord)
    ensures x in StaticsView(t) <==> x in t
  {
    assert x in multiset(StaticsView(t)) <==> x in multiset(t);
    hide StaticsView;
  }

  /** The listing holds the rows of the table, each once, in strictly rising order of name and type. */
  lemma {:induction false} StaticsAreListedInOrder(t: StaticTable)
    requires Valid(t)
    ensures multiset(StaticsView(t)) == multiset(t) && Ascending(StaticsView(t))
  {
    hide Ascending, Placed;
    if t != [] {
      var n := |t| - 1;
      StaticsAreListedInOrder(t[..n]);
      forall x | x in StaticsView(t[..n])
        ensures x.key != t[n].key
      {
        ListedMember(t[..n], x);
        var i :| 0 <= i < n && t[i] == x;
      }
      PlacedAscends(StaticsView(t[..n]), t[n]);
    } else {
      NothingAscends();
    }
  }

  lemma {:induction false} NothingAscends()
    ensures Ascending(StaticsView([]))
  {
  }

  // ---------------------------------------------------------------- rules

  predicate Live(r: Rule, now: int) {
    r.data.enabled && (r.meta.expiresAt.Some? ==> now <= r.meta.expiresAt.value)
  }

  predicate Applies(r: Rule, qname: string, now: int) {
    Live(r, now) && Covers(r.key.target, qname)
  }

  /** A rule lives up to its expiry, that moment included, and without one for ever. */
  lemma {:induction false} LiveIff(r: Rule, now: int)
    ensures r.data.enabled && r.meta.expiresAt == Some(now) ==> Live(r, now) && forall t :: t > now ==> !Live(r, t)
    ensures r.data.enabled && r.meta.expiresAt == None ==> Live(r, now)
    ensures Live(r, now) ==> r.data.enabled && forall t :: t < now ==> Live(r, t)
  {
  }

  function WithEnabled(t: seq<Rule>, enabled: bool): (r: seq<Rule>)
    ensures forall i :: 0 <= i < |r| ==> r[i].data.enabled == enabled
  {
    if t == [] then [] else
      (if t[0].data.enabled == enabled then [t[0]] else []) + WithEnabled(t[1..], enabled)
  }

  /** ORDER BY enabled DESC, id ASC */
  function RulesView(t: seq<Rule>): seq<Rule> {
    WithEnabled(t, true) + WithEnabled(t, false)
  }

  /** The listing holds the rules of the table, each once: the enabled before the disabled, and either in id order. */
  lemma {:induction false} RulesAreListedInOrder(t: RuleTable)
    requires Valid(t)
    ensures multiset(RulesView(t)) == multiset(t)
    ensures forall i, j :: 0 <= i < j < |RulesView(t)| ==>
              var a, b := RulesView(t)[i], RulesView(t)[j];
              (a.data.enabled && !b.data.enabled) || (a.data.enabled == b.data.enabled && a.id < b.id)
  {
    EnabledInOrder(t, true);
    EnabledInOrder(t, false);
    SplitByEnabled(t);
    hide WithEnabled, Valid;
  }

  lemma {:induction false} SplitByEnabled(t: seq<Rule>)
    ensures multiset(WithEnabled(t, true)) + multiset(WithEnabled(t, false)) == multiset(t)
  {
    if t != [] {
      SplitByEnabled(t[1..]);
      assert t == [t[0]] + t[1..];
    }
  }

  lemma {:induction false} WithEnabledMember(t: seq<Rule>, enabled: bool, r: Rule)
    ensures r in WithEnabled(t, enabled) <==> r in t && r.data.enabled == enabled
  {
    if t != [] {
      WithEnabledMember(t[1..], enabled, r);
      assert t == [t[0]] + t[1..];
    }
  }

  lemma {:induction false} EnabledInOrder(t: RuleTable, enabled: bool)
    requires Valid(t)
    ensures forall i, j :: 0 <= i < j < |WithEnabled(t, enabled)| ==> WithEnabled(t, enabled)[i].id < WithEnabled(t, enabled)[j].id
  {
    if t != [] {
      EnabledInOrder(t[1..], enabled);
      var rest := WithEnabled(t[1..], enabled);
      forall j | 0 <= j < |rest|
        ensures t[0].id < rest[j].id
      {
        WithEnabledMember(t[1..], enabled, rest[j]);
        var k :| 0 <= k < |t[1..]| && t[1..][k] == rest[j];
        assert t[k + 1] == rest[j];
      }
    }
  }

  function FirstApplying(rs: seq<Rule>, qname: string, now: int): (r: Option<Rule>)
    ensures r.None? <==> forall i :: 0 <= i < |rs| ==> !Applies(rs[i], qname, now)
    ensures r.Some? ==> exists i :: 0 <= i < |rs| && IsFirst(rs, i, qname, now) && rs[i] == r.value
  {
    if rs == [] then None
    else if Applies(rs[0], qname, now) then assert IsFirst(rs, 0, qname, now); Some(rs[0])
    else
      var r := FirstApplying(rs[1..], qname, now);
      assert r.Some? ==> exists i :: 0 <= i < |rs| && IsFirst(rs, i, qname, now) && rs[i] == r.value by {
        if r.Some? {
          var i :| 0 <= i < |rs[1..]| && IsFirst(rs[1..], i, qname, now) && rs[1..][i] == r.value;
          assert IsFirst(rs, i + 1, qname, now);
        }
      }
      r
  }

  lemma {:induction false} FirstApplyingStep(rs: seq<Rule>, i: nat, qname: string, now: int)
    requires i < |rs|
    ensures FirstApplying(rs[i..], qname, now) ==
            if Applies(rs[i], qname, now) then Some(rs[i]) else FirstApplying(rs[i + 1..], qname, now)
  {
    assert rs[i..][1..] == rs[i + 1..];
  }

  predicate IsFirst(rs: seq<Rule>, i: nat, qname: string, now: int) {
    i < |rs| && Applies(rs[i], qname, now) && forall j :: 0 <= j < i ==> !Applies(rs[j], qname, now)
  }

  lemma {:induction false} FirstOfConcat(a: seq<Rule>, b: seq<Rule>, qname: string, now: int)
    ensures FirstApplying(a + b, qname, now) ==
            if FirstApplying(a, qname, now).Some? then FirstApplying(a, qname, now) else FirstApplying(b, qname, now)
  {
    if a == [] {
      assert a + b == b;
    } else {
      assert (a + b)[1..] == a[1..] + b;
      FirstOfConcat(a[1..], b, qname, now);
    }
  }

  lemma {:induction false} FirstOfEnabled(t: seq<Rule>, qname: string, now: int)
    ensures FirstApplying(WithEnabled(t, true), qname, now) == FirstApplying(t, qname, now)
  {
    if t != [] {
      FirstOfEnabled(t[1..], qname, now);
      FirstOfConcat(if t[0].data.enabled then [t[0]] else [], WithEnabled(t[1..], true), qname, now);
      FirstOfConcat([t[0]], t[1..], qname, now);
      assert [t[0]] + t[1..] == t;
    }
  }

  /** The order the rules are read in decides every name as plain id order does. */
  lemma {:induction false} ViewDecidesByIdOrder(t: seq<Rule>, qname: string, now: int)
    ensures FirstApplying(RulesView(t), qname, now) == FirstApplying(t, qname, now)
  {
    FirstOfConcat(WithEnabled(t, true), WithEnabled(t, false), qname, now);
    FirstOfEnabled(t, qname, now);
  }

  /** `w` is the applying rule with the least id. */
  ghost predicate LeastIdApplying(t: seq<Rule>, w: Rule, qname: string, now: int) {
    w in t && Applies(w, qname, now) && forall r :: r in t && Applies(r, qname, now) ==> w.id <= r.id
  }

  lemma {:induction false} FirstHasLeastId(t: RuleTable, qname: string, now: int)
    requires Valid(t) && FirstApplying(t, qname, now).Some?
    ensures LeastIdApplying(t, FirstApplying(t, qname, now).value, qname, now)
  {
    var f := FirstApplying(t, qname, now);
    var i :| 0 <= i < |t| && IsFirst(t, i, qname, now) && t[i] == f.value;
    forall r | r in t && Applies(r, qname, now)
      ensures f.value.id <= r.id
    {
      var j :| 0 <= j < |t| && t[j] == r;
    }
  }

  lemma {:induction false} LeastIdIsUnique(t: RuleTable, v: Rule, w: Rule, qname: string, now: int)
    requires Valid(t) && LeastIdApplying(t, v, qname, now) && LeastIdApplying(t, w, qname, now)
    ensures v == w
  {
    var i :| 0 <= i < |t| && t[i] == v;
    var j :| 0 <= j < |t| && t[j] == w;
  }

  /** MatchRule's answer is the live covering rule with the least id, and there is one exactly when some rule applies. */
  lemma {:induction false} WinnerHasLeastId(t: RuleTable, w: Rule, qname: string, now: int)
    requires Valid(t)
    ensures FirstApplying(RulesView(t), qname, now) == Some(w) <==> LeastIdApplying(t, w, qname, now)
    ensures FirstApplying(RulesView(t), qname, now).None? <==> forall r :: r in t ==> !Applies(r, qname, now)
  {
    ViewDecidesByIdOrder(t, qname, now);
    var f := FirstApplying(t, qname, now);
    if f.Some? {
      FirstHasLeastId(t, qname, now);
      if LeastIdApplying(t, w, qname, now) {
        LeastIdIsUnique(t, f.value, w, qname, now);
      }
    }
  }

  // ---------------------------------------------------------------- blocklist entries

  /** The map the blocklist cache holds: the last row read of each domain. */
  function EntryMap(t: seq<Entry>): (m: map<string, Entry>)
    ensures forall d :: d in m ==> m[d] in t && m[d].key.domain == d
    ensures forall e :: e in t ==> e.key.domain in m
  {
    if t == [] then map[] else
      var n := |t| - 1;
      assert t == t[..n] + [t[n]];
      EntryMap(t[..n])[t[n].key.domain := t[n]]
  }

  lemma {:induction false} EntryMapStep(rows: seq<Entry>, i: nat)
    requires i < |rows|
    ensures EntryMap(rows[..i + 1]) == EntryMap(rows[..i])[rows[i].key.domain := rows[i]]
  {
    assert rows[..i + 1][..i] == rows[..i];
  }

  /** The first ancestor of `name` that the map lists. */
  function LongestListed(m: map<string, Entry>, name: string): (r: Option<Entry>)
    requires Dotted(name)
    decreases |name|
  {
    if name == "" then None
    else if name in m then Some(m[name])
    else
      ParentIsShorter(name);
      LongestListed(m, ParentDomain(name))
  }

  /** The walk finds the longest listed domain that covers the name, and finds one exactly when one is listed. */
  lemma {:induction false} WalkFindsLongestCover(m: map<string, Entry>, name: string)
    requires Dotted(name)
    ensures LongestListed(m, name).None? <==> forall d :: d in m && d != "" ==> !Covers(d, name)
    ensures LongestListed(m, name).Some? ==>
              exists d :: d in m && d != "" && Covers(d, name) && m[d] == LongestListed(m, name).value
                          && forall o :: o in m && o != "" && Covers(o, name) ==> |o| <= |d|
    decreases |name|
  {
    if name != "" {
      var p := ParentDomain(name);
      ParentIsShorter(name);
      forall d | d != ""
        ensures Covers(d, name) <==> d == name || Covers(d, p)
      {
        ParentCovers(d, name);
      }
      if name in m {
        assert Covers(name, name);
      } else {
        WalkFindsLongestCover(m, p);
      }
    }
  }
}
