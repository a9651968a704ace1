/** A sync normalises names that were normalised when they were stored: exactly when that changes the policy. */
module SyncFixpoints {
  import opened Text
  import opened Names
  import opened Tables
  import opened Policy
  import opened HASync
  import opened SyncTheorems
  import opened Calls

  /** The shape of every stored name: a non-empty result of NormalizeName. */
  predicate Stored(name: string) {
    name != "" && name[|name| - 1] == '.' && IsLower(name)
  }

  ghost predicate StoredRules(t: RuleTable) {
    forall r :: r in t ==> OwnKey(r.key) && Stored(r.key.target)
  }

  predicate StoredStatic(r: StaticRecord) {
    && Stored(r.key.name)
    && r.key.rtype != "" && Trimmed(r.key.rtype) && IsUpper(r.key.rtype)
    && r.data.value != "" && Trimmed(r.data.value) && r.data.ttl > 0
  }

  ghost predicate StoredPolicy(db: Database) {
    && StoredRules(db.rules)
    && (forall r :: r in db.statics ==> StoredStatic(r))
    && (forall s :: s in db.sources ==> CanonicalSource(s))
  }

  /** What AddRule and UpsertStaticRecord store has that shape. */
  lemma {:induction false} ArgumentsAreStored(target: string, action: string, r: StaticRecord)
    ensures RuleArgs(target, action).Ok? ==> OwnKey(RuleArgs(target, action).value) && Stored(RuleArgs(target, action).value.target)
    ensures StaticChange(r).Some? ==> StoredStatic(Row(0, StaticChange(r).value.key, StaticChange(r).value.data, 0))
  {
    hide NormalizeName, ToLower, ToUpper, TrimSpace;
    if StaticChange(r).Some? {
      UpperKeepsBlanks(TrimSpace(r.key.rtype));
    }
  }

  lemma {:induction false} UpperKeepsBlanks(s: string)
    requires Trimmed(s)
    ensures Trimmed(ToUpper(s))
  {
    hide ToUpper;
    if s != "" {
      assert ToUpper(s)[0] == UpperChar(s[0]) && ToUpper(s)[|s| - 1] == UpperChar(s[|s| - 1]);
    }
  }

  /** Normalising a stored name again leaves it or shortens it. */
  lemma {:induction false} NormalizingShortens(name: string)
    requires Stored(name)
    ensures NormalizeName(name) == name || |NormalizeName(name)| < |name|
  {
    TrimLeftOnly(name);
    var t := TrimSpace(name);
    var low := ToLower(t);
    assert low[|low| - 1] == LowerChar(t[|t| - 1]) == '.';
    assert !IsSpace(name[0]) ==> t == name by { TrimmedStays(name); }
    hide TrimSpace;
    var n := Bare(name);
    assert n == low || n == low[1..];
    assert n != "" ==> EndsInDot(n);
  }

  lemma {:induction false} TrimmedStays(name: string)
    requires name != "" && !IsSpace(name[|name| - 1])
    ensures !IsSpace(name[0]) ==> TrimSpace(name) == name
  {
  }

  // ---------------------------------------------------------------- which keys survive

  /** A row whose own key the changes ask for. */
  predicate Survives<K(==), D, M>(r: Row<K, D, M>, ask: Row<K, D, M> -> Option<Change<K, D>>) {
    ask(r).Some? && ask(r).value.key == r.key
  }

  ghost predicate Shrinks<K, D, M>(t: Table<K, D, M>, ask: Row<K, D, M> -> Option<Change<K, D>>, size: K -> int) {
    forall r :: r in t && ask(r).Some? ==> ask(r).value.key == r.key || size(ask(r).value.key) < size(r.key)
  }

  lemma {:induction false} LargestLost<K, D, M>(t: Table<K, D, M>, ask: Row<K, D, M> -> Option<Change<K, D>>,
                                                size: K -> int, x: Row<K, D, M>) returns (w: Row<K, D, M>)
    requires x in t && !Survives(x, ask)
    ensures w in t && !Survives(w, ask) && forall r :: r in t && !Survives(r, ask) ==> size(r.key) <= size(w.key)
  {
    hide Survives;
    w := x;
    for i := 0 to |t|
      invariant w in t && !Survives(w, ask)
      invariant forall j :: 0 <= j < i && !Survives(t[j], ask) ==> size(t[j].key) <= size(w.key)
    {
      if !Survives(t[i], ask) && size(t[i].key) > size(w.key) {
        w := t[i];
      }
    }
  }

  lemma {:induction false} SameKeySameRow<K, D, M>(t: Table<K, D, M>, a: Row<K, D, M>, b: Row<K, D, M>)
    requires Valid(t) && a in t && b in t && a.key == b.key
    ensures a == b
  {
    var i :| 0 <= i < |t| && t[i] == a;
    var j :| 0 <= j < |t| && t[j] == b;
  }

  lemma {:induction false} LargestIsNotAskedFor<K, D, M>(t: Table<K, D, M>, rs: seq<Row<K, D, M>>,
                                                         ask: Row<K, D, M> -> Option<Change<K, D>>, size: K -> int,
                                                         w: Row<K, D, M>)
    requires Valid(t) && (forall r :: r in rs <==> r in t) && Shrinks(t, ask, size)
    requires w in t && !Survives(w, ask) && forall r :: r in t && !Survives(r, ask) ==> size(r.key) <= size(w.key)
    ensures w.key !in ChangedKeys(Collect(rs, ask)) && w.key in Keys(t)
  {
    var k :| 0 <= k < |t| && t[k] == w;
    assert t[k].key in Keys(t);
    forall i | 0 <= i < |rs| && ask(rs[i]).Some?
      ensures ask(rs[i]).value.key != w.key
    {
      assert rs[i] in rs;
      if rs[i].key == w.key {
        SameKeySameRow(t, rs[i], w);
      }
    }
    hide Keys, ChangedKeys, Collect;
    NobodyAsks(rs, ask, w.key);
  }

  lemma {:induction false} NobodyAsks<R, K, D>(rs: seq<R>, ask: R -> Option<Change<K, D>>, k: K)
    requires forall i :: 0 <= i < |rs| && ask(rs[i]).Some? ==> ask(rs[i]).value.key != k
    ensures k !in ChangedKeys(Collect(rs, ask))
  {
    hide Collect;
    if k in ChangedKeys(Collect(rs, ask)) {
      CollectedFrom(rs, ask, k);
    }
  }

  lemma {:induction false} AllAskedFor<K, D, M>(t: Table<K, D, M>, rs: seq<Row<K, D, M>>,
                                                ask: Row<K, D, M> -> Option<Change<K, D>>)
    requires (forall r :: r in rs <==> r in t) && forall r :: r in t ==> Survives(r, ask)
    ensures ChangedKeys(Collect(rs, ask)) == Keys(t)
  {
    forall i | 0 <= i < |rs|
      ensures ask(rs[i]).Some? && ask(rs[i]).value.key == rs[i].key
    {
      assert rs[i] in rs;
      assert Survives(rs[i], ask);
    }
    CollectFromAll(rs, ask);
    var cs := Collect(rs, ask);
    hide Collect, Survives;
    forall k | k in Keys(t)
      ensures k in ChangedKeys(cs)
    {
      var j :| 0 <= j < |t| && t[j].key == k;
      assert t[j] in rs;
      var i :| 0 <= i < |rs| && rs[i] == t[j];
      assert cs[i].key == k;
    }
    forall k | k in ChangedKeys(cs)
      ensures k in Keys(t)
    {
      var i :| 0 <= i < |cs| && cs[i].key == k;
      assert rs[i] in t;
      var j :| 0 <= j < |t| && t[j] == rs[i];
    }
  }

  /** If asking only ever shrinks a key, a listing asks for the table's own keys exactly if every row keeps its key. */
  lemma {:induction false} KeysSurviveIff<K, D, M>(t: Table<K, D, M>, rs: seq<Row<K, D, M>>,
                                                   ask: Row<K, D, M> -> Option<Change<K, D>>, size: K -> int)
    requires Valid(t) && (forall r :: r in rs <==> r in t) && Shrinks(t, ask, size)
    ensures ChangedKeys(Collect(rs, ask)) == Keys(t) <==> forall r :: r in t ==> Survives(r, ask)
  {
    hide Collect, Survives, Keys, ChangedKeys, Shrinks;
    if forall r :: r in t ==> Survives(r, ask) {
      AllAskedFor(t, rs, ask);
    } else {
      var x :| x in t && !Survives(x, ask);
      var w := LargestLost(t, ask, size, x);
      LargestIsNotAskedFor(t, rs, ask, size, w);
    }
  }

  // ---------------------------------------------------------------- rules and static records

  lemma {:induction false} RuleAsks(r: Rule)
    requires OwnKey(r.key)
    ensures RuleChange(r) == var n := NormalizeName(r.key.target);
                             if n == "" then None else Some(Change(RuleKey(GLOBAL, n, r.key.action), r.data))
    ensures r.key.scope == GLOBAL
  {
    ActionIsStable(r.key.action);
    hide NormalizeName, TrimSpace, ToLower;
  }

  lemma {:induction false} RuleSurvives(r: Rule)
    requires OwnKey(r.key) && Stored(r.key.target)
    ensures Survives(r, RuleChange) <==> Canonical(r.key.target)
    ensures RuleChange(r).Some? && !Survives(r, RuleChange) ==> |RuleChange(r).value.key.target| < |r.key.target|
  {
    NormalizingShortens(r.key.target);
    hide NormalizeName, RuleChange, OwnKey, IsLower;
    RuleAsks(r);
  }

  lemma {:induction false} StaticAsks(r: StaticRecord)
    requires StoredStatic(r)
    ensures StaticChange(r) == var n := NormalizeName(r.key.name);
                               if n == "" then None else Some(Change(StaticKey(n, r.key.rtype), r.data))
  {
    assert TrimSpace(r.key.rtype) == r.key.rtype && ToUpper(r.key.rtype) == r.key.rtype && TrimSpace(r.data.value) == r.data.value;
    hide NormalizeName, TrimSpace, ToUpper;
  }

  lemma {:induction false} StaticSurvives(r: StaticRecord)
    requires StoredStatic(r)
    ensures Survives(r, StaticChange) <==> Canonical(r.key.name)
    ensures StaticChange(r).Some? && !Survives(r, StaticChange) ==> |StaticChange(r).value.key.name| < |r.key.name|
  {
    NormalizingShortens(r.key.name);
    StaticAsks(r);
    hide NormalizeName, StaticChange, IsLower, Trimmed, IsUpper;
  }

  /** The rule keys come through a sync exactly if every target is a fixed point. */
  lemma {:induction false} RuleKeysSurviveIff(t: RuleTable)
    requires Valid(t) && StoredRules(t)
    ensures ChangedKeys(RuleChanges(RulesView(t))) == Keys(t) <==> forall r :: r in t ==> Canonical(r.key.target)
  {
    var rs := RulesView(t);
    forall r
      ensures r in rs <==> r in t
      ensures r in t ==> (Survives(r, RuleChange) <==> Canonical(r.key.target))
      ensures r in t && RuleChange(r).Some? && !Survives(r, RuleChange) ==> |RuleChange(r).value.key.target| < |r.key.target|
    {
      ViewMember(t, r);
      if r in t {
        RuleSurvives(r);
      }
    }
    hide RuleChange, RulesView, Canonical, Keys, ChangedKeys, Collect;
    var size := (k: RuleKey) => |k.target|;
    assert Shrinks(t, RuleChange, size);
    KeysSurviveIff(t, rs, RuleChange, size);
  }

  lemma {:induction false} FixpointsAreCanonical(db: Database)
    requires StoredPolicy(db)
    requires forall r :: r in db.rules ==> Canonical(r.key.target)
    requires forall r :: r in db.statics ==> Canonical(r.key.name)
    ensures CanonicalPolicy(db)
  {
    forall r | r in db.rules
      ensures CanonicalRule(r)
    {
      CanonicalShape(r.key.target);
    }
    forall r | r in db.statics
      ensures CanonicalStatic(r)
    {
      CanonicalShape(r.key.name);
    }
  }

  /** A stored name that is no fixed point starts with a dot or a blank, and no fixed point does. */
  lemma {:induction false} FixpointsStartOtherwise(name: string, fixed: string)
    requires Stored(name) && !Canonical(name) && Stored(fixed) && Canonical(fixed)
    ensures name[0] != fixed[0]
  {
    CanonicalShape(name);
    CanonicalShape(fixed);
    hide Canonical, IsLower;
  }

  function TextLength(k: StaticKey): int {
    |k.name| + |k.rtype|
  }

  lemma {:induction false} SameTextSameStart(a: StaticKey, b: StaticKey)
    requires KeepText(a) == KeepText(b) && a.name != "" && b.name != ""
    ensures a.name[0] == b.name[0] && TextLength(a) == TextLength(b)
  {
    assert KeepText(a)[0] == a.name[0] && KeepText(b)[0] == b.name[0];
    assert |KeepText(a)| == TextLength(a) + 1 && |KeepText(b)| == TextLength(b) + 1;
  }

  /** The longest key that does not survive has the joined text of no key that is asked for. */
  lemma {:induction false} LongestLostIsNotHidden(t: StaticTable, rs: seq<StaticRecord>, w: StaticRecord, c: StaticKey)
    requires (forall r :: r in t ==> StoredStatic(r)) && (forall r :: r in rs <==> r in t)
    requires w in t && !Survives(w, StaticChange)
    requires forall r :: r in t && !Survives(r, StaticChange) ==> TextLength(r.key) <= TextLength(w.key)
    requires c in ChangedKeys(StaticChanges(rs))
    ensures KeepText(c) != KeepText(w.key)
  {
    CollectedFrom(rs, StaticChange, c);
    var i :| 0 <= i < |rs| && StaticChange(rs[i]).Some? && StaticChange(rs[i]).value.key == c;
    var r := rs[i];
    assert r in rs;
    StaticSurvives(w);
    StaticSurvives(r);
    StaticAsks(r);
    assert Stored(r.key.name) && Stored(w.key.name) && c.name != "";
    hide Collect, ChangedKeys, StaticChange, NormalizeName, Canonical, KeepText, StoredStatic;
    if KeepText(c) == KeepText(w.key) {
      SameTextSameStart(c, w.key);
      if Survives(r, StaticChange) {
        FixpointsStartOtherwise(w.key.name, r.key.name);
      }
    }
  }

  lemma {:induction false} LostKeyIsMissing(t: StaticTable, u: StaticTable, rs: seq<StaticRecord>, now: int,
                                            x: StaticRecord)
    requires Valid(t) && Valid(u) && (forall r :: r in t ==> StoredStatic(r)) && forall r :: r in rs <==> r in t
    requires x in t && !Survives(x, StaticChange)
    ensures Keys(SyncedStatics(u, rs, now)) != Keys(t)
  {
    forall r | r in t && StaticChange(r).Some? && !Survives(r, StaticChange)
      ensures TextLength(StaticChange(r).value.key) < TextLength(r.key)
    {
      StaticSurvives(r);
      StaticAsks(r);
    }
    hide StaticChange, StoredStatic, Collect, ChangedKeys, SyncedStatics, KeepText, KeepTexts, Keys;
    assert Shrinks(t, StaticChange, TextLength);
    var w := LargestLost(t, StaticChange, TextLength, x);
    LargestIsNotAskedFor(t, rs, StaticChange, TextLength, w);
    SyncedStaticsData(u, rs, now, w.key);
    if KeepText(w.key) in KeepTexts(StaticChanges(rs)) {
      var c := TextOf(StaticChanges(rs), KeepText(w.key));
      LongestLostIsNotHidden(t, rs, w, c);
    }
  }

  lemma {:induction false} TextOf(cs: seq<Change<StaticKey, StaticData>>, text: string) returns (c: StaticKey)
    requires text in KeepTexts(cs)
    ensures c in ChangedKeys(cs) && KeepText(c) == text
  {
    c :| c in ChangedKeys(cs) && KeepText(c) == text;
  }

  lemma {:induction false} FixedStaticsAskForThemselves(t: StaticTable, rs: seq<StaticRecord>)
    requires Valid(t) && (forall r :: r in t ==> StoredStatic(r)) && (forall r :: r in rs <==> r in t)
    requires forall r :: r in t ==> Canonical(r.key.name)
    ensures ChangedKeys(StaticChanges(rs)) == Keys(t) && WantedImage(StaticChanges(rs)) == Image(t)
  {
    forall r | r in rs
      ensures CanonicalStatic(r)
    {
      CanonicalShape(r.key.name);
    }
    CanonicalStaticChanges(rs);
    ListingAsksForImage(t, rs, StaticChanges(rs));
  }

  /** The static records come through a sync exactly if every name is a fixed point and no stale record collides. */
  lemma {:induction false} StaticsSurviveIff(t: StaticTable, u: StaticTable, rs: seq<StaticRecord>, now: int)
    requires Valid(t) && Valid(u) && (forall r :: r in t ==> StoredStatic(r)) && forall r :: r in rs <==> r in t
    ensures Image(SyncedStatics(u, rs, now)) == Image(t) <==> (forall r :: r in t ==> Canonical(r.key.name)) && !Collides(u, Keys(t))
  {
    StaticSyncIsExact(u, rs, now);
    ReplaceImage(u, StaticChanges(rs), now);
    ImageKeys(t);
    ImageKeys(SyncedStatics(u, rs, now));
    hide SyncedStatics, StaticChanges, Replace, Image, Keys, Collides, Canonical, StoredStatic, WantedImage;
    hide ChangedKeys;
    if forall r :: r in t ==> Canonical(r.key.name) {
      FixedStaticsAskForThemselves(t, rs);
    } else {
      var x :| x in t && !Canonical(x.key.name);
      StaticSurvives(x);
      LostKeyIsMissing(t, u, rs, now, x);
    }
  }

  /**
   For any policy as the calls store it: a sync brings the secondary to the primary's rules, static records and sources
   if and only if every rule target and every static name is a fixed point of NormalizeName and no stale static record
   has the joined text of one of the primary's.
   */
  lemma {:induction false} PolicyCarriesOverIff(P: Database, S: Database, p: Payload, now: int, parse: URLParser)
    requires ValidDatabase(P) && StoredPolicy(P) && IsExport(p, P)
    requires ValidDatabase(S) && OwnRules(S.rules) && !Rejected(p.sources, parse)
    ensures var S' := Synced(S, p, now, parse).value;
            (Image(S'.rules) == Image(P.rules) && Image(S'.statics) == Image(P.statics) && Image(S'.sources) == Image(P.sources)) <==>
            && (forall r :: r in P.rules ==> Canonical(r.key.target))
            && (forall r :: r in P.statics ==> Canonical(r.key.name)) && !Collides(S.statics, Keys(P.statics))
  {
    var S' := Synced(S, p, now, parse).value;
    assert S'.rules == SyncedRules(S.rules, p.rules, now) && S'.statics == SyncedStatics(S.statics, p.statics, now);
    RuleSyncIsExact(S.rules, p.rules, now);
    ReplaceKeepsValid(S.rules, RuleChanges(p.rules), FreshRule(now));
    RuleKeysSurviveIff(P.rules);
    forall r ensures r in p.statics <==> r in P.statics { ListedMember(P.statics, r); }
    hide StaticsView;
    StaticsSurviveIff(P.statics, S.statics, p.statics, now);
    ImageKeys(S'.rules);
    ImageKeys(P.rules);
    hide Synced, SyncedRules, SyncedStatics, Replace, RuleChanges, StaticChanges, Canonical, Image, Keys, ChangedKeys;
    hide StoredStatic, StoredRules, Collides;
    if
      && (forall r :: r in P.rules ==> Canonical(r.key.target))
      && (forall r :: r in P.statics ==> Canonical(r.key.name)) && !Collides(S.statics, Keys(P.statics))
    {
      FixpointsAreCanonical(P);
      SyncIsAuthoritative(P, S, p, now, parse);
    }
  }

  // ---------------------------------------------------------------- a rule that a sync widens

  lemma {:induction false} RenamedRule(r: Rule, wide: string)
    requires OwnKey(r.key) && NormalizeName(r.key.target) == wide && wide != ""
    ensures RuleChanges([r]) == [Change(RuleKey(GLOBAL, wide, r.key.action), r.data)]
  {
    hide NormalizeName, RuleChange, OwnKey, Collect;
    RuleAsks(r);
    CollectFromAll([r], RuleChange);
  }

  lemma {:induction false} Widened(k: RuleKey, wide: string, now: int, at: int)
    requires OwnKey(k) && NormalizeName(k.target) == wide && wide != "" && |k.target| > |wide|
    ensures var P := AddRuleTo([], k, "", now);
            FirstApplying(P, wide, at).None? && FirstApplying(SyncedRules([], RulesView(P), now), wide, at).Some?
  {
    hide *;
    AddedToNone(k, now);
    var r := Row(1, k, RuleData(true, ""), FreshRule(now));
    OneRuleView(r);
    RenamedRule(r, wide);
    SyncOfOne(r, wide, now, at);
    NarrowRule(r, wide, at);
  }

  /**
   AddRule stores "..com" as ".com."; a sync writes "com." for it on the secondary, and so decides a domain there that
   the primary's rule does not cover. So for every name with two leading dots.
   */
  lemma {:induction false} DoubleDotRuleWidens(name: string, action: string, now: int, at: int)
    returns (k: RuleKey, wide: string)
    requires |name| > 2 && name[0] == '.' && name[1] == '.' && name[2] != '.'
    requires IsLower(name) && !IsSpace(name[|name| - 1]) && !EndsInDot(name) && !IsSpace(name[2])
    requires action == "block" || action == "allow"
    ensures RuleArgs(name, action) == Ok(k) && wide == name[2..] + "." && Clean(wide)
    ensures var P := AddRuleTo([], k, "", now);
            FirstApplying(P, wide, at).None? && FirstApplying(SyncedRules([], RulesView(P), now), wide, at).Some?
  {
    hide *;
    var once := NormalizeName(name);
    NormalizeIsNotIdempotent(name, once);
    wide := once[1..];
    WideIsClean(name, name[2..] + ".");
    assert wide == name[2..] + ".";
    DottedArgs(name, action);
    k := RuleKey(GLOBAL, once, action);
    Widened(k, wide, now, at);
  }

  lemma {:induction false} WideIsClean(name: string, wide: string)
    requires |name| > 2 && name[2] != '.' && IsLower(name) && !IsSpace(name[2]) && wide == name[2..] + "."
    ensures Clean(wide)
  {
  }

  lemma {:induction false} DottedArgs(name: string, action: string)
    requires NormalizeName(name) != "" && (action == "block" || action == "allow")
    ensures RuleArgs(name, action) == Ok(RuleKey(GLOBAL, NormalizeName(name), action)) && OwnKey(RuleArgs(name, action).value)
  {
    ActionIsStable(action);
    hide NormalizeName, TrimSpace, ToLower;
  }

  lemma {:induction false} AddedToNone(k: RuleKey, now: int)
    ensures AddRuleTo([], k, "", now) == [Row(1, k, RuleData(true, ""), FreshRule(now))]
  {
  }

  lemma {:induction false} OneRuleView(r: Rule)
    requires r.data.enabled
    ensures RulesView([r]) == [r]
  {
    var none: seq<Rule> := [];
    assert [r][1..] == none && WithEnabled(none, true) == none && WithEnabled(none, false) == none;
    assert WithEnabled([r], true) == [r] + none && WithEnabled([r], false) == none + none;
  }

  lemma {:induction false} NarrowRule(r: Rule, wide: string, at: int)
    requires |r.key.target| > |wide|
    ensures FirstApplying([r], wide, at).None?
  {
    assert [r][0] == r;
  }

  lemma {:induction false} SyncOfOne(r: Rule, wide: string, now: int, at: int)
    requires r.data.enabled && OwnKey(r.key) && RuleChanges([r]) == [Change(RuleKey(GLOBAL, wide, r.key.action), r.data)]
    ensures FirstApplying(SyncedRules([], [r], now), wide, at).Some?
  {
    var none: RuleTable := [];
    RuleSyncIsExact(none, [r], now);
    ReplaceByNewKeys(none, RuleChanges([r]), FreshRule(now));
    hide SyncedRules, RuleChanges, Replace;
    var t := SyncedRules(none, [r], now);
    assert Applies(t[0], wide, at);
  }
}
