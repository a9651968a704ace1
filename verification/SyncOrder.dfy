/** The order of the rules after a sync, from the tables before it, and exactly when that order decides like the primary's. */
module SyncOrder {
  import opened Text
  import opened Names
  import opened Tables
  import opened Policy
  import opened HASync
  import opened SyncTheorems

  /** What P asks for, rule by rule as it reads them. */
  function Asked(P: RuleTable): seq<Change<RuleKey, RuleData>> {
    RuleChanges(RulesView(P))
  }

  /** The keys P asks for in the order a sync gives them on S: those S holds in S's order, then the others as P first reads them. */
  ghost function ArrangedKeys(P: RuleTable, S: RuleTable): seq<RuleKey> {
    Within(KeyOrder(S), ChangedKeys(Asked(P))) + Outside(Firsts(ChangeOrder(Asked(P))), Keys(S))
  }

  /** The rule P asks for at a key. */
  function RuleAt(P: RuleTable, k: RuleKey): Rule {
    var d := Wanted(Asked(P), k);
    Row(0, k, if d.Some? then d.value else RuleData(false, ""), FreshRule(0))
  }

  /** P's rules as the secondary will hold them, up to ids, hits and times. */
  ghost function Arranged(P: RuleTable, S: RuleTable): seq<Rule> {
    var ks := ArrangedKeys(P, S);
    seq(|ks|, i requires 0 <= i < |ks| => RuleAt(P, ks[i]))
  }

  /** After a sync the rules stand in the arranged order: the keys the secondary held first, whatever the primary's order. */
  lemma {:induction false} SyncArranges(P: RuleTable, S: RuleTable, at: int)
    requires Valid(S) && OwnRules(S)
    ensures KeyOrder(SyncedRules(S, RulesView(P), at)) == ArrangedKeys(P, S)
  {
    RuleSyncIsExact(S, RulesView(P), at);
    hide RulesView, RuleChanges, Replace, SyncedRules, KeyOrder, Within, Outside, Firsts;
    ReplaceOrder(S, Asked(P), FreshRule(at));
  }

  lemma {:induction false} SyncedRow(P: RuleTable, S: RuleTable, at: int, i: nat)
    requires Valid(S) && OwnRules(S) && i < |SyncedRules(S, RulesView(P), at)|
    ensures var r := SyncedRules(S, RulesView(P), at)[i]; RuleAt(P, r.key) == Row(0, r.key, r.data, FreshRule(0))
  {
    var t := SyncedRules(S, RulesView(P), at);
    RuleSyncIsExact(S, RulesView(P), at);
    hide SyncedRules, RulesView, RuleChanges, Replace, Wanted;
    FindIn(t, i);
    ReplaceData(S, Asked(P), FreshRule(at), t[i].key);
  }

  /** The synced table is the arranged list, row by row. */
  lemma {:induction false} SyncedIsArranged(P: RuleTable, S: RuleTable, at: int)
    requires Valid(S) && OwnRules(S)
    ensures var t, a := SyncedRules(S, RulesView(P), at), Arranged(P, S);
            |t| == |a| && forall i :: 0 <= i < |a| ==> t[i].key == a[i].key && t[i].data == a[i].data
  {
    var t, ks := SyncedRules(S, RulesView(P), at), ArrangedKeys(P, S);
    SyncArranges(P, S, at);
    hide SyncedRules, ArrangedKeys, RulesView, RuleAt;
    forall i | 0 <= i < |ks|
      ensures t[i].key == ks[i] && RuleAt(P, ks[i]) == Row(0, ks[i], t[i].data, FreshRule(0))
    {
      assert KeyOrder(t)[i] == t[i].key;
      SyncedRow(P, S, at, i);
    }
  }

  /** For a primary whose targets are fixed points: its keys, those S holds in S's order, then the others in its own. */
  lemma {:induction false} FixpointsAreArranged(P: RuleTable, S: RuleTable)
    requires Valid(P) && CanonicalRules(P)
    ensures ArrangedKeys(P, S) == Within(KeyOrder(S), Keys(P)) + Outside(KeyOrder(RulesView(P)), Keys(S))
  {
    ExportAsksForRules(P);
    ViewDistinct(P);
    hide RuleChanges, RulesView, Within, Outside, Keys, ChangedKeys, Valid;
    assert ChangeOrder(Asked(P)) == KeyOrder(RulesView(P));
    DistinctAreFirsts(KeyOrder(RulesView(P)));
  }

  lemma {:induction false} DistinctAreFirsts<K>(ks: seq<K>)
    requires forall i, j :: 0 <= i < j < |ks| ==> ks[i] != ks[j]
    ensures Firsts(ks) == ks
  {
    if ks != [] {
      var n := |ks| - 1;
      DistinctAreFirsts(ks[..n]);
      assert ks == ks[..n] + [ks[n]] && ks[n] !in ks[..n];
    }
  }

  // ---------------------------------------------------------------- when the arranged rules decide alike

  lemma {:induction false} ArrangedNeverExpires(P: RuleTable, S: RuleTable)
    ensures NeverExpires(Arranged(P, S))
  {
    hide ArrangedKeys;
  }

  /** On the secondary the first arranged rule that applies decides. */
  lemma {:induction false} ArrangedDecides(P: RuleTable, S: RuleTable, at: int, qname: string, now: int)
    requires Valid(S) && OwnRules(S) && NeverExpires(S)
    ensures var f, g := FirstApplying(RulesView(SyncedRules(S, RulesView(P), at)), qname, now), FirstApplying(Arranged(P, S), qname, now);
            f.Some? == g.Some? && (f.Some? ==> f.value.key == g.value.key)
  {
    var t, a := SyncedRules(S, RulesView(P), at), Arranged(P, S);
    SyncedIsArranged(P, S, at);
    RuleSyncIsExact(S, RulesView(P), at);
    SyncedRulesNeverExpire(S, Asked(P), at);
    ArrangedNeverExpires(P, S);
    ViewDecidesByIdOrder(t, qname, now);
    hide SyncedRules, Arranged, RulesView, RuleChanges, Replace, FirstApplying, UpsertAll, NeverExpires;
    ScannedAlike(t, a, qname, now);
  }

  /** The first arranged rule that applies to the name has the action of the primary's. */
  ghost predicate OrderAgrees(P: RuleTable, S: RuleTable, qname: string, now: int) {
    var f, g := FirstApplying(P, qname, now), FirstApplying(Arranged(P, S), qname, now);
    f.Some? == g.Some? && (f.Some? ==> f.value.key.action == g.value.key.action)
  }

  lemma {:induction false} SyncedDecidesAsArranged(P: RuleTable, S: RuleTable, at: int, qname: string, now: int)
    requires Valid(P) && Valid(S) && OwnRules(S) && NeverExpires(S)
    ensures DecidedAlike(P, SyncedRules(S, RulesView(P), at), qname, now) <==> OrderAgrees(P, S, qname, now)
  {
    hide SyncedRules, Arranged, RulesView, FirstApplying, NeverExpires;
    ArrangedDecides(P, S, at, qname, now);
    ViewDecidesByIdOrder(P, qname, now);
  }

  /** The targets of the enabled rules, and what a sync makes of them. */
  ghost function RuleNames(P: RuleTable): set<string> {
    EnabledTargets(P) + set r | r in P && r.data.enabled && NormalizeName(r.key.target) != "" :: NormalizeName(r.key.target)
  }

  lemma {:induction false} AskedRule(P: RuleTable, k: RuleKey)
    requires k in ChangedKeys(Asked(P))
    ensures exists r :: r in P && r.data == RuleAt(P, k).data && NormalizeName(r.key.target) == k.target && k.target != ""
  {
    var cs, rs := Asked(P), RulesView(P);
    WantedIffChanged(cs, k);
    var c := Change(k, Wanted(cs, k).value);
    assert c in cs && RuleAt(P, k).data == c.data;
    hide RulesView, NormalizeName, Collect, ChangedKeys, Wanted, RuleAt, RuleChange;
    CollectedChange(rs, RuleChange, c);
    var i :| 0 <= i < |rs| && RuleChange(rs[i]) == Some(c);
    assert rs[i] in rs;
    ViewMember(P, rs[i]);
    AskingRule(rs[i], c);
  }

  lemma {:induction false} AskingRule(r: Rule, c: Change<RuleKey, RuleData>)
    requires RuleChange(r) == Some(c)
    ensures r.data == c.data && NormalizeName(r.key.target) == c.key.target && c.key.target != ""
  {
    hide NormalizeName, ToLower, TrimSpace;
  }

  lemma {:induction false} ArrangedWithin(P: RuleTable, S: RuleTable)
    ensures EnabledWithin(P, RuleNames(P)) && EnabledWithin(Arranged(P, S), RuleNames(P))
  {
    ChangeOrderMembers(Asked(P));
    hide RuleChanges, RulesView, NormalizeName, RuleAt, Firsts;
    var a, ks := Arranged(P, S), ArrangedKeys(P, S);
    forall r | r in a && r.data.enabled
      ensures r.key.target in RuleNames(P)
    {
      var i :| 0 <= i < |a| && a[i] == r;
      assert ks[i] in ks;
      AskedRule(P, ks[i]);
      assert RuleAt(P, ks[i]).key == ks[i] by { RuleAtKey(P, ks[i]); }
    }
  }

  lemma {:induction false} RuleAtKey(P: RuleTable, k: RuleKey)
    ensures RuleAt(P, k).key == k
  {
  }

  lemma {:induction false} AgreesSame(P: RuleTable, S: RuleTable, m: string, n: string, now: int)
    requires CoveredSame(RuleNames(P), m, n)
    ensures OrderAgrees(P, S, m, now) <==> OrderAgrees(P, S, n, now)
  {
    ArrangedWithin(P, S);
    hide Arranged, FirstApplying, EnabledWithin, CoveredSame, RuleNames;
    ScannedSame(P, RuleNames(P), m, n, now);
    ScannedSame(Arranged(P, S), RuleNames(P), m, n, now);
  }

  lemma {:induction false} AgreesUncovered(P: RuleTable, S: RuleTable, n: string, now: int)
    requires forall d :: d in RuleNames(P) ==> !Covers(d, n)
    ensures FirstApplying(P, n, now).None? && FirstApplying(Arranged(P, S), n, now).None?
  {
    ArrangedWithin(P, S);
    hide Arranged, FirstApplying, EnabledWithin, RuleNames, Covers;
    NoneScanned(P, RuleNames(P), n, now);
    NoneScanned(Arranged(P, S), RuleNames(P), n, now);
  }

  /**
   Whatever rules the primary holds, the two nodes decide every name alike after a sync if and only if, at each enabled
   rule's own target and at its normal form, the first arranged rule that covers it has the action of the primary's first:
   a question about the tables before the sync.
   */
  lemma {:induction false} SyncedNodesAgreeIff(P: RuleTable, S: RuleTable, at: int, now: int)
    requires Valid(P) && Valid(S) && OwnRules(S) && NeverExpires(S)
    ensures (forall qname :: DecidedAlike(P, SyncedRules(S, RulesView(P), at), qname, now)) <==>
            (forall d :: d in RuleNames(P) ==> OrderAgrees(P, S, d, now))
  {
    var t := SyncedRules(S, RulesView(P), at);
    hide SyncedRules, OrderAgrees, DecidedAlike, RulesView, NeverExpires, Valid, RuleNames, Covers;
    forall n
      ensures DecidedAlike(P, t, n, now) <==> OrderAgrees(P, S, n, now)
    {
      SyncedDecidesAsArranged(P, S, at, n, now);
    }
    if forall d :: d in RuleNames(P) ==> OrderAgrees(P, S, d, now) {
      forall n
        ensures OrderAgrees(P, S, n, now)
      {
        if e :| e in RuleNames(P) && Covers(e, n) {
          var d := Deepest(RuleNames(P), n, e);
          AgreesSame(P, S, n, d, now);
        } else {
          AgreesUncovered(P, S, n, now);
          UncoveredAgrees(P, S, n, now);
        }
      }
    }
  }

  lemma {:induction false} UncoveredAgrees(P: RuleTable, S: RuleTable, n: string, now: int)
    requires FirstApplying(P, n, now).None? && FirstApplying(Arranged(P, S), n, now).None?
    ensures OrderAgrees(P, S, n, now)
  {
    hide Arranged, FirstApplying;
  }
}
