/** Two paired nodes: the primary's push of its policy and the secondary's import of it, over their two stores. */
module Nodes {
  import opened Text
  import opened Tables
  import opened Policy
  import opened HASync
  import opened SyncTheorems
  import opened Calls
  import opened Stores

  /** What ValidateHAImportAllowed reads of the settings. */
  datatype Pairing = Pairing(enabled: bool, role: string)

  datatype Response = Imported | Forbidden | Refused(reply: Reply)

  /** haImport: only an enabled secondary takes a policy; every other node keeps its tables. */
  method HaImport(store: Store, pairing: Pairing, payload: Payload, now: int, txOk: bool) returns (r: Response)
    requires store.Valid()
    modifies store
    ensures store.Valid()
    ensures r == Forbidden <==> !pairing.enabled || pairing.role != "secondary"
    ensures r == Imported <==> r != Forbidden && txOk && Synced(old(store.db), payload, now, store.parse).Ok?
    ensures store.db == if r == Imported then Synced(old(store.db), payload, now, store.parse).value else old(store.db)
  {
    hide Synced, Sound;
    if !pairing.enabled {
      return Forbidden;
    }
    if pairing.role != "secondary" {
      return Forbidden;
    }
    var reply := store.ApplyHASyncPayload(payload, now, txOk);
    r := if reply == Done then Imported else Refused(reply);
  }

  // ---------------------------------------------------------------- the push

  /** What pushHASync reads of the primary's settings; the token is the decrypted one. */
  datatype Peer = Peer(enabled: bool, url: string, token: string)

  /** How far the request got: never handled, handled with its reply lost or unreadable, or answered. */
  datatype Network = Unreached | ReplyLost | Answered

  datatype Push = Disabled | Unconfigured | NotExported | Pushed | PushFailed

  /** S' is what an import of some export of P at that time makes of S. */
  ghost predicate ImportedFrom(P: Database, S: Database, S': Database, now: int, parse: URLParser) {
    exists p :: IsExport(p, P) && !Rejected(p.sources, parse) && S' == Synced(S, p, now, parse).value
  }

  /** The secondary makes the import: the push got as far as its handler, and nothing there refuses the policy or fails. */
  ghost predicate Applied(peer: Peer, queriesOk: bool, network: Network, pairing: Pairing, txOk: bool, P: Database, parse: URLParser) {
    && peer.enabled && peer.url != "" && peer.token != "" && queriesOk && network != Unreached
    && pairing.enabled && pairing.role == "secondary" && txOk && !Rejected(P.sources, parse)
  }

  /**
   pushHASync: success is reported exactly if the import is made and the reply to it arrives; the import is made exactly
   if nothing on the way to it fails, and otherwise the secondary keeps its tables. The primary always does.
   */
  method PushHASync(primary: Store, peer: Peer, presets: seq<Preset>, sources: seq<BlocklistSource>, queriesOk: bool,
                    network: Network, secondary: Store, pairing: Pairing, now: int, txOk: bool) returns (r: Push)
    requires primary != secondary && primary.Valid() && secondary.Valid()
    requires forall x :: x in presets <==> x.id in primary.db.presets && primary.db.presets[x.id] == x
    requires forall x :: x in sources <==> x in primary.db.sources
    modifies primary, secondary
    ensures primary.Valid() && secondary.Valid() && primary.db == old(primary.db)
    ensures r == Disabled <==> !peer.enabled
    ensures r == Unconfigured <==> peer.enabled && (peer.url == "" || peer.token == "")
    ensures r == NotExported <==> peer.enabled && peer.url != "" && peer.token != "" && !queriesOk
    ensures var applied := Applied(peer, queriesOk, network, pairing, txOk, old(primary.db), secondary.parse);
            && (r == Pushed <==> applied && network == Answered)
            && (if applied then ImportedFrom(old(primary.db), old(secondary.db), secondary.db, now, secondary.parse)
                else secondary.db == old(secondary.db))
  {
    hide *;
    AppliedParts(peer, queriesOk, network, pairing, txOk, primary.db, secondary.parse);
    if !peer.enabled {
      return Disabled;
    }
    if peer.url == "" || peer.token == "" {
      return Unconfigured;
    }
    var payload := primary.ExportHASyncPayload(presets, sources, queriesOk, queriesOk, queriesOk);
    if payload.Err? {
      return NotExported;
    }
    if network == Unreached {
      return PushFailed;
    }
    SameRejected(payload.value, primary.db, secondary.parse);
    ghost var before := secondary.db;
    var response := HaImport(secondary, pairing, payload.value, now, txOk);
    if response == Imported {
      Imports(payload.value, primary.db, before, secondary.db, now, secondary.parse);
    }
    r := if network == Answered && response == Imported then Pushed else PushFailed;
  }

  lemma {:induction false} AppliedParts(peer: Peer, queriesOk: bool, network: Network, pairing: Pairing, txOk: bool,
                                        P: Database, parse: URLParser)
    ensures Applied(peer, queriesOk, network, pairing, txOk, P, parse) <==>
            && peer.enabled && peer.url != "" && peer.token != "" && queriesOk && network != Unreached
            && pairing.enabled && pairing.role == "secondary" && txOk && !Rejected(P.sources, parse)
  {
    hide Rejected;
  }

  /** An export lists what the table holds, in some order, so the import refuses it for the same sources. */
  lemma {:induction false} SameRejected(p: Payload, P: Database, parse: URLParser)
    requires IsExport(p, P)
    ensures Rejected(p.sources, parse) <==> Rejected(P.sources, parse)
  {
    hide ValidSource, TrimSpace, RulesView;
    if Rejected(p.sources, parse) {
      var i :| 0 <= i < |p.sources| && TrimSpace(p.sources[i].key) != "" && !ValidSource(p.sources[i], parse);
      assert p.sources[i] in P.sources;
      var j :| 0 <= j < |P.sources| && P.sources[j] == p.sources[i];
    }
    if Rejected(P.sources, parse) {
      var i :| 0 <= i < |P.sources| && TrimSpace(P.sources[i].key) != "" && !ValidSource(P.sources[i], parse);
      assert P.sources[i] in p.sources;
      var j :| 0 <= j < |p.sources| && p.sources[j] == P.sources[i];
    }
  }

  lemma {:induction false} Imports(p: Payload, P: Database, S: Database, S': Database, now: int, parse: URLParser)
    requires IsExport(p, P) && !Rejected(p.sources, parse) && S' == Synced(S, p, now, parse).value
    ensures ImportedFrom(P, S, S', now, parse)
  {
    hide IsExport, Rejected, Synced;
  }

  /** What an import leaves: the primary's rules, static records and sources, key by key. */
  lemma {:induction false} ImportCarriesThePolicy(P: Database, S: Database, S': Database, now: int, parse: URLParser)
    requires ValidDatabase(P) && CanonicalPolicy(P)
    requires ValidDatabase(S) && OwnRules(S.rules) && !Collides(S.statics, Keys(P.statics)) && ImportedFrom(P, S, S', now, parse)
    ensures Image(S'.rules) == Image(P.rules) && Image(S'.statics) == Image(P.statics) && Image(S'.sources) == Image(P.sources)
    ensures RetentionDays(S'.retention) == RetentionDays(P.retention) && ValidDatabase(S') && OwnRules(S'.rules)
  {
    hide Synced, CanonicalPolicy, IsExport, Rejected, Image, ValidDatabase, OwnRules;
    var p :| IsExport(p, P) && !Rejected(p.sources, parse) && S' == Synced(S, p, now, parse).value;
    SyncIsAuthoritative(P, S, p, now, parse);
  }

  /**
   A push whose reply is lost reports a failure; the secondary has then changed, for every primary with a rule whose key,
   as the import writes it, the secondary does not hold.
   */
  method LostReply(primary: Store, peer: Peer, presets: seq<Preset>, sources: seq<BlocklistSource>, secondary: Store,
                   pairing: Pairing, now: int) returns (r: Push)
    requires primary != secondary && primary.Valid() && secondary.Valid()
    requires forall x :: x in presets <==> x.id in primary.db.presets && primary.db.presets[x.id] == x
    requires forall x :: x in sources <==> x in primary.db.sources
    requires Applied(peer, true, ReplyLost, pairing, true, primary.db, secondary.parse)
    requires exists k :: k in ChangedKeys(RuleChanges(RulesView(primary.db.rules))) && k !in Keys(secondary.db.rules)
    modifies primary, secondary
    ensures r == PushFailed && secondary.db != old(secondary.db)
    ensures ImportedFrom(old(primary.db), old(secondary.db), secondary.db, now, secondary.parse)
  {
    hide *;
    AppliedParts(peer, true, ReplyLost, pairing, true, primary.db, secondary.parse);
    ghost var P, S := primary.db, secondary.db;
    SoundStore(secondary);
    r := PushHASync(primary, peer, presets, sources, true, ReplyLost, secondary, pairing, now, true);
    NewRuleChanges(P, S, secondary.db, now, secondary.parse);
  }

  lemma {:induction false} SoundStore(s: Store)
    requires s.Valid()
    ensures ValidDatabase(s.db) && OwnRules(s.db.rules)
  {
  }

  lemma {:induction false} NewRuleChanges(P: Database, S: Database, S': Database, now: int, parse: URLParser)
    requires ValidDatabase(S) && OwnRules(S.rules) && ImportedFrom(P, S, S', now, parse)
    requires exists k :: k in ChangedKeys(RuleChanges(RulesView(P.rules))) && k !in Keys(S.rules)
    ensures S' != S
  {
    RuleSyncIsExact(S.rules, RulesView(P.rules), now);
    ReplaceKeepsValid(S.rules, RuleChanges(RulesView(P.rules)), FreshRule(now));
    hide Replace, RuleChanges, RulesView, SyncedRules, SyncedStatics, Keys, ChangedKeys, Rejected;
  }

  // ---------------------------------------------------------------- the retry

  lemma {:induction false} PresetFlag(P: Database, ps: seq<Preset>, id: string)
    requires forall x :: x in ps ==> x.id in P.presets && P.presets[x.id] == x
    ensures LastEnabled(ps, id).Some? ==> id in P.presets && LastEnabled(ps, id).value == P.presets[id].enabled
    ensures LastEnabled(ps, id).Some? <==> TrimSpace(id) != "" && exists i :: 0 <= i < |ps| && ps[i].id == id
  {
    hide TrimSpace;
    if ps != [] {
      var n := |ps| - 1;
      assert ps[n] in ps;
      assert forall x :: x in ps[..n] ==> x in ps;
      PresetFlag(P, ps[..n], id);
      if i :| 0 <= i < n && ps[..n][i].id == id {
        assert ps[i].id == id;
      }
      if i :| 0 <= i < |ps| && ps[i].id == id {
        assert i < n ==> ps[..n][i].id == id;
      }
    }
  }

  /** Two exports of one node ask for the same preset flags. */
  lemma {:induction false} SameFlags(p: Payload, q: Payload, P: Database, id: string)
    requires IsExport(p, P) && IsExport(q, P)
    ensures LastEnabled(p.presets, id) == LastEnabled(q.presets, id)
  {
    PresetFlag(P, p.presets, id);
    PresetFlag(P, q.presets, id);
    hide TrimSpace, LastEnabled, RulesView;
    if i :| 0 <= i < |p.presets| && p.presets[i].id == id {
      assert p.presets[i] in q.presets;
      var j :| 0 <= j < |q.presets| && q.presets[j] == p.presets[i];
    }
    if i :| 0 <= i < |q.presets| && q.presets[i].id == id {
      assert q.presets[i] in p.presets;
      var j :| 0 <= j < |p.presets| && p.presets[j] == q.presets[i];
    }
  }

  lemma {:induction false} SamePresetsAgain(m: map<string, Preset>, ps: seq<Preset>, qs: seq<Preset>)
    requires forall id :: LastEnabled(ps, id) == LastEnabled(qs, id)
    ensures SyncedPresets(SyncedPresets(m, ps), qs) == SyncedPresets(m, ps)
  {
    var once := SyncedPresets(m, ps);
    var twice := SyncedPresets(once, qs);
    forall id
      ensures id in twice <==> id in once
      ensures id in once ==> twice[id] == once[id]
    {
      PresetSync(m, ps, id);
      PresetSync(once, qs, id);
    }
  }

  /** Any two exports of one node ask for the same sources, trimmed and with a known format as they are stored. */
  lemma {:induction false} SameSourcesAsked(p: Payload, q: Payload, P: Database)
    requires ValidDatabase(P) && IsExport(p, P) && IsExport(q, P) && forall s :: s in P.sources ==> CanonicalSource(s)
    ensures WantedImage(SourceChanges(p.sources)) == WantedImage(SourceChanges(q.sources))
  {
    CanonicalSourceChanges(p.sources);
    CanonicalSourceChanges(q.sources);
    hide SourceChanges, StaticsView, RulesView, RetentionDays, Image, WantedImage;
    ListingAsksForImage(P.sources, p.sources, SourceChanges(p.sources));
    ListingAsksForImage(P.sources, q.sources, SourceChanges(q.sources));
  }

  lemma {:induction false} SameListings(p: Payload, q: Payload, P: Database)
    requires IsExport(p, P) && IsExport(q, P)
    ensures p.rules == q.rules && p.statics == q.statics
  {
    hide RulesView, StaticsView;
  }

  /**
   A push repeated after a lost reply, by a fresh export of the same tables, changes no row of the secondary, whatever
   both nodes hold.
   */
  lemma {:induction false} RetryChangesNothing(P: Database, S: Database, T: Database, U: Database, t1: int, t2: int,
                                               parse: URLParser)
    requires ValidDatabase(P) && forall s :: s in P.sources ==> CanonicalSource(s)
    requires ValidDatabase(S) && OwnRules(S.rules)
    requires ImportedFrom(P, S, T, t1, parse) && ImportedFrom(P, T, U, t2, parse)
    ensures U == T
  {
    var p :| IsExport(p, P) && !Rejected(p.sources, parse) && T == Synced(S, p, t1, parse).value;
    var q :| IsExport(q, P) && !Rejected(q.sources, parse) && U == Synced(T, q, t2, parse).value;
    hide Rejected, IsExport, CanonicalSource;
    SameListings(p, q, P);
    SameSourcesAsked(p, q, P);
    SameRetention(p, q, P);
    forall id
      ensures LastEnabled(p.presets, id) == LastEnabled(q.presets, id)
    {
      SameFlags(p, q, P, id);
    }
    RepeatedImport(S, T, p, q, t1, t2, parse);
  }

  /** A second import of a payload that differs only in the order of sources and presets. */
  lemma {:induction false} RepeatedImport(S: Database, T: Database, p: Payload, q: Payload, t1: int, t2: int,
                                          parse: URLParser)
    requires ValidDatabase(S) && OwnRules(S.rules) && !Rejected(p.sources, parse) && !Rejected(q.sources, parse)
    requires T == Synced(S, p, t1, parse).value
    requires p.rules == q.rules && p.statics == q.statics && p.retentionDays == q.retentionDays > 0
    requires WantedImage(SourceChanges(p.sources)) == WantedImage(SourceChanges(q.sources))
    requires forall id :: LastEnabled(p.presets, id) == LastEnabled(q.presets, id)
    ensures Synced(T, q, t2, parse).value == T
  {
    RuleSyncIsExact(S.rules, p.rules, t1);
    RuleSyncIsExact(T.rules, p.rules, t2);
    ReplaceTwice(S.rules, RuleChanges(p.rules), FreshRule(t1), FreshRule(t2));
    StaticSyncIsExact(S.statics, p.statics, t1);
    StaticSyncTwice(S.statics, p.statics, t1, t2);
    ReplaceKeepsValid(S.sources, SourceChanges(p.sources), FreshSource(t1));
    ReplaceImage(S.sources, SourceChanges(p.sources), FreshSource(t1));
    ReplaceStableIff(T.sources, SourceChanges(q.sources), FreshSource(t2));
    SamePresetsAgain(S.presets, p.presets, q.presets);
    SyncedEntriesValid(S, p, t1);
    hide Image, WantedImage, Replace, SyncedRules, SyncedStatics, SyncedPresets, RuleChanges, SourceChanges, Rejected;
    hide UpsertAll, Drop, OrphanedEntries;
    NothingOrphaned(T, q, t2);
  }

  lemma {:induction false} SyncedEntriesValid(S: Database, p: Payload, now: int)
    requires ValidDatabase(S)
    ensures var keep, up := ChangedKeys(SourceChanges(p.sources)), UpsertAll(S.sources, SourceChanges(p.sources), FreshSource(now));
            Valid(Drop(S.entries, OrphanedEntries(S.entries, up, keep)))
  {
    var keep, up := ChangedKeys(SourceChanges(p.sources)), UpsertAll(S.sources, SourceChanges(p.sources), FreshSource(now));
    DropKeepsValid(S.entries, OrphanedEntries(S.entries, up, keep));
  }

  lemma {:induction false} SameRetention(p: Payload, q: Payload, P: Database)
    requires IsExport(p, P) && IsExport(q, P)
    ensures p.retentionDays == q.retentionDays > 0
  {
    hide RulesView;
  }
}
