/** The case of letters, and dots and blanks around a name, never change what is stored or matched. */
module Spellings {
  import opened Text
  import opened Names
  import opened Tables
  import opened Policy
  import opened HASync
  import opened Calls
  import C = Calls
  import opened Resolver

  /** Names that differ in the case of letters alone match the same rule and the same list entry. */
  lemma {:induction false} SpellingsMatchAlike(db: Database, a: string, b: string, now: int)
    requires SameButCase(a, b)
    ensures C.Answer(db, MatchRule(a, now, true)) == C.Answer(db, MatchRule(b, now, true))
    ensures C.Answer(db, MatchBlocklist(a, true)) == C.Answer(db, MatchBlocklist(b, true))
  {
    hide *;
    NormalizeDropsCase(a, b);
    MatchesNormalName(db, a, now);
    MatchesNormalName(db, b, now);
  }

  lemma {:induction false} MatchesNormalName(db: Database, name: string, now: int)
    ensures C.Answer(db, MatchRule(name, now, true)) == RuleMatch(FirstApplying(RulesView(db.rules), NormalizeName(name), now))
    ensures C.Answer(db, MatchBlocklist(name, true)) == EntryMatch(LongestListed(EntryMap(db.entries), NormalizeName(name)))
  {
    hide NormalizeName, FirstApplying, RulesView, LongestListed, EntryMap;
  }

  /** Queries for such names get the same decision; only a sinkhole reply repeats the name as it was asked. */
  lemma {:induction false} SpellingsDecideAlike(db: Database, q: Question, r: Question, now: int, seen: Seen, c: Config)
    requires SameButCase(q.name, r.name) && q.qtype == r.qtype
    ensures var o, o' := Decide(db, q, now, seen, c), Decide(db, r, now, seen, c);
            && o.action == o'.action && o.rule == o'.rule && o.source == o'.source && o.msg.rcode == o'.msg.rcode
            && (o.action != Blocked ==> o.msg == o'.msg)
  {
    hide *;
    SamePieces(db, q, r, now, c);
    DecidedBy(db, q, now, seen, c);
    DecidedBy(db, r, now, seen, c);
    VerdictByType(if seen.rules then Winner(db, q, now) else None, if seen.entries then Listed(db, q) else None,
                  if seen.statics then Statics(db, q, c) else [], q, r, seen.upstream, c);
  }

  lemma {:induction false} SamePieces(db: Database, q: Question, r: Question, now: int, c: Config)
    requires SameButCase(q.name, r.name) && q.qtype == r.qtype
    ensures Winner(db, q, now) == Winner(db, r, now) && Listed(db, q) == Listed(db, r) && Statics(db, q, c) == Statics(db, r, c)
  {
    NormalizeDropsCase(q.name, r.name);
    hide NormalizeName, SameButCase, FirstApplying, RulesView, LongestListed, EntryMap, StaticAnswers, StaticsView;
  }

  lemma {:induction false} VerdictByType(rule: Option<Match>, entry: Option<Entry>, answers: seq<Record>, q: Question,
                                         r: Question, upstream: Option<Msg>, c: Config)
    requires q.qtype == r.qtype
    ensures var o, o' := Verdict(rule, entry, answers, q, upstream, c), Verdict(rule, entry, answers, r, upstream, c);
            && o.action == o'.action && o.rule == o'.rule && o.source == o'.source && o.msg.rcode == o'.msg.rcode
            && (o.action != Blocked ==> o.msg == o'.msg)
  {
    hide Unblocked;
  }

  /** A spelling of the host: any case, blanks and single dots around it. */
  ghost predicate Spells(text: string, host: string) {
    && Trimmed(host) && IsLower(host) && host != "" && host[0] != '.' && host[|host| - 1] != '.'
    && exists before, lead, tail, after ::
         && AllBlank(before) && AllBlank(after) && MayBeDot(lead) && MayBeDot(tail)
         && SameButCase(text, before + lead + host + tail + after)
  }

  lemma {:induction false} SpelledName(text: string, host: string)
    requires Spells(text, host)
    ensures NormalizeName(text) == host + "."
  {
    hide NormalizeName, SameButCase;
    var before, lead, tail, after :|
      && AllBlank(before) && AllBlank(after) && MayBeDot(lead) && MayBeDot(tail)
      && SameButCase(text, before + lead + host + tail + after);
    DottedHost(lead, host, tail);
    NormalizeIs(before, lead, host, tail, after, text);
  }

  lemma {:induction false} CoversItself(host: string)
    ensures Covers(host, host)
  {
  }

  /** A rule added under any spelling of a host applies to every spelling of it, as long as it is live. */
  lemma {:induction false} RuleMeetsEverySpelling(host: string, target: string, asked: string, action: string,
                                                  r: Rule, now: int)
    requires Spells(target, host) && Spells(asked, host) && RuleArgs(target, action).Ok?
    requires r.key == RuleArgs(target, action).value && Live(r, now)
    ensures Applies(r, NormalizeName(asked), now)
  {
    SpelledName(target, host);
    SpelledName(asked, host);
    CoversItself(host + ".");
    hide Spells, NormalizeName, ToLower, TrimSpace, Covers, Live;
  }

  /** And to every name below it, at any depth. */
  lemma {:induction false} RuleMeetsNamesBelow(host: string, below: string, target: string, asked: string,
                                               action: string, r: Rule, now: int)
    requires Spells(target, host) && Spells(asked, below + "." + host) && RuleArgs(target, action).Ok?
    requires r.key == RuleArgs(target, action).value && Live(r, now)
    ensures Applies(r, NormalizeName(asked), now)
  {
    SpelledName(target, host);
    SpelledName(asked, below + "." + host);
    BelowCovers(below, host);
    hide Spells, NormalizeName, ToLower, TrimSpace, Covers, Live;
  }

  lemma {:induction false} BelowCovers(below: string, host: string)
    ensures Covers(host + ".", below + "." + host + ".")
  {
    var name, dotted := below + "." + host + ".", "." + (host + ".");
    assert name[|name| - |dotted|..] == dotted;
  }

  /** Actions, record types and names are taken in any case: the same rule, the same static record. */
  lemma {:induction false} SpellingsStoreAlike(target: string, target': string, action: string, action': string)
    requires SameButCase(target, target') && SameButCase(action, action')
    ensures RuleArgs(target, action) == RuleArgs(target', action')
  {
    NormalizeDropsCase(target, target');
    TrimSpaceKeepsCase(action, action');
    CaseIsDropped(TrimSpace(action), TrimSpace(action'));
    hide NormalizeName, TrimSpace, ToLower, SameButCase;
  }

  lemma {:induction false} RecordSpellings(id: int, k: StaticKey, k': StaticKey, d: StaticData, meta: int)
    requires SameButCase(k.name, k'.name) && SameButCase(k.rtype, k'.rtype)
    ensures StaticChange(Row(id, k, d, meta)) == StaticChange(Row(id, k', d, meta))
  {
    NormalizeDropsCase(k.name, k'.name);
    TrimSpaceKeepsCase(k.rtype, k'.rtype);
    CaseIsDropped(TrimSpace(k.rtype), TrimSpace(k'.rtype));
    hide NormalizeName, TrimSpace, ToUpper, SameButCase;
  }

  /** The record a host, a type and a value ask for: a TTL below one second becomes 60. */
  lemma {:induction false} RecordIs(name: string, host: string, rtype: string, upper: string, value: string, ttl: int,
                                    now: int)
    requires Spells(name, host) && SameButCase(rtype, upper) && IsUpper(upper) && Trimmed(upper) && upper != ""
    requires Trimmed(value) && value != ""
    ensures StaticChange(Row(0, StaticKey(name, rtype), StaticData(value, ttl), now)) ==
            Some(Change(StaticKey(host + ".", upper), StaticData(value, if ttl < 1 then 60 else ttl)))
  {
    SpelledName(name, host);
    TrimSpaceKeepsCase(rtype, upper);
    assert TrimSpace(upper) == upper && ToUpper(upper) == upper && TrimSpace(value) == value;
    hide TrimSpace;
    CaseIsDropped(TrimSpace(rtype), upper);
    hide NormalizeName, ToUpper, SameButCase, Spells;
  }
}
