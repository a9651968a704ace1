/** What a host is called, as a fold over every identity update it ever received. */
module HostIdentity {
  import opened Text

  datatype Host = Host(hostname: string, mac: string, vendor: string, confidence: string)

  datatype Update = Update(hostname: string, mac: string, vendor: string, confidence: string)

  datatype Field = Hostname | Mac | Vendor

  const UNIFI := "unifi"
  const SOURCE_IP := "source_ip"

  // ---------------------------------------------------------------- cleaning

  function CleanHostname(value: string): string {
    var v := TrimSuffix(TrimSpace(value), ".");
    if v == "" || v == "?" || ToLower(v) == "unknown" then "" else ToLower(v)
  }

  /** strings.Split(s, ":") */
  function Split(s: string): seq<string>
    decreases |s|
  {
    var i := IndexAny(s, ":");
    if i == |s| then [s] else [s[..i]] + Split(s[i + 1..])
  }

  /** The parts with one digit padded to two and colons between, or none if some part has another length. */
  function JoinPadded(parts: seq<string>): Option<string> {
    if parts == [] then Some("") else
      var p := if |parts[0]| == 1 then "0" + parts[0] else parts[0];
      var rest := JoinPadded(parts[1..]);
      if |p| != 2 || rest.None? then None
      else Some(if |parts| == 1 then p else p + ":" + rest.value)
  }

  function NormalizeMAC(value: string): string {
    var v := TrimSpace(ToLower(value));
    var parts := Split(v);
    if v == "" || |parts| != 6 then "" else
      var joined := JoinPadded(parts);
      if joined.Some? then joined.value else ""
  }

  function Cleaned(u: Update): Update {
    Update(CleanHostname(u.hostname), NormalizeMAC(u.mac), TrimSpace(u.vendor), TrimSpace(u.confidence))
  }

  /** A host name in any case, between blanks and with or without a dot behind it, is kept in lower case. */
  lemma {:induction false} HostnameIs(before: string, host: string, tail: string, after: string, text: string)
    requires AllBlank(before) && AllBlank(after) && (tail == "" || tail == ".")
    requires Trimmed(host) && IsLower(host) && host != "" && host[|host| - 1] != '.' && host != "?" && host != "unknown"
    requires SameButCase(text, before + host + tail + after)
    ensures CleanHostname(text) == host
  {
    hide *;
    HostTailIsTrimmed(host, tail);
    var core, t := host + tail, TrimSpace(text);
    assert before + host + tail + after == before + core + after;
    TrimSpaceIs(before, core, after);
    TrimSpaceKeepsCase(text, before + core + after);
    WithoutDot(t, host, tail);
    CaseIsDropped(TrimSuffix(t, "."), host);
    KeptHostname(text, host);
  }

  lemma {:induction false} HostTailIsTrimmed(host: string, tail: string)
    requires Trimmed(host) && host != "" && (tail == "" || tail == ".")
    ensures Trimmed(host + tail)
  {
  }

  lemma {:induction false} KeptHostname(text: string, host: string)
    requires ToLower(TrimSuffix(TrimSpace(text), ".")) == ToLower(host) && IsLower(host)
    requires host != "" && host != "?" && host != "unknown"
    ensures CleanHostname(text) == host
  {
    hide TrimSpace, TrimSuffix, CleanHostname;
    var v := TrimSuffix(TrimSpace(text), ".");
    HostnameIsBlank(text);
    if v == "?" {
      NotLetter(v);
    }
  }

  lemma {:induction false} NotLetter(v: string)
    requires v == "?"
    ensures ToLower(v) == v
  {
  }

  lemma {:induction false} WithoutDot(t: string, host: string, tail: string)
    requires SameButCase(t, host + tail) && (tail == "" || tail == ".") && host != "" && host[|host| - 1] != '.'
    ensures SameButCase(TrimSuffix(t, "."), host)
  {
    var core, n := host + tail, |t| - 1;
    assert SameLetter(t[n], core[n]) && core[n] == if tail == "" then host[n] else '.';
    assert t[n..] == [t[n]];
    forall i | 0 <= i < |host| ensures SameLetter(t[i], host[i]) { assert SameLetter(t[i], core[i]) && core[i] == host[i]; }
    hide SameLetter;
  }

  /** What stands for no name. */
  lemma {:induction false} HostnameIsBlank(value: string)
    ensures CleanHostname(value) == "" <==>
            var v := TrimSuffix(TrimSpace(value), "."); v == "" || v == "?" || ToLower(v) == "unknown"
    ensures CleanHostname(value) != "" ==> CleanHostname(value) == ToLower(TrimSuffix(TrimSpace(value), "."))
  {
  }

  /** The parts with colons between. */
  function Colons(parts: seq<string>): string {
    if parts == [] then "" else if |parts| == 1 then parts[0] else parts[0] + [':'] + Colons(parts[1..])
  }

  function Padded(part: string): string {
    if |part| == 1 then "0" + part else part
  }

  lemma {:induction false} SplitOnce(p: string, rest: string, colon: char, colons: string)
    requires colon == ':' && colons == ":" && colon !in p
    ensures Split(p + [colon] + rest) == [p] + Split(rest)
  {
    var s := p + [colon] + rest;
    IndexAt(p, colon, rest, colons);
    hide IndexAny;
    assert s[..|p|] == p && s[|p| + 1..] == rest;
  }

  lemma {:induction false} SplitWhole(p: string)
    requires ':' !in p
    ensures Split(p) == [p]
  {
    assert forall i :: 0 <= i < |p| ==> p[i] !in ":";
  }

  lemma {:induction false} SplitIs(parts: seq<string>)
    requires parts != [] && forall i :: 0 <= i < |parts| ==> ':' !in parts[i]
    ensures Split(Colons(parts)) == parts
  {
    hide Split;
    if |parts| == 1 {
      SplitWhole(parts[0]);
    } else {
      SplitIs(parts[1..]);
      SplitOnce(parts[0], Colons(parts[1..]), ':', ":");
    }
  }

  lemma {:induction false} JoinPaddedIs(parts: seq<string>)
    requires parts != [] && forall i :: 0 <= i < |parts| ==> 1 <= |parts[i]| <= 2
    ensures JoinPadded(parts) == Some(Colons(seq(|parts|, i requires 0 <= i < |parts| => Padded(parts[i]))))
  {
    var padded := seq(|parts|, i requires 0 <= i < |parts| => Padded(parts[i]));
    if |parts| > 1 {
      JoinPaddedIs(parts[1..]);
      assert padded[1..] == seq(|parts| - 1, i requires 0 <= i < |parts| - 1 => Padded(parts[1..][i]));
    } else {
      assert JoinPadded(parts[1..]) == Some("");
    }
  }

  /** Six parts of one or two characters, in any case: each padded to two with a zero, in lower case, with colons between. */
  lemma {:induction false} MACIs(parts: seq<string>, value: string)
    requires |parts| == 6 && IsLower(Colons(parts)) && Trimmed(Colons(parts))
    requires forall i :: 0 <= i < 6 ==> 1 <= |parts[i]| <= 2 && ':' !in parts[i]
    requires SameButCase(value, Colons(parts))
    ensures NormalizeMAC(value) == Colons(seq(6, i requires 0 <= i < 6 => Padded(parts[i])))
  {
    hide *;
    SplitIs(parts);
    JoinPaddedIs(parts);
    CaseIsDropped(value, Colons(parts));
    SixColons(parts);
    MACOf(value, Colons(parts), parts);
    assert seq(6, i requires 0 <= i < 6 => Padded(parts[i])) == seq(|parts|, i requires 0 <= i < |parts| => Padded(parts[i]));
  }

  lemma {:induction false} SixColons(parts: seq<string>)
    requires |parts| == 6
    ensures Colons(parts) != ""
  {
  }

  lemma {:induction false} MACOf(value: string, v: string, parts: seq<string>)
    requires ToLower(value) == ToLower(v) && IsLower(v) && Trimmed(v) && v != ""
    requires Split(v) == parts && |parts| == 6 && JoinPadded(parts).Some?
    ensures NormalizeMAC(value) == JoinPadded(parts).value
  {
    hide Split, JoinPadded, TrimSpace, ToLower;
  }

  lemma {:induction false} JoinedLength(parts: seq<string>)
    requires JoinPadded(parts).Some?
    ensures |JoinPadded(parts).value| == if parts == [] then 0 else 3 * |parts| - 1
    ensures forall i :: 0 <= i < |parts| ==> 1 <= |parts[i]| <= 2
  {
    if parts != [] {
      JoinedLength(parts[1..]);
      assert |parts[0]| == 1 ==> |"0" + parts[0]| == 2;
      forall i | 0 <= i < |parts| ensures 1 <= |parts[i]| <= 2 { assert i > 0 ==> parts[1..][i - 1] == parts[i]; }
    }
  }

  /** Anything else is dropped: a MAC that is kept has 17 characters and came in six parts. */
  lemma {:induction false} MACShape(value: string)
    requires NormalizeMAC(value) != ""
    ensures |NormalizeMAC(value)| == 17
    ensures var parts := Split(TrimSpace(ToLower(value))); |parts| == 6 && forall i :: 0 <= i < 6 ==> 1 <= |parts[i]| <= 2
  {
    var parts := Split(TrimSpace(ToLower(value)));
    hide Split, ToLower, TrimSpace;
    JoinedLength(parts);
    hide JoinPadded;
  }

  // ---------------------------------------------------------------- merging

  function Get(h: Host, f: Field): string {
    match f case Hostname => h.hostname case Mac => h.mac case Vendor => h.vendor
  }

  function Told(u: Update, f: Field): string {
    match f case Hostname => u.hostname case Mac => u.mac case Vendor => u.vendor
  }

  function OrElse(value: string, current: string): string {
    if value == "" then current else value
  }

  /** CASE WHEN (column = '' OR confidence = 'unifi') AND value != '' THEN value ELSE column END */
  function Column(current: string, value: string, confidence: string): string {
    if (current == "" || confidence == UNIFI) && value != "" then value else current
  }

  /** Blanks in an update stand for the row's own values. */
  function Filled(h: Host, u: Update): Update {
    Update(OrElse(u.hostname, h.hostname), OrElse(u.mac, h.mac), OrElse(u.vendor, h.vendor), OrElse(u.confidence, h.confidence))
  }

  /** CASE WHEN confidence != '' AND (column = 'source_ip' OR confidence = 'unifi') THEN confidence ELSE column END */
  function Confidence(current: string, c: string): string {
    if c != "" && (current == SOURCE_IP || c == UNIFI) then c else current
  }

  /** The UPDATE statement. */
  function Written(h: Host, u: Update): Host {
    Host(Column(h.hostname, u.hostname, u.confidence), Column(h.mac, u.mac, u.confidence),
         Column(h.vendor, u.vendor, u.confidence), Confidence(h.confidence, u.confidence))
  }

  /** What an update, already cleaned, makes of a row. */
  function Merged(h: Host, u: Update): Host {
    Written(h, Filled(h, u))
  }

  /** A row of host_observations; `source` names the column the value is for. */
  datatype Observation = Observation(host: int, source: Field, value: string, at: int)

  /** One observation a field of `fs` that has a value. */
  function Observed(host: int, u: Update, fs: set<Field>, now: int): multiset<Observation> {
    ObservedField(host, u, Hostname, fs, now) + ObservedField(host, u, Mac, fs, now) + ObservedField(host, u, Vendor, fs, now)
  }

  function ObservedField(host: int, u: Update, f: Field, fs: set<Field>, now: int): multiset<Observation> {
    if f in fs && Told(u, f) != "" then multiset{Observation(host, f, Told(u, f), now)} else multiset{}
  }

  lemma {:induction false} ObservedNext(host: int, u: Update, fs: set<Field>, f: Field, now: int)
    requires f !in fs
    ensures Observed(host, u, fs + {f}, now) ==
            Observed(host, u, fs, now) + if Told(u, f) != "" then multiset{Observation(host, f, Told(u, f), now)} else multiset{}
  {
    ObservedFieldNext(host, u, Hostname, fs, f, now);
    ObservedFieldNext(host, u, Mac, fs, f, now);
    ObservedFieldNext(host, u, Vendor, fs, f, now);
    hide Told, ObservedField;
  }

  /** One observation of each value told, with the host and the time, and no other. */
  lemma {:induction false} ObservedIff(host: int, u: Update, now: int, o: Observation)
    ensures o in Observed(host, u, FIELDS, now) <==>
            && o.host == host && o.at == now && o.value != ""
            && o.value == match o.source case Hostname => u.hostname case Mac => u.mac case Vendor => u.vendor
    ensures Observed(host, u, FIELDS, now)[o] <= 1
  {
  }

  lemma {:induction false} NothingObserved(host: int, u: Update, now: int)
    ensures Observed(host, u, {}, now) == multiset{}
  {
  }

  lemma {:induction false} ObservedFieldNext(host: int, u: Update, g: Field, fs: set<Field>, f: Field, now: int)
    requires f !in fs
    ensures ObservedField(host, u, g, fs + {f}, now) ==
            ObservedField(host, u, g, fs, now) +
            if g == f && Told(u, f) != "" then multiset{Observation(host, f, Told(u, f), now)} else multiset{}
  {
    hide Told;
  }

  /** hosts, with the time of the last identity check beside each row, and host_observations */
  class Hosts {
    var rows: map<int, Host>
    var checked: map<int, int>
    var observations: multiset<Observation>

    constructor ()
      ensures rows == map[] && checked == map[] && observations == multiset{}
    {
      rows, checked, observations := map[], map[], multiset{};
    }

    /** INSERT OR IGNORE with the columns' defaults. */
    method EnsureHost(id: int)
      modifies this`rows
      ensures rows == if id in old(rows) then old(rows) else old(rows)[id := Unknown()]
    {
      if id !in rows {
        rows := rows[id := Unknown()];
      }
    }

    /** All of row, time and observations, or nothing. */
    method UpdateHostIdentity(id: int, update: Update, now: int, dbOk: bool) returns (ok: bool)
      modifies this
      ensures ok <==> dbOk && id in old(rows)
      ensures ok ==>
        var u := Update(CleanHostname(update.hostname), NormalizeMAC(update.mac), TrimSpace(update.vendor), TrimSpace(update.confidence));
        && rows == old(rows)[id := Merged(old(rows)[id], u)] && checked == old(checked)[id := now]
        && observations == old(observations) + Observed(id, Filled(old(rows)[id], u), FIELDS, now)
      ensures !ok ==> rows == old(rows) && checked == old(checked) && observations == old(observations)
    {
      hide CleanHostname, NormalizeMAC, TrimSpace, Written, Observed, Told;
      var u := Cleaned(update);
      if !dbOk || id !in rows {
        return false;
      }
      var current := rows[id];
      if u.hostname == "" {
        u := u.(hostname := current.hostname);
      }
      if u.mac == "" {
        u := u.(mac := current.mac);
      }
      if u.vendor == "" {
        u := u.(vendor := current.vendor);
      }
      if u.confidence == "" {
        u := u.(confidence := current.confidence);
      }
      rows := rows[id := Written(current, u)];
      checked := checked[id := now];
      Observe(id, u, now);
      ok := true;
    }

    /** Go visits the fields of the map in any order. */
    method Observe(host: int, u: Update, now: int)
      modifies this`observations
      ensures observations == old(observations) + Observed(host, u, FIELDS, now)
    {
      hide Observed, Told;
      var left, done: set<Field> := FIELDS, {};
      NothingObserved(host, u, now);
      while left != {}
        invariant done + left == FIELDS && done !! left
        invariant observations == old(observations) + Observed(host, u, done, now)
        decreases left
      {
        var f :| f in left;
        ObservedNext(host, u, done, f, now);
        if Told(u, f) != "" {
          observations := observations + multiset{Observation(host, f, Told(u, f), now)};
        }
        left, done := left - {f}, done + {f};
      }
      assert done == FIELDS;
    }
  }

  const FIELDS := {Hostname, Mac, Vendor}

  /** A row as EnsureHost inserts it. */
  function Unknown(): Host {
    Host("", "", "", SOURCE_IP)
  }

  function History(us: seq<Update>): Host {
    if us == [] then Unknown() else Merged(History(us[..|us| - 1]), us[|us| - 1])
  }

  // ---------------------------------------------------------------- the fold

  /** Whatever an update tells comes with a confidence. */
  predicate Attributed(u: Update) {
    u.hostname != "" || u.mac != "" || u.vendor != "" ==> u.confidence != ""
  }

  /** The last value a "unifi" update told, or "". */
  function LastUnifi(us: seq<Update>, f: Field): string {
    if us == [] then "" else
      var u := us[|us| - 1];
      if u.confidence == UNIFI && Told(u, f) != "" then Told(u, f) else LastUnifi(us[..|us| - 1], f)
  }

  /** The first value any update told, or "". */
  function FirstTold(us: seq<Update>, f: Field): string {
    if us == [] then "" else
      var before := FirstTold(us[..|us| - 1], f);
      if before != "" then before else Told(us[|us| - 1], f)
  }

  function Known(us: seq<Update>, f: Field): string {
    if LastUnifi(us, f) != "" then LastUnifi(us, f) else FirstTold(us, f)
  }

  /** The first confidence above "source_ip", unless some update was from "unifi". */
  function KnownConfidence(us: seq<Update>): string {
    if us == [] then SOURCE_IP else
      var before, c := KnownConfidence(us[..|us| - 1]), us[|us| - 1].confidence;
      if c == UNIFI || (before == SOURCE_IP && c != "") then c else before
  }

  /** One merge does to a field what the fold does, except when an update without confidence overwrites a "unifi" value. */
  lemma {:induction false} MergeStep(h: Host, u: Update, f: Field)
    ensures Get(Merged(h, u), f) == Column(Get(h, f), Told(u, f), u.confidence) <==>
            !(u.confidence == "" && h.confidence == UNIFI && Get(h, f) != "" && Told(u, f) != "" && Told(u, f) != Get(h, f))
  {
    hide *;
    MergedField(h, u, f);
    ColumnCases(Get(h, f), Told(u, f), u.confidence, h.confidence);
  }

  lemma {:induction false} MergedField(h: Host, u: Update, f: Field)
    ensures Get(Merged(h, u), f) == Column(Get(h, f), OrElse(Told(u, f), Get(h, f)), OrElse(u.confidence, h.confidence))
  {
    hide Column, OrElse, Confidence;
  }

  /** What one cleaned update makes of a row. */
  lemma {:induction false} MergedIs(h: Host, u: Update, f: Field)
    ensures Get(Merged(h, u), f) ==
            if Told(u, f) != "" && (Get(h, f) == "" || u.confidence == "unifi" || (u.confidence == "" && h.confidence == "unifi"))
            then Told(u, f) else Get(h, f)
    ensures Merged(h, u).confidence ==
            if u.confidence == "unifi" || (u.confidence != "" && h.confidence == "source_ip") then u.confidence else h.confidence
  {
    hide Merged, Get, Told;
    MergedField(h, u, f);
    MergedConfidence(h, u);
  }

  lemma {:induction false} ColumnCases(current: string, told: string, confidence: string, held: string)
    ensures Column(current, OrElse(told, current), OrElse(confidence, held)) == Column(current, told, confidence) <==>
            !(confidence == "" && held == UNIFI && current != "" && told != "" && told != current)
  {
  }

  /** Some earlier update was from "unifi". */
  predicate UnifiSeen(us: seq<Update>) {
    exists i :: 0 <= i < |us| && us[i].confidence == UNIFI
  }

  /** The last value told by an update from "unifi", or by one without a confidence after such an update; or "". */
  function LastOverwrite(us: seq<Update>, f: Field): string {
    if us == [] then "" else
      var before, u := us[..|us| - 1], us[|us| - 1];
      if Told(u, f) != "" && (u.confidence == UNIFI || (u.confidence == "" && UnifiSeen(before))) then Told(u, f)
      else LastOverwrite(before, f)
  }

  /** After any history each field is the last value that overwrites, if there is one, and else the first value told. */
  lemma {:induction false} HistoryIsAFold(us: seq<Update>, f: Field)
    ensures Get(History(us), f) == if LastOverwrite(us, f) != "" then LastOverwrite(us, f) else FirstTold(us, f)
    ensures LastOverwrite(us, f) != "" ==> FirstTold(us, f) != ""
  {
    if us != [] {
      var n := |us| - 1;
      var h := History(us[..n]);
      HistoryIsAFold(us[..n], f);
      UnifiIsNeverLeft(us[..n]);
      HistoryStep(us);
      MergedField(h, us[n], f);
      assert h.confidence == UNIFI <==> UnifiSeen(us[..n]);
      hide Merged, Told, Get, History, UnifiSeen, KnownConfidence;
    }
  }

  lemma {:induction false} AttributedOverwrites(us: seq<Update>, f: Field)
    requires forall i :: 0 <= i < |us| ==> Attributed(us[i])
    ensures LastOverwrite(us, f) == LastUnifi(us, f)
  {
    if us != [] {
      var n := |us| - 1;
      AttributedOverwrites(us[..n], f);
      assert Attributed(us[n]);
      assert Told(us[n], f) != "" ==> us[n].confidence != "";
      hide Told, UnifiSeen, Attributed;
    }
  }

  /**
   After any history of updates that name their source, each field is the last value "unifi" told, if it told one, and
   else the first value anyone told.
   */
  lemma {:induction false} IdentityIsAFold(us: seq<Update>, f: Field)
    requires forall i :: 0 <= i < |us| ==> Attributed(us[i])
    ensures Get(History(us), f) == Known(us, f)
  {
    hide *;
    HistoryIsAFold(us, f);
    AttributedOverwrites(us, f);
    KnownCases(us, f);
  }

  lemma {:induction false} KnownCases(us: seq<Update>, f: Field)
    ensures Known(us, f) == if LastUnifi(us, f) != "" then LastUnifi(us, f) else FirstTold(us, f)
  {
  }

  lemma {:induction false} HistoryStep(us: seq<Update>)
    requires us != []
    ensures History(us) == Merged(History(us[..|us| - 1]), us[|us| - 1])
  {
    hide Merged;
  }

  /** Whatever the updates tell, confidence "unifi" is reached exactly by a "unifi" update and never left. */
  lemma {:induction false} UnifiIsNeverLeft(us: seq<Update>)
    ensures History(us).confidence == KnownConfidence(us)
    ensures History(us).confidence == UNIFI <==> UnifiSeen(us)
  {
    hide Merged, UnifiSeen;
    UnifiSnoc(us);
    if us != [] {
      var n := |us| - 1;
      UnifiIsNeverLeft(us[..n]);
      MergedConfidence(History(us[..n]), us[n]);
    }
  }

  lemma {:induction false} UnifiSnoc(us: seq<Update>)
    ensures UnifiSeen(us) <==> us != [] && (us[|us| - 1].confidence == UNIFI || UnifiSeen(us[..|us| - 1]))
  {
    if us != [] {
      var n := |us| - 1;
      assert forall i :: 0 <= i < n ==> us[..n][i] == us[i];
    }
  }

  lemma {:induction false} MergedConfidence(h: Host, u: Update)
    ensures Merged(h, u).confidence ==
            if u.confidence == UNIFI || (h.confidence == SOURCE_IP && u.confidence != "") then u.confidence else h.confidence
  {
    hide Column;
    assert UNIFI != SOURCE_IP;
  }

  /** An update that names no source can replace what "unifi" told. */
  lemma {:induction false} UnattributedUpdateOverwrites(first: string, second: string)
    requires first != "" && second != "" && first != second
    ensures var us := [Update(first, "", "", UNIFI), Update(second, "", "", "")];
            Get(History(us), Hostname) == second && Known(us, Hostname) == first
  {
    var a, b := Update(first, "", "", UNIFI), Update(second, "", "", "");
    var one, us := [a], [a, b];
    assert one[..0] == [] && us[..1] == one;
    assert History(one) == Merged(Unknown(), a) && History(one) == Host(first, "", "", UNIFI);
    assert LastUnifi(one, Hostname) == first;
  }

  // ---------------------------------------------------------------- where updates come from

  /** EnrichHostIdentity's update, from what each lookup found. */
  function Enriched(ptr: string, arpHostname: string, mac: string, vendor: string, mdns: string): Update {
    var hostname := if ptr != "" then ptr else if arpHostname != "" then arpHostname else mdns;
    var named := if ptr != "" then "ptr" else if arpHostname != "" then "arp" else "";
    var addressed := if mac != "" && named == "" then "arp" else named;
    var confidence := if mdns != "" && ptr == "" && arpHostname == "" then "mdns" else addressed;
    Update(hostname, mac, if mac != "" then vendor else "", confidence)
  }

  /** The name of the first lookup that found one, told under that lookup's name; a vendor only with its MAC. */
  lemma {:induction false} EnrichedIs(ptr: string, arpHostname: string, mac: string, vendor: string, mdns: string)
    ensures var e := Enriched(ptr, arpHostname, mac, vendor, mdns);
            && e.mac == mac && (mac != "" ==> e.vendor == vendor) && (mac == "" ==> e.vendor == "")
            && (ptr != "" ==> e.hostname == ptr && e.confidence == "ptr")
            && (ptr == "" && arpHostname != "" ==> e.hostname == arpHostname && e.confidence == "arp")
            && (ptr == "" && arpHostname == "" && mdns != "" ==> e.hostname == mdns && e.confidence == "mdns")
            && (ptr == "" && arpHostname == "" && mdns == "" ==> e.hostname == "" && e.confidence == if mac != "" then "arp" else "")
  {
  }

  lemma {:induction false} CleaningAttributes(u: Update)
    requires Attributed(u) && Trimmed(u.confidence)
    ensures Attributed(Cleaned(u))
  {
    hide Split, JoinPadded, ToLower;
    assert CleanHostname(u.hostname) != "" ==> u.hostname != "";
    assert TrimSpace(u.vendor) != "" ==> u.vendor != "";
    if u.mac == "" { BlankMAC(u.mac); }
  }

  lemma {:induction false} BlankMAC(mac: string)
    requires mac == ""
    ensures NormalizeMAC(mac) == ""
  {
    hide Split, JoinPadded;
    assert ToLower(mac) == "";
  }

  /** Both callers name their source: the lookups, and the import, which always says "unifi". */
  lemma {:induction false} UpdatesAreAttributed(ptr: string, arpHostname: string, mac: string, vendor: string,
                                                mdns: string, imported: Update)
    requires imported.confidence == UNIFI
    ensures Attributed(Cleaned(Enriched(ptr, arpHostname, mac, vendor, mdns))) && Attributed(Cleaned(imported))
  {
    var e := Enriched(ptr, arpHostname, mac, vendor, mdns);
    assert Trimmed("ptr") && Trimmed("arp") && Trimmed("mdns") && Trimmed(UNIFI) && Trimmed("");
    assert Attributed(e) && Trimmed(e.confidence);
    hide Cleaned, Enriched, Trimmed;
    CleaningAttributes(e);
    CleaningAttributes(imported);
  }
}
