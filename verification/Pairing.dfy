/**
 Pairing of a primary with secondaries: the join-request list, the accept handler's ordered effects on two nodes, and
 what holds in every interleaving of handlers that may crash between any two steps. The list is one JSON text in the
 settings table: a change reads it in one statement and writes it back in another.
 */
module Pairing {
  import opened Text

  datatype Status = Pending | Accepted

  /** `token` is the encrypted token of the node that asks. */
  datatype Request = Request(id: int, url: string, name: string, token: string, status: Status)

  /** What the settings table remembers of a peer. */
  datatype Settings = Settings(enabled: bool, role: string, peerName: string, peerURL: string, peerToken: string)

  datatype Problem =
    | NotSecondary | URLRequired | BadURL | TokenRequired
    | NotFound | NotPending | TokenUnavailable
    | PeerFailed | DatabaseError

  // ---------------------------------------------------------------- peer URLs

  /** strings.TrimRight(s, "/") */
  function TrimSlashes(s: string): (r: string)
    ensures r <= s && (r != "" ==> r[|r| - 1] != '/')
    ensures s == "" || s[|s| - 1] != '/' ==> r == s
    ensures forall i :: |r| <= i < |s| ==> s[i] == '/'
  {
    if s != "" && s[|s| - 1] == '/' then TrimSlashes(s[..|s| - 1]) else s
  }

  function CleanURL(url: string): string {
    TrimSlashes(TrimSpace(url))
  }

  /** Blanks around a URL and the slashes behind it go, and nothing of the URL. */
  lemma {:induction false} CleanURLIs(before: string, url: string, slashes: string, after: string)
    requires AllBlank(before) && AllBlank(after) && Trimmed(url + slashes)
    requires (forall i :: 0 <= i < |slashes| ==> slashes[i] == '/') && (url != "" ==> url[|url| - 1] != '/')
    ensures CleanURL(before + url + slashes + after) == url
  {
    assert before + url + slashes + after == before + (url + slashes) + after;
    TrimSpaceIs(before, url + slashes, after);
    var all, cut := url + slashes, TrimSlashes(url + slashes);
    hide TrimSlashes, TrimSpace, AllBlank, Trimmed;
    assert url != "" ==> all[|url| - 1] != '/';
    assert forall i :: |url| <= i < |all| ==> all[i] == '/';
    assert cut == all[..|cut|] && |cut| == |url|;
    assert cut == all[..|url|];
  }

  /** A second cleaning changes a URL exactly when the first one uncovers a blank behind the slashes. */
  lemma {:induction false} CleanURLTwice(url: string)
    ensures CleanURL(CleanURL(url)) == CleanURL(url) <==> CleanURL(url) == "" || !IsSpace(CleanURL(url)[|CleanURL(url)| - 1])
  {
    var t, u := TrimSpace(url), CleanURL(url);
    if u != "" {
      assert u[0] == t[0];
      if IsSpace(u[|u| - 1]) {
        assert !Trimmed(u);
        TrimSpaceShortens(u);
      }
    }
  }

  lemma {:induction false} TrimSpaceShortens(s: string)
    requires !Trimmed(s)
    ensures |TrimSpace(s)| < |s|
  {
  }

  // ---------------------------------------------------------------- the list

  ghost predicate Distinct(list: seq<Request>) {
    forall i, j :: 0 <= i < j < |list| ==> list[i].id != list[j].id
  }

  /** No node waits twice. */
  ghost predicate OnePendingEach(list: seq<Request>) {
    forall i, j :: 0 <= i < j < |list| && list[i].status == Pending && list[j].status == Pending ==> list[i].url != list[j].url
  }

  /** The position of the request a new one of the same node replaces, or |list|. */
  function PendingAt(list: seq<Request>, url: string): (i: nat)
    ensures i <= |list|
    ensures i < |list| ==> list[i].url == url && list[i].status == Pending
    ensures forall j :: 0 <= j < i ==> !(list[j].url == url && list[j].status == Pending)
  {
    if list == [] || (list[0].url == url && list[0].status == Pending) then 0 else 1 + PendingAt(list[1..], url)
  }

  function IndexOf(list: seq<Request>, id: int): (i: nat)
    ensures i <= |list|
    ensures i < |list| ==> list[i].id == id
    ensures forall j :: 0 <= j < i ==> list[j].id != id
  {
    if list == [] || list[0].id == id then 0 else 1 + IndexOf(list[1..], id)
  }

  function Joined(list: seq<Request>, r: Request): seq<Request> {
    var i := PendingAt(list, r.url);
    if i < |list| then list[i := r.(id := list[i].id)] else list + [r]
  }

  /** What HAJoinRequestForAccept finds. */
  function Lookup(list: seq<Request>, id: int, decrypt: string -> string): Result<Request, Problem> {
    var i := IndexOf(list, id);
    if i == |list| then Err(NotFound)
    else if list[i].status != Pending then Err(NotPending)
    else if decrypt(list[i].token) == "" then Err(TokenUnavailable)
    else Ok(list[i])
  }

  function Marked(list: seq<Request>, id: int): Result<seq<Request>, Problem> {
    var i := IndexOf(list, id);
    if i == |list| then Err(NotFound)
    else if list[i].status != Pending then Err(NotPending)
    else Ok(list[i := list[i].(status := Accepted)])
  }

  /** The first pending request of the node. */
  predicate IsWaiting(list: seq<Request>, url: string, i: int) {
    && 0 <= i < |list| && list[i].url == CleanURL(url) && list[i].status == Pending
    && forall j :: 0 <= j < i ==> list[j].url != CleanURL(url) || list[j].status != Pending
  }

  /** The request takes the place and the id of the waiting one of its node, or is appended under the new id. */
  ghost predicate Joins(was: seq<Request>, now: seq<Request>, url: string, newId: int, r: Request) {
    || (exists i :: IsWaiting(was, url, i) && r.id == was[i].id && now == was[i := r])
    || ((forall i :: !IsWaiting(was, url, i)) && r.id == newId && now == was + [r])
  }

  lemma {:induction false} JoinedJoins(was: seq<Request>, url: string, newId: int, made: Request)
    requires made.url == CleanURL(url) && made.id == newId
    ensures var i, now := PendingAt(was, made.url), Joined(was, made);
            Joins(was, now, url, newId, if i < |was| then now[i] else made)
  {
    hide CleanURL;
    var i := PendingAt(was, made.url);
    if i < |was| {
      assert IsWaiting(was, url, i);
    }
  }

  lemma {:induction false} RoleIff(role: string, word: string)
    requires word == "secondary"
    ensures ToLower(TrimSpace(role)) == word <==> SameButCase(TrimSpace(role), word)
    ensures ToLower(TrimSpace(role)) == "" <==> TrimSpace(role) == ""
  {
    assert ToLower(word) == word by { assert IsLower(word); }
    hide TrimSpace, SameButCase;
    SameButCaseIff(TrimSpace(role), word);
  }

  /** The first request with the id. */
  predicate IsAt(list: seq<Request>, id: int, i: int) {
    0 <= i < |list| && list[i].id == id && forall j :: 0 <= j < i ==> list[j].id != id
  }

  datatype Input = Input(name: string, url: string, role: string, token: string)

  /** The request an input asks for, or why it is refused. */
  function JoinArgs(input: Input, newId: int, encrypt: string -> string, parses: string -> bool): Result<Request, Problem> {
    var name, url, role, token := TrimSpace(input.name), CleanURL(input.url), ToLower(TrimSpace(input.role)), TrimSpace(input.token);
    if role != "" && role != "secondary" then Err(NotSecondary)
    else if url == "" then Err(URLRequired)
    else if !parses(url) then Err(BadURL)
    else if token == "" then Err(TokenRequired)
    else Ok(Request(newId, url, if name == "" then "TM-DNS Secondary" else name, encrypt(token), Pending))
  }

  /** A role that is given is "secondary" in some case; after it the URL is looked at, and the token last. */
  lemma {:induction false} JoinRefusals(input: Input, newId: int, encrypt: string -> string, parses: string -> bool,
                                        word: string)
    requires word == "secondary"
    ensures var args, url := JoinArgs(input, newId, encrypt, parses), CleanURL(input.url);
            if TrimSpace(input.role) != "" && !SameButCase(TrimSpace(input.role), word) then args == Err(NotSecondary)
            else if url == "" then args == Err(URLRequired)
            else if !parses(url) then args == Err(BadURL)
            else if TrimSpace(input.token) == "" then args == Err(TokenRequired)
            else args.Ok?
  {
    hide TrimSpace, ToLower, SameButCase, CleanURL;
    RoleIff(input.role, word);
  }

  /** Reading the list: its query can fail, and its text can fail to decode. */
  datatype ListRead = Fine | QueryFailed | Garbled

  /** haJoinRequestsRaw: a query that fails leaves the text empty, which is read as an empty list. */
  function RawList(list: seq<Request>, read: ListRead): Result<seq<Request>, Problem> {
    match read
    case Fine => Ok(list)
    case QueryFailed => Ok([])
    case Garbled => Err(DatabaseError)
  }

  function Found(list: seq<Request>, id: int, read: ListRead, decrypt: string -> string): Result<Request, Problem> {
    match RawList(list, read)
    case Err(e) => Err(e)
    case Ok(l) => Lookup(l, id, decrypt)
  }

  function MarkedIn(list: seq<Request>, id: int, read: ListRead): Result<seq<Request>, Problem> {
    match RawList(list, read)
    case Err(e) => Err(e)
    case Ok(l) => Marked(l, id)
  }

  /** Only a good read finds a request, for an accept or for its mark. */
  lemma {:induction false} FoundInGoodReads(list: seq<Request>, id: int, read: ListRead, decrypt: string -> string)
    ensures Found(list, id, read, decrypt).Ok? <==> read == Fine && Lookup(list, id, decrypt).Ok?
    ensures Found(list, id, read, decrypt).Ok? ==> Found(list, id, read, decrypt) == Lookup(list, id, decrypt)
    ensures MarkedIn(list, id, read).Ok? <==> read == Fine && Marked(list, id).Ok?
    ensures MarkedIn(list, id, read).Ok? ==> MarkedIn(list, id, read) == Marked(list, id)
  {
  }

  // ---------------------------------------------------------------- the handlers, one at a time

  /** What an accept meets: its three reads of the list, the node's reply, and whether each write and re-read works. */
  datatype World = World(look: ListRead, reply: Reply, recheck: ListRead, saved: bool, reread: bool, mark: ListRead, marked: bool)

  predicate UsableURL(url: string, parses: string -> bool) {
    CleanURL(url) == "" || parses(CleanURL(url))
  }

  lemma {:induction false} UsableIff(url: string, parses: string -> bool)
    ensures UsableURL(url, parses) <==> CleanURL(url) == "" || parses(CleanURL(url))
  {
    hide CleanURL;
  }

  /** The settings name the request's node as the enabled secondary peer; a blank token leaves the old one. */
  predicate NamesPeer(now: Settings, was: Settings, r: Request, token: string) {
    && now.enabled && now.role == "primary" && now.peerURL == CleanURL(r.url) && now.peerName == TrimSpace(r.name)
    && now.peerToken == if TrimSpace(token) == "" then was.peerToken else TrimSpace(token)
  }

  /** How far the request to the secondary got. */
  datatype Reply = NotApplied | AppliedNoReply | AppliedOk

  class Primary {
    const encrypt: string -> string
    const decrypt: string -> string
    const parses: string -> bool
    var requests: seq<Request>
    var settings: Settings
    /** The nodes that took a configuration naming this primary. */
    var secondaries: set<string>

    constructor (encrypt: string -> string, decrypt: string -> string, parses: string -> bool)
      ensures requests == [] && secondaries == {}
      ensures this.encrypt == encrypt && this.decrypt == decrypt && this.parses == parses
    {
      this.encrypt, this.decrypt, this.parses := encrypt, decrypt, parses;
      requests, secondaries := [], {};
      settings := Settings(false, "primary", "", "", "");
    }

    /** After a failed query of the list the request is written as the only one: every other request is lost. */
    method SaveHAJoinRequest(input: Input, newId: int, read: ListRead, writeOk: bool)
      returns (r: Result<Request, Problem>)
      modifies this`requests
      ensures r.Ok? <==> JoinArgs(input, newId, encrypt, parses).Ok? && read != Garbled && writeOk
      ensures r.Err? ==> requests == old(requests)
      ensures JoinArgs(input, newId, encrypt, parses).Err? ==> r == JoinArgs(input, newId, encrypt, parses)
      ensures r.Ok? ==>
                && requests == Joined(RawList(old(requests), read).value, JoinArgs(input, newId, encrypt, parses).value)
                && r.value in requests && r.value.url == CleanURL(input.url) && r.value.status == Pending
                && r.value.token == encrypt(TrimSpace(input.token)) && TrimSpace(input.token) != "" && parses(r.value.url)
                && r.value.name == (if TrimSpace(input.name) == "" then "TM-DNS Secondary" else TrimSpace(input.name))
                && (TrimSpace(input.role) == "" || SameButCase(TrimSpace(input.role), "secondary"))
      ensures r.Ok? ==> Joins(if read == QueryFailed then [] else old(requests), requests, input.url, newId, r.value)
    {
      RoleIff(input.role, "secondary");
      hide Joins, IsWaiting, TrimSpace, ToLower, SameButCase, CleanURL;
      var args := JoinArgs(input, newId, encrypt, parses);
      if args.Err? {
        return args;
      }
      var raw := RawList(requests, read);
      if raw.Err? {
        return Err(raw.error);
      }
      var request, list := args.value, raw.value;
      JoinedJoins(list, input.url, newId, request);
      var replaced, i := false, 0;
      while i < |list| && !replaced
        invariant 0 <= i <= |list|
        invariant !replaced ==> i <= PendingAt(list, request.url)
        invariant replaced ==> i == PendingAt(list, request.url) && i < |list|
        decreases |list| - i, !replaced
      {
        if list[i].url == request.url && list[i].status == Pending {
          replaced := true;
        } else {
          i := i + 1;
        }
      }
      if replaced {
        request := request.(id := list[i].id);
        list := list[i := request];
        assert list[i] == request;
      } else {
        list := list + [request];
        assert list[|list| - 1] == request;
      }
      if !writeOk {
        return Err(DatabaseError);
      }
      requests := list;
      r := Ok(request);
    }

    method HAJoinRequestForAccept(id: int, read: ListRead) returns (r: Result<Request, Problem>)
      ensures r == Found(requests, id, read, decrypt)
      ensures r.Ok? ==> read == Fine && r.value.id == id && r.value.status == Pending && decrypt(r.value.token) != ""
      ensures r.Ok? ==> exists i :: IsAt(requests, id, i) && r.value == requests[i]
      ensures r == Err(NotPending) ==> exists i :: IsAt(requests, id, i) && requests[i].status == Accepted
      ensures r == Err(TokenUnavailable) ==> exists i :: IsAt(requests, id, i) && decrypt(requests[i].token) == ""
      ensures r == Err(NotFound) ==> read == QueryFailed || forall i :: 0 <= i < |requests| ==> requests[i].id != id
      ensures r == Err(DatabaseError) <==> read == Garbled
    {
      var raw := RawList(requests, read);
      if raw.Err? {
        return Err(raw.error);
      }
      var list := raw.value;
      for i := 0 to |list|
        invariant i <= IndexOf(list, id)
      {
        if list[i].id != id {
          continue;
        }
        assert IsAt(list, id, i);
        if list[i].status != Pending {
          return Err(NotPending);
        }
        if decrypt(list[i].token) == "" {
          return Err(TokenUnavailable);
        }
        return Ok(list[i]);
      }
      r := Err(NotFound);
    }

    method MarkHAJoinRequestAccepted(id: int, read: ListRead, writeOk: bool) returns (r: Result<Request, Problem>)
      modifies this`requests
      ensures r.Ok? <==> MarkedIn(old(requests), id, read).Ok? && writeOk
      ensures r.Ok? ==> requests == MarkedIn(old(requests), id, read).value && r.value.status == Accepted && r.value.id == id
      ensures r.Ok? ==> read == Fine && exists i :: IsAt(old(requests), id, i) && old(requests)[i].status == Pending
                                                    && r.value == old(requests)[i].(status := Accepted)
                                                    && requests == old(requests)[i := r.value]
      ensures r.Err? ==> requests == old(requests)
      ensures MarkedIn(old(requests), id, read).Err? ==> r == Err(MarkedIn(old(requests), id, read).error)
    {
      var raw := RawList(requests, read);
      if raw.Err? {
        return Err(raw.error);
      }
      var list := raw.value;
      for i := 0 to |list|
        invariant requests == old(requests) && i <= IndexOf(list, id)
      {
        if list[i].id != id {
          continue;
        }
        if list[i].status != Pending {
          return Err(NotPending);
        }
        if !writeOk {
          return Err(DatabaseError);
        }
        assert IsAt(old(requests), id, i);
        list := list[i := list[i].(status := Accepted)];
        requests := list;
        return Ok(list[i]);
      }
      r := Err(NotFound);
    }

    /** The PUT that makes the other node a secondary of this one; without a token it is left out. */
    method ConfigureAcceptedSecondary(r: Request, token: string, reply: Reply) returns (ok: bool)
      modifies this`secondaries
      ensures ok && token != "" ==> r.url in secondaries
      ensures !ok ==> token != "" && (reply == NotApplied || r.url in secondaries)
      ensures reply == AppliedOk ==> ok
      ensures old(secondaries) <= secondaries <= old(secondaries) + {r.url}
      ensures token == "" || reply == NotApplied ==> secondaries == old(secondaries)
      ensures ok ==> token == "" || reply == AppliedOk
    {
      if token == "" {
        return true;
      }
      if reply != NotApplied {
        secondaries := secondaries + {r.url};
      }
      ok := reply == AppliedOk;
    }

    /** SaveHASettings as the accept calls it: its transaction commits before the settings are read again. */
    method SavePeer(r: Request, token: string, writeOk: bool, rereadOk: bool) returns (ok: bool)
      modifies this`settings
      ensures ok <==> (CleanURL(r.url) == "" || parses(CleanURL(r.url))) && writeOk && rereadOk
      ensures var committed := (CleanURL(r.url) == "" || parses(CleanURL(r.url))) && writeOk;
              && (committed ==> settings.enabled && settings.role == "primary")
              && (committed ==> settings.peerURL == CleanURL(r.url) && settings.peerName == TrimSpace(r.name))
              && (committed ==> settings.peerToken == if TrimSpace(token) == "" then old(settings).peerToken else TrimSpace(token))
              && (!committed ==> settings == old(settings))
    {
      var name, url, t := TrimSpace(r.name), CleanURL(r.url), TrimSpace(token);
      if (url != "" && !parses(url)) || !writeOk {
        return false;
      }
      settings := Settings(true, "primary", name, url, if t == "" then settings.peerToken else t);
      ok := rereadOk;
    }

    /** AcceptHAJoinRequest: look again, save the settings, mark. */
    method AcceptHAJoinRequest(id: int, w: World) returns (r: Result<Request, Problem>)
      modifies this`settings, this`requests
      ensures var found := Found(old(requests), id, w.recheck, decrypt);
              var committed := found.Ok? && UsableURL(found.value.url, parses) && w.saved;
              && (r.Ok? <==> committed && w.reread && w.mark == Fine && w.marked)
              && (committed ==> NamesPeer(settings, old(settings), found.value, decrypt(found.value.token)))
              && (!committed ==> settings == old(settings))
              && (r.Ok? ==> requests == Marked(old(requests), id).value)
              && (r.Err? ==> requests == old(requests))
    {
      FoundInGoodReads(requests, id, w.recheck, decrypt);
      FoundInGoodReads(requests, id, w.mark, decrypt);
      LookupMarks(requests, id, decrypt);
      hide Lookup, Marked, UsableURL, TrimSpace, CleanURL;
      var again := HAJoinRequestForAccept(id, w.recheck);
      if again.Err? {
        return again;
      }
      UsableIff(again.value.url, parses);
      var saved := SavePeer(again.value, decrypt(again.value.token), w.saved, w.reread);
      if !saved {
        return Err(DatabaseError);
      }
      r := MarkHAJoinRequestAccepted(id, w.mark, w.marked);
    }

    /**
     haJoinAccept: success means that the node took its configuration, then the settings named it as the peer, then
     the request was marked. Any failure leaves the list as it was, so that the request can be accepted again; but the
     settings name the node as soon as their transaction committed, even if what follows it fails. On any cluster that
     shows this primary, what it did is a run of the handler t, which saves a peer exactly if the settings were committed.
     */
    method HaJoinAccept(id: int, w: World, ghost c: Cluster, ghost t: Thread)
      returns (r: Result<Request, Problem>, ghost steps: seq<Step>)
      requires Shown(c) && t !in c.threads
      modifies this
      ensures var found := Lookup(old(requests), id, decrypt);
              var seen := found.Ok? && w.look == Fine;
              var committed := seen && w.reply == AppliedOk && w.recheck == Fine && UsableURL(found.value.url, parses) && w.saved;
              && (r.Ok? <==> committed && w.reread && w.mark == Fine && w.marked)
              && (committed ==> settings.enabled && settings.role == "primary")
              && (committed ==> settings.peerURL == CleanURL(found.value.url) && settings.peerName == TrimSpace(found.value.name))
              && (committed ==> var token := TrimSpace(decrypt(found.value.token));
                                settings.peerToken == if token == "" then old(settings).peerToken else token)
              && (!committed ==> settings == old(settings))
              && secondaries == (if seen && w.reply != NotApplied then old(secondaries) + {found.value.url} else old(secondaries))
              && (r.Ok? ==> requests == Marked(old(requests), id).value)
              && (r.Err? ==> requests == old(requests))
              && IsRun(c, steps) && Shown(End(c, steps)) && End(c, steps).threads == c.threads && End(c, steps).urls == c.urls
              && End(c, steps).peers == if committed then c.peers + {settings.peerURL} else c.peers
    {
      FoundInGoodReads(requests, id, w.look, decrypt);
      FoundInGoodReads(requests, id, w.recheck, decrypt);
      LookupHasToken(requests, id, decrypt);
      hide Lookup, Marked, UsableURL, Found, TrimSpace, CleanURL, IsRun, End;
      steps := AcceptRun(c, t, id, w, parses);
      var look := HAJoinRequestForAccept(id, w.look);
      if look.Err? {
        return look, steps;
      }
      var configured := ConfigureAcceptedSecondary(look.value, decrypt(look.value.token), w.reply);
      if !configured {
        return Err(PeerFailed), steps;
      }
      r := AcceptHAJoinRequest(id, w);
    }

    /** The cluster's list, nodes and decryption are this primary's. */
    ghost predicate Shown(c: Cluster)
      reads this
    {
      c.list == requests && c.secondaries == secondaries && c.decrypt == decrypt
    }
  }

  lemma {:induction false} LookupMarks(list: seq<Request>, id: int, decrypt: string -> string)
    ensures Lookup(list, id, decrypt).Ok? ==> Marked(list, id).Ok? && Lookup(list, id, decrypt).value.id == id
  {
  }

  lemma {:induction false} LookupHasToken(list: seq<Request>, id: int, decrypt: string -> string)
    ensures Lookup(list, id, decrypt).Ok? ==> decrypt(Lookup(list, id, decrypt).value.token) != ""
  {
  }

  // ---------------------------------------------------------------- the handlers, interleaved

  type Thread = nat

  /** Where a handler stands between two of its statements; `before` is the list it has read. */
  datatype Local =
    | Joining(before: seq<Request>, made: Request)
    | Looked(r: Request)
    | Configured(r: Request)
    | Rechecked(r: Request)
    | Saved(r: Request)
    | Marking(before: seq<Request>, id: int)

  /** `urls[k]` is the node URL that request id k was made for; `peers` is every peer URL ever saved in role primary. */
  datatype Cluster = Cluster(
    decrypt: string -> string,
    list: seq<Request>,
    urls: seq<string>,
    peers: set<string>,
    secondaries: set<string>,
    threads: map<Thread, Local>)

  datatype Step =
    | ReadJoin(t: Thread, url: string, name: string, token: string, queryOk: bool)
    | WriteJoin(t: Thread)
    | Look(t: Thread, id: int)
    | Configure(t: Thread, reply: Reply)
    | Recheck(t: Thread)
    | SavePeer(t: Thread)
    | ReadMark(t: Thread)
    | WriteMark(t: Thread)
    | Crash(t: Thread)

  function Started(decrypt: string -> string): Cluster {
    Cluster(decrypt, [], [], {}, {}, map[])
  }

  predicate Enabled(c: Cluster, step: Step) {
    match step
    case ReadJoin(t, _, _, _, _) => t !in c.threads
    case WriteJoin(t) => t in c.threads && c.threads[t].Joining?
    case Look(t, id) => t !in c.threads && Lookup(c.list, id, c.decrypt).Ok?
    case Configure(t, _) => t in c.threads && c.threads[t].Looked?
    case Recheck(t) => t in c.threads && c.threads[t].Configured? && Lookup(c.list, c.threads[t].r.id, c.decrypt).Ok?
    case SavePeer(t) => t in c.threads && c.threads[t].Rechecked?
    case ReadMark(t) => t in c.threads && c.threads[t].Saved? && Marked(c.list, c.threads[t].r.id).Ok?
    case WriteMark(t) => t in c.threads && c.threads[t].Marking? && Marked(c.threads[t].before, c.threads[t].id).Ok?
    case Crash(t) => t in c.threads
  }

  function Remote(c: Cluster, t: Thread, r: Request, reply: Reply): Cluster {
    match reply
    case NotApplied => c.(threads := c.threads - {t})
    case AppliedNoReply => c.(secondaries := c.secondaries + {r.url}, threads := c.threads - {t})
    case AppliedOk => c.(secondaries := c.secondaries + {r.url}, threads := c.threads[t := Configured(r)])
  }

  function Next(c: Cluster, step: Step): Cluster
    requires Enabled(c, step)
  {
    match step
    case ReadJoin(t, url, name, token, queryOk) =>
      c.(urls := c.urls + [url],
         threads := c.threads[t := Joining(if queryOk then c.list else [], Request(|c.urls|, url, name, token, Pending))])
    case WriteJoin(t) => c.(list := Joined(c.threads[t].before, c.threads[t].made), threads := c.threads - {t})
    case Look(t, id) => c.(threads := c.threads[t := Looked(Lookup(c.list, id, c.decrypt).value)])
    case Configure(t, reply) => Remote(c, t, c.threads[t].r, reply)
    case Recheck(t) => c.(threads := c.threads[t := Rechecked(Lookup(c.list, c.threads[t].r.id, c.decrypt).value)])
    case SavePeer(t) => c.(peers := c.peers + {CleanURL(c.threads[t].r.url)}, threads := c.threads[t := Saved(c.threads[t].r)])
    case ReadMark(t) => c.(threads := c.threads[t := Marking(c.list, c.threads[t].r.id)])
    case WriteMark(t) => c.(list := Marked(c.threads[t].before, c.threads[t].id).value, threads := c.threads - {t})
    case Crash(t) => c.(threads := c.threads - {t})
  }

  /** The steps can be taken one after the other from c on. */
  predicate IsRun(c: Cluster, steps: seq<Step>)
    decreases |steps|
  {
    steps == [] || (Enabled(c, steps[0]) && IsRun(Next(c, steps[0]), steps[1..]))
  }

  function End(c: Cluster, steps: seq<Step>): Cluster
    requires IsRun(c, steps)
    decreases |steps|
  {
    if steps == [] then c else End(Next(c, steps[0]), steps[1..])
  }

  // ---------------------------------------------------------------- what every run keeps

  /** The node of request id k is a secondary of this primary, and this primary has saved it as its peer. */
  ghost predicate Paired(c: Cluster, id: int) {
    0 <= id < |c.urls| && c.urls[id] in c.secondaries && CleanURL(c.urls[id]) in c.peers
  }

  ghost predicate GoodRequest(c: Cluster, r: Request) {
    0 <= r.id < |c.urls| && r.url == c.urls[r.id] && (r.status == Accepted ==> Paired(c, r.id))
  }

  ghost predicate GoodList(c: Cluster, list: seq<Request>) {
    Distinct(list) && OnePendingEach(list) && forall i :: 0 <= i < |list| ==> GoodRequest(c, list[i])
  }

  ghost predicate GoodLocal(c: Cluster, l: Local) {
    match l
    case Joining(before, made) =>
      && GoodList(c, before) && GoodRequest(c, made) && made.status == Pending
      && forall i :: 0 <= i < |before| ==> before[i].id != made.id
    case Looked(r) => GoodRequest(c, r)
    case Configured(r) => GoodRequest(c, r) && r.url in c.secondaries
    case Rechecked(r) => GoodRequest(c, r) && r.url in c.secondaries
    case Saved(r) => GoodRequest(c, r) && Paired(c, r.id)
    case Marking(before, id) => GoodList(c, before) && Paired(c, id)
  }

  ghost predicate Good(c: Cluster) {
    GoodList(c, c.list) && forall t :: t in c.threads ==> GoodLocal(c, c.threads[t])
  }

  /** A later state knows more ids and has made more pairs. */
  ghost predicate Grows(c: Cluster, d: Cluster) {
    c.urls <= d.urls && c.secondaries <= d.secondaries && c.peers <= d.peers
  }

  lemma {:induction false} GoodRequestGrows(c: Cluster, d: Cluster, r: Request)
    requires Grows(c, d) && GoodRequest(c, r)
    ensures GoodRequest(d, r)
  {
  }

  lemma {:induction false} GoodListGrows(c: Cluster, d: Cluster, list: seq<Request>)
    requires Grows(c, d) && GoodList(c, list)
    ensures GoodList(d, list)
  {
    forall i | 0 <= i < |list|
      ensures GoodRequest(d, list[i])
    {
      GoodRequestGrows(c, d, list[i]);
    }
  }

  lemma {:induction false} GoodLocalGrows(c: Cluster, d: Cluster, l: Local)
    requires Grows(c, d) && GoodLocal(c, l)
    ensures GoodLocal(d, l)
  {
    hide GoodList, GoodRequest;
    match l {
      case Joining(before, made) =>
        GoodListGrows(c, d, before);
        GoodRequestGrows(c, d, made);
      case Marking(before, id) => GoodListGrows(c, d, before);
      case _ => GoodRequestGrows(c, d, l.r);
    }
  }

  lemma {:induction false} JoinedIsGood(c: Cluster, list: seq<Request>, r: Request)
    requires GoodList(c, list) && GoodRequest(c, r) && r.status == Pending
    requires forall i :: 0 <= i < |list| ==> list[i].id != r.id
    ensures GoodList(c, Joined(list, r))
  {
  }

  lemma {:induction false} MarkedIsGood(c: Cluster, list: seq<Request>, id: int)
    requires GoodList(c, list) && Paired(c, id) && Marked(list, id).Ok?
    ensures GoodList(c, Marked(list, id).value)
  {
    hide Paired;
  }

  lemma {:induction false} LookupIsGood(c: Cluster, list: seq<Request>, id: int)
    requires GoodList(c, list) && Lookup(list, id, c.decrypt).Ok?
    ensures GoodRequest(c, Lookup(list, id, c.decrypt).value) && Lookup(list, id, c.decrypt).value.id == id
  {
  }

  lemma {:induction false} StepGrows(c: Cluster, step: Step)
    requires Enabled(c, step)
    ensures Grows(c, Next(c, step))
  {
    hide Lookup, Marked, Joined, CleanURL;
  }

  /** The list after a step. */
  lemma {:induction false} ListStaysGood(c: Cluster, step: Step)
    requires Good(c) && Enabled(c, step)
    ensures GoodList(Next(c, step), Next(c, step).list)
  {
    hide GoodList, Lookup, Marked, Joined, CleanURL, Grows, GoodRequest, Paired;
    var d := Next(c, step);
    StepGrows(c, step);
    if step.WriteJoin? {
      JoinedIsGood(c, c.threads[step.t].before, c.threads[step.t].made);
    }
    if step.WriteMark? {
      MarkedIsGood(c, c.threads[step.t].before, c.threads[step.t].id);
    }
    GoodListGrows(c, d, d.list);
  }

  /** The handler that took the step. */
  lemma {:induction false} MoverStaysGood(c: Cluster, step: Step)
    requires Good(c) && Enabled(c, step) && step.t in Next(c, step).threads
    ensures GoodLocal(Next(c, step), Next(c, step).threads[step.t])
  {
    hide GoodList, Lookup, Marked, Joined, CleanURL, Grows;
    var d := Next(c, step);
    StepGrows(c, step);
    match step {
      case ReadJoin(t, url, name, token, queryOk) =>
        var before := if queryOk then c.list else [];
        assert GoodList(c, before) by { EmptyIsGood(c); }
        GoodListGrows(c, d, before);
        OldIds(c, before);
      case Look(t, id) => LookupIsGood(c, c.list, id);
      case Recheck(t) => LookupIsGood(c, c.list, c.threads[t].r.id);
      case ReadMark(t) => GoodListGrows(c, d, c.list);
      case _ =>
    }
  }

  lemma {:induction false} EmptyIsGood(c: Cluster)
    ensures GoodList(c, [])
  {
  }

  lemma {:induction false} OldIds(c: Cluster, list: seq<Request>)
    requires GoodList(c, list)
    ensures forall i :: 0 <= i < |list| ==> list[i].id != |c.urls|
  {
  }

  lemma {:induction false} OthersKeep(c: Cluster, step: Step, t: Thread)
    requires Enabled(c, step) && t in Next(c, step).threads && t != step.t
    ensures t in c.threads && Next(c, step).threads[t] == c.threads[t]
  {
    hide Lookup, Marked, Joined, CleanURL;
  }

  lemma {:induction false} StepKeepsGood(c: Cluster, step: Step)
    requires Good(c) && Enabled(c, step)
    ensures Good(Next(c, step))
  {
    hide GoodList, GoodLocal, Enabled, Next, Grows;
    var d := Next(c, step);
    ListStaysGood(c, step);
    StepGrows(c, step);
    forall t | t in d.threads
      ensures GoodLocal(d, d.threads[t])
    {
      if t == step.t {
        MoverStaysGood(c, step);
      } else {
        OthersKeep(c, step, t);
        GoodLocalGrows(c, d, c.threads[t]);
      }
    }
  }

  lemma {:induction false} RunKeepsGood(c: Cluster, steps: seq<Step>)
    requires Good(c) && IsRun(c, steps)
    ensures Good(End(c, steps))
    decreases |steps|
  {
    hide Good, Next, Enabled;
    if steps != [] {
      StepKeepsGood(c, steps[0]);
      RunKeepsGood(Next(c, steps[0]), steps[1..]);
    }
  }

  /**
   In every run, with handlers interleaved at any statement and crashing anywhere: request ids are distinct, no node
   has two pending requests, and a request is accepted only if its node took a secondary configuration and this
   primary saved that node as its peer.
   */
  lemma {:induction false} EveryRunIsGood(decrypt: string -> string, steps: seq<Step>)
    requires IsRun(Started(decrypt), steps)
    ensures var c := End(Started(decrypt), steps);
            && Distinct(c.list) && OnePendingEach(c.list)
            && forall i :: 0 <= i < |c.list| && c.list[i].status == Accepted ==>
                             c.list[i].url in c.secondaries && CleanURL(c.list[i].url) in c.peers
  {
    hide CleanURL, Next, Enabled;
    RunKeepsGood(Started(decrypt), steps);
    var c := End(Started(decrypt), steps);
    forall i | 0 <= i < |c.list| && c.list[i].status == Accepted
      ensures c.list[i].url in c.secondaries && CleanURL(c.list[i].url) in c.peers
    {
      assert GoodRequest(c, c.list[i]);
    }
  }

  // ---------------------------------------------------------------- statuses

  /** The step writes a list that no other handler changed since this one read it. */
  predicate WritesFresh(c: Cluster, step: Step) {
    step.t in c.threads ==>
      (step.WriteJoin? && c.threads[step.t].Joining?) || (step.WriteMark? && c.threads[step.t].Marking?) ==>
        c.threads[step.t].before == c.list
  }

  ghost predicate HasAccepted(list: seq<Request>, id: int) {
    exists i :: 0 <= i < |list| && list[i].id == id && list[i].status == Accepted
  }

  ghost predicate Has(list: seq<Request>, id: int) {
    exists i :: 0 <= i < |list| && list[i].id == id
  }

  lemma {:induction false} JoinedKeeps(list: seq<Request>, r: Request, id: int)
    ensures Has(list, id) ==> Has(Joined(list, r), id)
    ensures HasAccepted(list, id) ==> HasAccepted(Joined(list, r), id)
  {
    var u := Joined(list, r);
    if Has(list, id) {
      var i :| 0 <= i < |list| && list[i].id == id;
      assert u[i].id == id;
    }
    if HasAccepted(list, id) {
      var i :| 0 <= i < |list| && list[i].id == id && list[i].status == Accepted;
      assert u[i] == list[i];
    }
  }

  lemma {:induction false} MarkedKeeps(list: seq<Request>, at: int, id: int)
    requires Marked(list, at).Ok?
    ensures Has(list, id) ==> Has(Marked(list, at).value, id)
    ensures HasAccepted(list, id) ==> HasAccepted(Marked(list, at).value, id)
  {
    var u := Marked(list, at).value;
    if Has(list, id) {
      var i :| 0 <= i < |list| && list[i].id == id;
      assert u[i].id == id;
    }
    if HasAccepted(list, id) {
      var i :| 0 <= i < |list| && list[i].id == id && list[i].status == Accepted;
      assert u[i] == list[i];
    }
  }

  lemma {:induction false} JoinedAccepts(list: seq<Request>, r: Request, id: int)
    requires r.status == Pending
    ensures HasAccepted(Joined(list, r), id) <==> HasAccepted(list, id)
  {
    JoinedKeeps(list, r, id);
    var u := Joined(list, r);
    if HasAccepted(u, id) {
      var i :| 0 <= i < |u| && u[i].id == id && u[i].status == Accepted;
      assert u[i] == list[i];
    }
  }

  lemma {:induction false} MarkedAcceptsOnly(list: seq<Request>, at: int, id: int)
    requires Marked(list, at).Ok?
    ensures HasAccepted(Marked(list, at).value, id) <==> HasAccepted(list, id) || id == at
  {
    MarkedKeeps(list, at, id);
    var u, k := Marked(list, at).value, IndexOf(list, at);
    assert u[k].id == at && u[k].status == Accepted;
    if HasAccepted(u, id) && id != at {
      var i :| 0 <= i < |u| && u[i].id == id && u[i].status == Accepted;
      assert u[i] == list[i];
    }
  }

  /** A join adds a request exactly if no pending one of its node is there. */
  lemma {:induction false} JoinedHas(list: seq<Request>, r: Request, id: int)
    ensures Has(Joined(list, r), id) <==> Has(list, id) || (r.id == id && PendingAt(list, r.url) == |list|)
  {
    JoinedKeeps(list, r, id);
    var i, u := PendingAt(list, r.url), Joined(list, r);
    if i == |list| {
      assert u[i] == r;
    }
    if Has(u, id) {
      var j :| 0 <= j < |u| && u[j].id == id;
      assert j < |list| ==> list[j].id == id;
    }
  }

  lemma {:induction false} MarkedHas(list: seq<Request>, at: int, id: int)
    requires Marked(list, at).Ok?
    ensures Has(Marked(list, at).value, id) <==> Has(list, id)
  {
    MarkedKeeps(list, at, id);
    var u := Marked(list, at).value;
    if Has(u, id) {
      var j :| 0 <= j < |u| && u[j].id == id;
      assert list[j].id == id;
    }
  }

  /** The step writes a request that was not in the list its handler had read. */
  predicate Adds(c: Cluster, step: Step, id: int)
    requires Enabled(c, step)
  {
    step.WriteJoin? &&
    var l := c.threads[step.t];
    l.made.id == id && PendingAt(l.before, l.made.url) == |l.before|
  }

  predicate Marks(c: Cluster, step: Step, id: int)
    requires Enabled(c, step)
  {
    step.WriteMark? && c.threads[step.t].id == id
  }

  /**
   Unless a write overlaps another, no request is lost and a status only moves from pending to accepted: a step lists just
   the requests that were listed or that it adds, and accepts just those that were accepted or that it marks.
   */
  lemma {:induction false} StatusOnlyMovesForward(c: Cluster, step: Step, id: int)
    requires Enabled(c, step) && WritesFresh(c, step)
    ensures Has(Next(c, step).list, id) <==> Has(c.list, id) || Adds(c, step, id)
    ensures HasAccepted(c.list, id) ==> HasAccepted(Next(c, step).list, id)
    ensures Good(c) ==> (HasAccepted(Next(c, step).list, id) <==> HasAccepted(c.list, id) || Marks(c, step, id))
  {
    hide Has, HasAccepted, Joined, Marked, Lookup, CleanURL, PendingAt, GoodList, GoodRequest;
    if step.WriteJoin? {
      var made := c.threads[step.t].made;
      JoinedHas(c.list, made, id);
      JoinedKeeps(c.list, made, id);
      if Good(c) {
        assert GoodLocal(c, c.threads[step.t]);
        JoinedAccepts(c.list, made, id);
      }
    } else if step.WriteMark? {
      MarkedHas(c.list, c.threads[step.t].id, id);
      MarkedAcceptsOnly(c.list, c.threads[step.t].id, id);
    }
  }

  /** What a write must have read, or add, for a request to be listed after it. */
  ghost predicate WriteLists(c: Cluster, step: Step, id: int)
    requires Enabled(c, step)
  {
    step.WriteJoin? || step.WriteMark? ==> Has(c.threads[step.t].before, id) || Adds(c, step, id)
  }

  /** A request is still listed after a step exactly if a write had read it or adds it itself. */
  lemma {:induction false} StaysListedIff(c: Cluster, step: Step, id: int)
    requires Enabled(c, step) && Has(c.list, id)
    ensures Has(Next(c, step).list, id) <==> WriteLists(c, step, id)
  {
    hide Has, Joined, Marked, Lookup, CleanURL, PendingAt;
    if step.WriteJoin? {
      JoinedHas(c.threads[step.t].before, c.threads[step.t].made, id);
    } else if step.WriteMark? {
      MarkedHas(c.threads[step.t].before, c.threads[step.t].id, id);
    }
  }

  /** Listed now and after each of the steps. */
  ghost predicate ListedThroughout(c: Cluster, steps: seq<Step>, id: int)
    requires IsRun(c, steps)
    decreases |steps|
  {
    Has(c.list, id) && (steps == [] || ListedThroughout(Next(c, steps[0]), steps[1..], id))
  }

  ghost predicate EveryWriteLists(c: Cluster, steps: seq<Step>, id: int)
    requires IsRun(c, steps)
    decreases |steps|
  {
    steps == [] || (WriteLists(c, steps[0], id) && EveryWriteLists(Next(c, steps[0]), steps[1..], id))
  }

  /** Over a whole run a request is never lost exactly if every write had read it or adds it. */
  lemma {:induction false} ListedThroughoutIff(c: Cluster, steps: seq<Step>, id: int)
    requires IsRun(c, steps) && Has(c.list, id)
    ensures ListedThroughout(c, steps, id) <==> EveryWriteLists(c, steps, id)
    decreases |steps|
  {
    if steps != [] {
      StaysListedIff(c, steps[0], id);
      hide Has, Enabled, Next, WriteLists;
      if Has(Next(c, steps[0]).list, id) {
        ListedThroughoutIff(Next(c, steps[0]), steps[1..], id);
      } else {
        NotListedThroughout(Next(c, steps[0]), steps[1..], id);
      }
    }
  }

  lemma {:induction false} NotListedThroughout(c: Cluster, steps: seq<Step>, id: int)
    requires IsRun(c, steps) && !Has(c.list, id)
    ensures !ListedThroughout(c, steps, id)
  {
  }

  /** What a write must have read, or do, for a request to be accepted after it. */
  ghost predicate WriteAccepts(c: Cluster, step: Step, id: int)
    requires Enabled(c, step)
  {
    && (step.WriteJoin? ==> HasAccepted(c.threads[step.t].before, id))
    && (step.WriteMark? ==> HasAccepted(c.threads[step.t].before, id) || c.threads[step.t].id == id)
  }

  /** An accepted request is still accepted after a step exactly if a write had read it as accepted or marks it itself. */
  lemma {:induction false} StaysAcceptedIff(c: Cluster, step: Step, id: int)
    requires Good(c) && Enabled(c, step) && HasAccepted(c.list, id)
    ensures HasAccepted(Next(c, step).list, id) <==> WriteAccepts(c, step, id)
  {
    hide HasAccepted, Joined, Marked, Lookup, CleanURL, GoodList, GoodRequest;
    if step.WriteJoin? {
      assert GoodLocal(c, c.threads[step.t]);
      JoinedAccepts(c.threads[step.t].before, c.threads[step.t].made, id);
    } else if step.WriteMark? {
      MarkedAcceptsOnly(c.threads[step.t].before, c.threads[step.t].id, id);
    }
  }

  /** Accepted now and after each of the steps. */
  ghost predicate AcceptedThroughout(c: Cluster, steps: seq<Step>, id: int)
    requires IsRun(c, steps)
    decreases |steps|
  {
    HasAccepted(c.list, id) && (steps == [] || AcceptedThroughout(Next(c, steps[0]), steps[1..], id))
  }

  ghost predicate EveryWriteAccepts(c: Cluster, steps: seq<Step>, id: int)
    requires IsRun(c, steps)
    decreases |steps|
  {
    steps == [] || (WriteAccepts(c, steps[0], id) && EveryWriteAccepts(Next(c, steps[0]), steps[1..], id))
  }

  /** Over a whole run an accepted request stays accepted exactly if every write had read it as accepted or marks it. */
  lemma {:induction false} AcceptedThroughoutIff(c: Cluster, steps: seq<Step>, id: int)
    requires Good(c) && IsRun(c, steps) && HasAccepted(c.list, id)
    ensures AcceptedThroughout(c, steps, id) <==> EveryWriteAccepts(c, steps, id)
    decreases |steps|
  {
    if steps != [] {
      StaysAcceptedIff(c, steps[0], id);
      StepKeepsGood(c, steps[0]);
      hide Good, HasAccepted, Enabled, Next, WriteAccepts;
      if HasAccepted(Next(c, steps[0]).list, id) {
        AcceptedThroughoutIff(Next(c, steps[0]), steps[1..], id);
      } else {
        NotThroughout(Next(c, steps[0]), steps[1..], id);
      }
    }
  }

  lemma {:induction false} NotThroughout(c: Cluster, steps: seq<Step>, id: int)
    requires IsRun(c, steps) && !HasAccepted(c.list, id)
    ensures !AcceptedThroughout(c, steps, id)
  {
  }

  predicate AllWritesFresh(c: Cluster, steps: seq<Step>)
    requires IsRun(c, steps)
    decreases |steps|
  {
    steps == [] || (WritesFresh(c, steps[0]) && AllWritesFresh(Next(c, steps[0]), steps[1..]))
  }

  /** Some step of the run marks the request. */
  predicate EverMarks(c: Cluster, steps: seq<Step>, id: int)
    requires IsRun(c, steps)
    decreases |steps|
  {
    steps != [] && (Marks(c, steps[0], id) || EverMarks(Next(c, steps[0]), steps[1..], id))
  }

  /**
   So in every run whose list changes do not overlap an accepted request stays accepted, and one is accepted at the end
   just if it was at the start or some step marks it.
   */
  lemma {:induction false} AcceptedStaysAccepted(c: Cluster, steps: seq<Step>, id: int)
    requires IsRun(c, steps) && AllWritesFresh(c, steps)
    ensures HasAccepted(c.list, id) ==> HasAccepted(End(c, steps).list, id)
    ensures Good(c) ==> (HasAccepted(End(c, steps).list, id) <==> HasAccepted(c.list, id) || EverMarks(c, steps, id))
    decreases |steps|
  {
    if steps != [] {
      StatusOnlyMovesForward(c, steps[0], id);
      if Good(c) {
        StepKeepsGood(c, steps[0]);
      }
      hide Good, Has, HasAccepted, Enabled, Next, WritesFresh, Marks, Adds;
      AcceptedStaysAccepted(Next(c, steps[0]), steps[1..], id);
    }
  }

  lemma {:induction false} RunSnoc(c: Cluster, steps: seq<Step>, step: Step)
    requires IsRun(c, steps) && Enabled(End(c, steps), step)
    ensures IsRun(c, steps + [step]) && End(c, steps + [step]) == Next(End(c, steps), step)
    decreases |steps|
  {
    hide Enabled, Next;
    var all := steps + [step];
    if steps == [] {
      assert all[0] == step && all[1..] == [];
      assert IsRun(Next(c, step), []) && End(Next(c, step), []) == Next(c, step);
    } else {
      assert all[0] == steps[0] && all[1..] == steps[1..] + [step];
      RunSnoc(Next(c, steps[0]), steps[1..], step);
    }
  }

  /** Where they do overlap, a join request that read the list too early turns an accepted request back to pending. */
  lemma {:induction false} LateJoinRevertsAcceptance(c: Cluster, accepting: Thread, joining: Thread, url: string)
    returns (accept: seq<Step>, late: Step)
    requires Good(c) && accepting in c.threads && c.threads[accepting].Saved? && joining !in c.threads
    requires Marked(c.list, c.threads[accepting].r.id).Ok?
    ensures IsRun(c, accept) && HasAccepted(End(c, accept).list, c.threads[accepting].r.id)
    ensures IsRun(c, accept + [late]) && !HasAccepted(End(c, accept + [late]).list, c.threads[accepting].r.id)
  {
    hide Marked, Joined, Good, HasAccepted, Lookup, CleanURL, IsRun, End;
    var id, made := c.threads[accepting].r.id, Request(|c.urls|, url, "", "", Pending);
    RunNothing(c);
    RunSnoc(c, [], ReadJoin(joining, url, "", "", true));
    accept := [] + [ReadJoin(joining, url, "", "", true)];
    RunSnoc(c, accept, ReadMark(accepting));
    accept := accept + [ReadMark(accepting)];
    RunSnoc(c, accept, WriteMark(accepting));
    accept := accept + [WriteMark(accepting)];
    MarkedAccepts(c.list, id);
    late := WriteJoin(joining);
    RunSnoc(c, accept, late);
    assert End(c, accept + [late]).list == Joined(c.list, made);
    PendingStaysUnaccepted(c, made, id);
  }

  /** A join request whose query of the list fails is written as the only one, and takes every other with it. */
  lemma {:induction false} FailedReadLosesRequests(c: Cluster, t: Thread, url: string, id: int)
    requires Good(c) && t !in c.threads && Has(c.list, id)
    ensures var join := [ReadJoin(t, url, "", "", false)] + [WriteJoin(t)];
            IsRun(c, join) && !Has(End(c, join).list, id)
  {
    hide Joined, HasAccepted, Lookup, CleanURL, IsRun, End;
    var made := Request(|c.urls|, url, "", "", Pending);
    RunNothing(c);
    RunSnoc(c, [], ReadJoin(t, url, "", "", false));
    assert [] + [ReadJoin(t, url, "", "", false)] == [ReadJoin(t, url, "", "", false)];
    RunSnoc(c, [ReadJoin(t, url, "", "", false)], WriteJoin(t));
    AloneAfterJoin(made);
    var i :| 0 <= i < |c.list| && c.list[i].id == id;
    assert GoodRequest(c, c.list[i]);
  }

  /** Of two join requests that both read the list before either writes it, the one written first is lost. */
  lemma {:induction false} OverlappingJoinIsLost(c: Cluster, t: Thread, u: Thread, first: string, second: string)
    returns (joined: seq<Step>, late: Step)
    requires Good(c) && t != u && t !in c.threads && u !in c.threads && PendingAt(c.list, first) == |c.list|
    ensures IsRun(c, joined) && Has(End(c, joined).list, |c.urls|)
    ensures IsRun(c, joined + [late]) && !Has(End(c, joined + [late]).list, |c.urls|)
  {
    hide Joined, HasAccepted, Has, Lookup, CleanURL, IsRun, End, Good;
    var a, b := Request(|c.urls|, first, "", "", Pending), Request(|c.urls| + 1, second, "", "", Pending);
    RunNothing(c);
    RunSnoc(c, [], ReadJoin(t, first, "", "", true));
    joined := [] + [ReadJoin(t, first, "", "", true)];
    RunSnoc(c, joined, ReadJoin(u, second, "", "", true));
    joined := joined + [ReadJoin(u, second, "", "", true)];
    RunSnoc(c, joined, WriteJoin(t));
    joined := joined + [WriteJoin(t)];
    late := WriteJoin(u);
    RunSnoc(c, joined, late);
    assert End(c, joined).list == Joined(c.list, a) && End(c, joined + [late]).list == Joined(c.list, b);
    JoinedHas(c.list, a, a.id);
    JoinedHas(c.list, b, a.id);
    NewIdIsUnlisted(c, a.id);
  }

  lemma {:induction false} NewIdIsUnlisted(c: Cluster, id: int)
    requires Good(c) && id >= |c.urls|
    ensures !Has(c.list, id)
  {
    forall i | 0 <= i < |c.list|
      ensures c.list[i].id != id
    {
      assert GoodRequest(c, c.list[i]);
    }
  }

  lemma {:induction false} AloneAfterJoin(r: Request)
    ensures Joined([], r) == [r]
  {
  }

  lemma {:induction false} RunNothing(c: Cluster)
    ensures IsRun(c, []) && End(c, []) == c
  {
  }

  lemma {:induction false} MarkedAccepts(list: seq<Request>, id: int)
    requires Marked(list, id).Ok?
    ensures HasAccepted(Marked(list, id).value, id)
  {
    var i := IndexOf(list, id);
    assert Marked(list, id).value[i].status == Accepted;
  }

  lemma {:induction false} PendingStaysUnaccepted(c: Cluster, r: Request, id: int)
    requires Good(c) && Marked(c.list, id).Ok? && r.status == Pending
    ensures !HasAccepted(Joined(c.list, r), id)
  {
    hide GoodLocal, GoodRequest, OnePendingEach;
    var i, u := IndexOf(c.list, id), Joined(c.list, r);
    forall j | 0 <= j < |u| && u[j].id == id
      ensures u[j].status == Pending
    {
      if j < |c.list| && j != PendingAt(c.list, r.url) {
        assert u[j] == c.list[j] && i == j;
      }
    }
  }

  // ---------------------------------------------------------------- one accept, as steps

  lemma {:induction false} CrashAt(c: Cluster, before: seq<Step>, t: Thread) returns (steps: seq<Step>)
    requires IsRun(c, before) && t !in c.threads && t in End(c, before).threads && End(c, before).threads - {t} == c.threads
    ensures IsRun(c, steps) && End(c, steps) == End(c, before).(threads := c.threads)
  {
    hide IsRun, End, Lookup, Marked, Joined, CleanURL;
    RunSnoc(c, before, Crash(t));
    steps := before + [Crash(t)];
  }

  /** The run's end: what c was, but for what the accept did. */
  ghost predicate Reaches(c: Cluster, steps: seq<Step>, list: seq<Request>, secondaries: set<string>, peers: set<string>) {
    IsRun(c, steps) && End(c, steps) == c.(list := list, secondaries := secondaries, peers := peers)
  }

  /** The steps of an accept that meets w; it crashes where the handler gives up. */
  lemma {:induction false} AcceptRun(c: Cluster, t: Thread, id: int, w: World, parses: string -> bool)
    returns (steps: seq<Step>)
    requires t !in c.threads
    ensures var found := Lookup(c.list, id, c.decrypt);
            var seen := found.Ok? && w.look == Fine;
            var committed := seen && w.reply == AppliedOk && w.recheck == Fine && UsableURL(found.value.url, parses) && w.saved;
            var done := committed && w.reread && w.mark == Fine && w.marked;
            Reaches(c, steps, if done then Marked(c.list, id).value else c.list,
                    if seen && w.reply != NotApplied then c.secondaries + {found.value.url} else c.secondaries,
                    if committed then c.peers + {CleanURL(found.value.url)} else c.peers)
  {
    LookupMarks(c.list, id, c.decrypt);
    hide IsRun, End, Lookup, Marked, Joined, CleanURL, UsableURL;
    var found := Lookup(c.list, id, c.decrypt);
    RunNothing(c);
    steps := [];
    if found.Ok? && w.look == Fine {
      RunSnoc(c, steps, Look(t, id));
      steps := steps + [Look(t, id)];
      RunSnoc(c, steps, Configure(t, w.reply));
      steps := steps + [Configure(t, w.reply)];
      if w.reply == AppliedOk {
        steps := SavingRun(c, steps, t, id, w, parses);
      }
    }
  }

  lemma {:induction false} SavingRun(c: Cluster, before: seq<Step>, t: Thread, id: int, w: World,
                                     parses: string -> bool) returns (steps: seq<Step>)
    requires t !in c.threads && IsRun(c, before) && Lookup(c.list, id, c.decrypt).Ok?
    requires var r := Lookup(c.list, id, c.decrypt).value;
             && r.id == id && Marked(c.list, id).Ok?
             && End(c, before) == c.(secondaries := c.secondaries + {r.url}, threads := c.threads[t := Configured(r)])
    ensures var r := Lookup(c.list, id, c.decrypt).value;
            var committed := w.recheck == Fine && UsableURL(r.url, parses) && w.saved;
            var done := committed && w.reread && w.mark == Fine && w.marked;
            Reaches(c, steps, if done then Marked(c.list, id).value else c.list, c.secondaries + {r.url},
                    if committed then c.peers + {CleanURL(r.url)} else c.peers)
  {
    hide IsRun, End, Lookup, Marked, Joined, CleanURL, UsableURL;
    var r := Lookup(c.list, id, c.decrypt).value;
    steps := before;
    if w.recheck == Fine && UsableURL(r.url, parses) && w.saved {
      RunSnoc(c, steps, Recheck(t));
      steps := steps + [Recheck(t)];
      RunSnoc(c, steps, SavePeer(t));
      steps := steps + [SavePeer(t)];
      if w.reread && w.mark == Fine && w.marked {
        RunSnoc(c, steps, ReadMark(t));
        steps := steps + [ReadMark(t)];
        RunSnoc(c, steps, WriteMark(t));
        steps := steps + [WriteMark(t)];
        return;
      }
    }
    steps := CrashAt(c, steps, t);
  }

  // ---------------------------------------------------------------- retries

  lemma {:induction false} SaveAndMark(c: Cluster, before: seq<Step>, t: Thread, r: Request) returns (steps: seq<Step>)
    requires IsRun(c, before) && t in End(c, before).threads && End(c, before).threads[t] == Rechecked(r)
    requires Marked(End(c, before).list, r.id).Ok?
    ensures IsRun(c, steps) && HasAccepted(End(c, steps).list, r.id)
  {
    hide Lookup, Marked, Joined, CleanURL, HasAccepted, IsRun, End;
    RunSnoc(c, before, SavePeer(t));
    steps := before + [SavePeer(t)];
    RunSnoc(c, steps, ReadMark(t));
    steps := steps + [ReadMark(t)];
    RunSnoc(c, steps, WriteMark(t));
    steps := steps + [WriteMark(t)];
    MarkedAccepts(End(c, before).list, r.id);
  }

  /**
   Whatever crashed or failed before, a pending request whose token can be read is accepted by a new accept whose
   steps succeed.
   */
  lemma {:induction false} RetryFinishes(c: Cluster, t: Thread, id: int) returns (steps: seq<Step>)
    requires t !in c.threads && Lookup(c.list, id, c.decrypt).Ok?
    ensures IsRun(c, steps) && HasAccepted(End(c, steps).list, id)
  {
    LookupMarks(c.list, id, c.decrypt);
    hide Lookup, Marked, Joined, CleanURL, HasAccepted, IsRun, End;
    RunNothing(c);
    RunSnoc(c, [], Look(t, id));
    steps := [] + [Look(t, id)];
    RunSnoc(c, steps, Configure(t, AppliedOk));
    steps := steps + [Configure(t, AppliedOk)];
    RunSnoc(c, steps, Recheck(t));
    steps := steps + [Recheck(t)];
    steps := SaveAndMark(c, steps, t, Lookup(c.list, id, c.decrypt).value);
  }
}
