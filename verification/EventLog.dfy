/** The stored query events, their index of blocked ones, and the counters of each host. */
module EventLog {
  import opened Text
  import opened Timestamps

  /** What the writer stores; `ts` is the formatted time. Host 0 stands for a host that could not be looked up. */
  datatype Event = Event(ts: string, host: int, ip: string, name: string, action: string, rule: Option<int>, source: string)

  datatype QueryRow = QueryRow(id: int, event: Event)

  datatype BlockRow = BlockRow(id: int, queryId: int, host: int, ip: string, name: string, rule: Option<int>,
                               source: string, created: string)

  datatype Counts = Counts(queries: int, blocks: int)

  const BLOCKED := "blocked"

  function NextQueryId(qs: seq<QueryRow>): int {
    if qs == [] then 1 else qs[|qs| - 1].id + 1
  }

  function NextBlockId(bs: seq<BlockRow>): int {
    if bs == [] then 1 else bs[|bs| - 1].id + 1
  }

  /** The first id is 1, and a later one is the next after the greatest. */
  lemma {:induction false} NextQueryIdIs(qs: seq<QueryRow>)
    requires Ascending(qs)
    ensures qs == [] ==> NextQueryId(qs) == 1
    ensures qs != [] ==> (exists q :: q in qs && NextQueryId(qs) == q.id + 1) && forall q :: q in qs ==> q.id < NextQueryId(qs)
  {
    if qs != [] {
      var last := qs[|qs| - 1];
      assert last in qs && NextQueryId(qs) == last.id + 1;
      forall q | q in qs
        ensures q.id < NextQueryId(qs)
      {
        var i :| 0 <= i < |qs| && qs[i] == q;
        assert i < |qs| - 1 ==> qs[i].id < qs[|qs| - 1].id;
      }
    }
  }

  lemma {:induction false} NextBlockIdIs(bs: seq<BlockRow>)
    requires AscendingBlocks(bs)
    ensures bs == [] ==> NextBlockId(bs) == 1
    ensures bs != [] ==> (exists b :: b in bs && NextBlockId(bs) == b.id + 1) && forall b :: b in bs ==> b.id < NextBlockId(bs)
  {
    if bs != [] {
      var last := bs[|bs| - 1];
      assert last in bs && NextBlockId(bs) == last.id + 1;
      forall b | b in bs
        ensures b.id < NextBlockId(bs)
      {
        var i :| 0 <= i < |bs| && bs[i] == b;
        assert i < |bs| - 1 ==> bs[i].id < bs[|bs| - 1].id;
      }
    }
  }

  /** The columns the two tables share. */
  datatype Fact = Fact(queryId: int, host: int, ip: string, name: string, rule: Option<int>, source: string, ts: string)

  function FactOf(q: QueryRow): Fact {
    Fact(q.id, q.event.host, q.event.ip, q.event.name, q.event.rule, q.event.source, q.event.ts)
  }

  function Index(b: BlockRow): Fact {
    Fact(b.queryId, b.host, b.ip, b.name, b.rule, b.source, b.created)
  }

  /** The blocked query events, in id order. */
  function BlockedFacts(qs: seq<QueryRow>): seq<Fact> {
    if qs == [] then [] else
      var n := |qs| - 1;
      BlockedFacts(qs[..n]) + if qs[n].event.action == BLOCKED then [FactOf(qs[n])] else []
  }

  /** An event is indexed if its action is "blocked", and no other is. */
  lemma {:induction false} BlockedFactsOf(qs: seq<QueryRow>, q: QueryRow)
    ensures BlockedFacts(qs + [q]) == BlockedFacts(qs) +
            if q.event.action == "blocked"
            then [Fact(q.id, q.event.host, q.event.ip, q.event.name, q.event.rule, q.event.source, q.event.ts)] else []
  {
    assert (qs + [q])[..|qs|] == qs;
  }

  /** The block events, in id order. */
  function IndexFacts(bs: seq<BlockRow>): seq<Fact> {
    seq(|bs|, i requires 0 <= i < |bs| => Index(bs[i]))
  }

  ghost predicate Ascending(qs: seq<QueryRow>) {
    forall i, j :: 0 <= i < j < |qs| ==> qs[i].id < qs[j].id
  }

  ghost predicate AscendingBlocks(bs: seq<BlockRow>) {
    forall i, j :: 0 <= i < j < |bs| ==> bs[i].id < bs[j].id
  }

  // ---------------------------------------------------------------- counting

  /** The events of host h; only the blocked ones if `blocked`. */
  function CountOf(es: seq<Event>, h: int, blocked: bool): int {
    if es == [] then 0 else
      var e := es[|es| - 1];
      CountOf(es[..|es| - 1], h, blocked) + if e.host == h && (blocked ==> e.action == BLOCKED) then 1 else 0
  }

  function EventsOf(qs: seq<QueryRow>): seq<Event> {
    seq(|qs|, i requires 0 <= i < |qs| => qs[i].event)
  }

  function Counted(hosts: map<int, Counts>, e: Event): map<int, Counts> {
    if e.host !in hosts then hosts else
      var c := hosts[e.host];
      hosts[e.host := Counts(c.queries + 1, c.blocks + if e.action == BLOCKED then 1 else 0)]
  }

  // ---------------------------------------------------------------- purging

  function Kept(qs: seq<QueryRow>, cutoff: string): seq<QueryRow> {
    if qs == [] then [] else
      var n := |qs| - 1;
      Kept(qs[..n], cutoff) + if Less(qs[n].event.ts, cutoff) then [] else [qs[n]]
  }

  function Gone(qs: seq<QueryRow>, cutoff: string): set<int> {
    set i | 0 <= i < |qs| && Less(qs[i].event.ts, cutoff) :: qs[i].id
  }

  lemma {:induction false} GoneIff(qs: seq<QueryRow>, cutoff: string, id: int)
    ensures id in Gone(qs, cutoff) <==> exists q :: q in qs && q.id == id && Less(q.event.ts, cutoff)
  {
    hide Less;
    if q :| q in qs && q.id == id && Less(q.event.ts, cutoff) {
      var i :| 0 <= i < |qs| && qs[i] == q;
      assert qs[i].id in Gone(qs, cutoff);
    }
  }

  function KeptBlocks(bs: seq<BlockRow>, cutoff: string): seq<BlockRow> {
    if bs == [] then [] else
      var n := |bs| - 1;
      KeptBlocks(bs[..n], cutoff) + if Less(bs[n].created, cutoff) then [] else [bs[n]]
  }

  /** ON DELETE CASCADE of the block events of deleted query events. */
  function Cascaded(bs: seq<BlockRow>, gone: set<int>): seq<BlockRow> {
    if bs == [] then [] else
      var n := |bs| - 1;
      Cascaded(bs[..n], gone) + if bs[n].queryId in gone then [] else [bs[n]]
  }

  function KeptFacts(fs: seq<Fact>, cutoff: string): seq<Fact> {
    if fs == [] then [] else
      var n := |fs| - 1;
      KeptFacts(fs[..n], cutoff) + if Less(fs[n].ts, cutoff) then [] else [fs[n]]
  }

  lemma {:induction false} KeptFactsConcat(a: seq<Fact>, b: seq<Fact>, cutoff: string)
    ensures KeptFacts(a + b, cutoff) == KeptFacts(a, cutoff) + KeptFacts(b, cutoff)
  {
    hide Less;
    if b == [] {
      assert a + b == a;
    } else {
      var n := |b| - 1;
      assert (a + b)[..|a| + n] == a + b[..n];
      KeptFactsConcat(a, b[..n], cutoff);
    }
  }

  /** Purging the query events purges their facts. */
  lemma {:induction false} PurgedQueries(qs: seq<QueryRow>, cutoff: string)
    ensures BlockedFacts(Kept(qs, cutoff)) == KeptFacts(BlockedFacts(qs), cutoff)
  {
    hide Less;
    if qs != [] {
      var n := |qs| - 1;
      var kept, q := Kept(qs[..n], cutoff), qs[n];
      PurgedQueries(qs[..n], cutoff);
      var tail := if q.event.action == BLOCKED then [FactOf(q)] else [];
      KeptFactsConcat(BlockedFacts(qs[..n]), tail, cutoff);
      assert (kept + [q])[..|kept|] == kept;
      assert kept + [] == kept;
      OneFactKept(q, cutoff);
    }
  }

  lemma {:induction false} OneFactKept(q: QueryRow, cutoff: string)
    ensures KeptFacts([], cutoff) == []
    ensures KeptFacts([FactOf(q)], cutoff) == if Less(q.event.ts, cutoff) then [] else [FactOf(q)]
  {
    hide Less;
    assert [FactOf(q)][..0] == [];
  }

  /** Purging the block events purges the index's facts. */
  lemma {:induction false} PurgedBlocks(bs: seq<BlockRow>, cutoff: string)
    ensures IndexFacts(KeptBlocks(bs, cutoff)) == KeptFacts(IndexFacts(bs), cutoff)
  {
    hide Less;
    if bs != [] {
      var n := |bs| - 1;
      PurgedBlocks(bs[..n], cutoff);
      assert IndexFacts(bs)[..n] == IndexFacts(bs[..n]);
      var kept := KeptBlocks(bs[..n], cutoff);
      assert IndexFacts(kept + [bs[n]]) == IndexFacts(kept) + [Index(bs[n])];
    }
  }

  lemma {:induction false} FactOfBlocked(qs: seq<QueryRow>, f: Fact) returns (i: nat)
    requires f in BlockedFacts(qs)
    ensures i < |qs| && FactOf(qs[i]) == f
  {
    var n := |qs| - 1;
    if qs[n].event.action == BLOCKED && FactOf(qs[n]) == f {
      i := n;
    } else {
      i := FactOfBlocked(qs[..n], f);
    }
  }

  lemma {:induction false} CascadedAreOld(qs: seq<QueryRow>, bs: seq<BlockRow>, cutoff: string, j: nat)
    requires Ascending(qs) && IndexFacts(bs) == BlockedFacts(qs) && j < |bs| && bs[j].queryId in Gone(qs, cutoff)
    ensures Less(bs[j].created, cutoff)
  {
    hide Less, BlockedFacts;
    assert Index(bs[j]) == IndexFacts(bs)[j];
    assert Index(bs[j]) in BlockedFacts(qs);
    var i := FactOfBlocked(qs, Index(bs[j]));
    var g :| 0 <= g < |qs| && Less(qs[g].event.ts, cutoff) && qs[g].id == bs[j].queryId;
    assert g == i;
  }

  lemma {:induction false} CascadeStep(bs: seq<BlockRow>, gone: set<int>, cutoff: string)
    requires forall j :: 0 <= j < |bs| && bs[j].queryId in gone ==> Less(bs[j].created, cutoff)
    ensures KeptBlocks(Cascaded(bs, gone), cutoff) == KeptBlocks(bs, cutoff)
  {
    hide Less;
    if bs != [] {
      var n := |bs| - 1;
      CascadeStep(bs[..n], gone, cutoff);
      var c := Cascaded(bs[..n], gone);
      assert (c + [bs[n]])[..|c|] == c;
      assert c + [] == c && KeptBlocks(bs[..n], cutoff) + [] == KeptBlocks(bs[..n], cutoff);
    }
  }

  /** The purge leaves the same block events whether or not the connection enforces the cascade. */
  lemma {:induction false} CascadeMakesNoDifference(qs: seq<QueryRow>, bs: seq<BlockRow>, cutoff: string)
    requires Ascending(qs) && IndexFacts(bs) == BlockedFacts(qs)
    ensures KeptBlocks(Cascaded(bs, Gone(qs, cutoff)), cutoff) == KeptBlocks(bs, cutoff)
  {
    hide Less, BlockedFacts, Gone;
    forall j | 0 <= j < |bs| && bs[j].queryId in Gone(qs, cutoff)
      ensures Less(bs[j].created, cutoff)
    {
      CascadedAreOld(qs, bs, cutoff, j);
    }
    CascadeStep(bs, Gone(qs, cutoff), cutoff);
  }

  lemma {:induction false} KeptAscends(qs: seq<QueryRow>, cutoff: string)
    requires Ascending(qs)
    ensures Ascending(Kept(qs, cutoff)) && forall q :: q in Kept(qs, cutoff) ==> q in qs
  {
    hide Less;
    if qs != [] {
      var n := |qs| - 1;
      KeptAscends(qs[..n], cutoff);
      var k := Kept(qs[..n], cutoff);
      forall i | 0 <= i < |k| ensures k[i].id < qs[n].id { assert k[i] in qs[..n]; }
    }
  }

  lemma {:induction false} KeptBlocksAscend(bs: seq<BlockRow>, cutoff: string)
    requires AscendingBlocks(bs)
    ensures AscendingBlocks(KeptBlocks(bs, cutoff)) && forall b :: b in KeptBlocks(bs, cutoff) ==> b in bs
  {
    hide Less;
    if bs != [] {
      var n := |bs| - 1;
      KeptBlocksAscend(bs[..n], cutoff);
      var k := KeptBlocks(bs[..n], cutoff);
      forall i | 0 <= i < |k| ensures k[i].id < bs[n].id { assert k[i] in bs[..n]; }
    }
  }

  lemma {:induction false} CountSnoc(es: seq<Event>, e: Event, h: int, blocked: bool)
    ensures CountOf(es + [e], h, blocked) == CountOf(es, h, blocked) + if e.host == h && (blocked ==> e.action == BLOCKED) then 1 else 0
  {
    assert (es + [e])[..|es|] == es;
  }

  /** Purged rows leave the counters as upper bounds. */
  lemma {:induction false} PurgeLowersCounts(qs: seq<QueryRow>, cutoff: string, h: int, blocked: bool)
    ensures CountOf(EventsOf(Kept(qs, cutoff)), h, blocked) <= CountOf(EventsOf(qs), h, blocked)
  {
    hide Less, CountOf, EventsOf;
    if qs != [] {
      var n := |qs| - 1;
      var k, q := Kept(qs[..n], cutoff), qs[n];
      PurgeLowersCounts(qs[..n], cutoff, h, blocked);
      EventsSnoc(qs[..n], q);
      EventsSnoc(k, q);
      assert qs[..n] + [q] == qs && k + [] == k;
      CountSnoc(EventsOf(qs[..n]), q.event, h, blocked);
      CountSnoc(EventsOf(k), q.event, h, blocked);
    }
  }

  // ---------------------------------------------------------------- what every insert and purge keeps

  /** The block events index exactly the blocked query events, with equal columns and in the same order. */
  ghost predicate InStep(qs: seq<QueryRow>, bs: seq<BlockRow>) {
    Ascending(qs) && AscendingBlocks(bs) && IndexFacts(bs) == BlockedFacts(qs)
  }

  /** A host's counters are its inserts ever made, and bound the rows retained. */
  ghost predicate HostCounted(c: Counts, history: seq<Event>, qs: seq<QueryRow>, h: int) {
    && c == Counts(CountOf(history, h, false), CountOf(history, h, true))
    && CountOf(EventsOf(qs), h, false) <= c.queries && CountOf(EventsOf(qs), h, true) <= c.blocks
  }

  ghost predicate HostsCounted(hosts: map<int, Counts>, history: seq<Event>, qs: seq<QueryRow>) {
    forall h :: h in hosts ==> HostCounted(hosts[h], history, qs, h)
  }

  /** The hosts have the ids from 1 to n, and no event names a greater one. */
  ghost predicate HostsNamed(n: int, hosts: map<int, Counts>, history: seq<Event>, qs: seq<QueryRow>) {
    && (forall h :: h in hosts <==> 1 <= h <= n)
    && (forall i :: 0 <= i < |history| ==> history[i].host <= n)
    && (forall i :: 0 <= i < |qs| ==> qs[i].event.host <= n)
  }

  lemma {:induction false} InsertKeepsNames(n: int, hosts: map<int, Counts>, history: seq<Event>, qs: seq<QueryRow>,
                                            id: int, e: Event)
    requires HostsNamed(n, hosts, history, qs) && e.host <= n
    ensures HostsNamed(n, Counted(hosts, e), history + [e], qs + [QueryRow(id, e)])
  {
  }

  lemma {:induction false} PurgeKeepsNames(n: int, hosts: map<int, Counts>, history: seq<Event>, qs: seq<QueryRow>,
                                           cutoff: string)
    requires HostsNamed(n, hosts, history, qs) && Ascending(qs)
    ensures HostsNamed(n, hosts, history, Kept(qs, cutoff))
  {
    KeptAscends(qs, cutoff);
    hide Kept;
    forall i | 0 <= i < |Kept(qs, cutoff)|
      ensures Kept(qs, cutoff)[i].event.host <= n
    {
      assert Kept(qs, cutoff)[i] in qs;
    }
  }

  /** The position of an address, or the length of the list. */
  function AddressAt(addresses: seq<string>, a: string): (i: nat)
    ensures i <= |addresses| && (i < |addresses| ==> addresses[i] == a)
    ensures i < |addresses| <==> a in addresses
  {
    if addresses == [] || addresses[0] == a then 0 else 1 + AddressAt(addresses[1..], a)
  }

  /** What EnsureHost looks a host up by. */
  function AddressOf(ip: string, isIP: string -> bool): string {
    if isIP(TrimSpace(ip)) then TrimSpace(ip) else "unknown"
  }

  /** INSERT OR IGNORE of a host; its id is the next one, as none is ever deleted. */
  function Known(addresses: seq<string>, a: string): seq<string> {
    if a in addresses then addresses else addresses + [a]
  }

  class Log {
    /** The hosts' source_ip by id, from 1 on. */
    var addresses: seq<string>
    var queries: seq<QueryRow>
    var blocks: seq<BlockRow>
    var hosts: map<int, Counts>
    /** Every event ever inserted, purged or not. */
    ghost var history: seq<Event>

    ghost predicate Valid()
      reads this
    {
      InStep(queries, blocks) && HostsCounted(hosts, history, queries)
    }

    ghost predicate Named()
      reads this
    {
      HostsNamed(|addresses|, hosts, history, queries)
    }

    constructor ()
      ensures Valid() && Named() && addresses == [] && queries == [] && blocks == [] && hosts == map[] && history == []
    {
      addresses, queries, blocks, hosts, history := [], [], [], map[], [];
    }

    /** The id of the address, a new one with its counters at zero if it was not known, or 0 when a statement fails. */
    method EnsureHost(ip: string, isIP: string -> bool, insertOk: bool, updateOk: bool, readOk: bool) returns (id: int)
      requires Valid() && Named()
      modifies this`addresses, this`hosts
      ensures Valid() && Named()
      ensures addresses == if insertOk then Known(old(addresses), AddressOf(ip, isIP)) else old(addresses)
      ensures var a := if isIP(TrimSpace(ip)) then TrimSpace(ip) else "unknown";
              addresses == if !insertOk || a in old(addresses) then old(addresses) else old(addresses) + [a]
      ensures hosts == if |addresses| > |old(addresses)| then old(hosts)[|addresses| := Counts(0, 0)] else old(hosts)
      ensures id != 0 <==> insertOk && updateOk && readOk
      ensures id != 0 ==> 1 <= id <= |addresses| && addresses[id - 1] == if isIP(TrimSpace(ip)) then TrimSpace(ip) else "unknown"
    {
      hide InStep, CountOf, EventsOf, TrimSpace;
      var address := AddressOf(ip, isIP);
      if !insertOk {
        return 0;
      }
      if address !in addresses {
        NoneOf(history, |addresses| + 1);
        NoneOf(EventsOf(queries), |addresses| + 1) by { EventsNameNone(queries, |addresses| + 1); }
        addresses := addresses + [address];
        hosts := hosts[|addresses| := Counts(0, 0)];
      }
      if !updateOk || !readOk {
        return 0;
      }
      id := AddressAt(addresses, address) + 1;
    }

    /**
     InsertQueryEvent: all its writes or none. `enforced` says whether the connection checks foreign keys; if it does,
     a host that is not there refuses the event.
     */
    method InsertQueryEvent(e: Event, enforced: bool, dbOk: bool) returns (ok: bool)
      requires Valid()
      modifies this`queries, this`blocks, this`hosts, this`history
      ensures Valid()
      ensures old(Named()) && e.host <= |addresses| ==> Named()
      ensures ok <==> dbOk && (enforced ==> e.host in old(hosts))
      ensures !ok ==> unchanged(this)
      ensures ok ==> queries == old(queries) + [QueryRow(NextQueryId(old(queries)), e)] && history == old(history) + [e]
      ensures ok ==> hosts == Counted(old(hosts), e)
      ensures ok && e.action != BLOCKED ==> blocks == old(blocks)
      ensures ok && e.action == BLOCKED ==>
                blocks == old(blocks) + [BlockRow(NextBlockId(old(blocks)), NextQueryId(old(queries)), e.host, e.ip, e.name, e.rule, e.source, e.ts)]
    {
      hide *;
      BlockRowIs(queries, blocks, e);
      if !dbOk || (enforced && e.host !in hosts) {
        return false;
      }
      var id := NextQueryId(queries);
      ValidParts(this);
      NamedParts(this);
      if Named() && e.host <= |addresses| {
        InsertKeepsNames(|addresses|, hosts, history, queries, id, e);
      }
      InsertKeepsIndex(queries, blocks, e);
      InsertKeepsCounts(hosts, history, queries, id, e);
      var block := BlockRowOf(queries, blocks, e);
      queries := queries + [QueryRow(id, e)];
      hosts := Counted(hosts, e);
      if e.action == BLOCKED {
        blocks := blocks + [block];
      }
      history := history + [e];
      PartsValid(this);
      NamedParts(this);
      ok := true;
    }

    /** PurgeOldEvents: both deletes or none; `enforced` says whether the first one cascades. */
    method PurgeOldEvents(cutoff: string, enforced: bool, dbOk: bool) returns (ok: bool)
      requires Valid()
      modifies this`queries, this`blocks
      ensures Valid() && ok == dbOk
      ensures old(Named()) ==> Named()
      ensures queries == if dbOk then Kept(old(queries), cutoff) else old(queries)
      ensures blocks == if dbOk then KeptBlocks(old(blocks), cutoff) else old(blocks)
    {
      hide *;
      if !dbOk {
        return false;
      }
      ValidParts(this);
      NamedParts(this);
      if Named() {
        InStepAscends(queries, blocks);
        PurgeKeepsNames(|addresses|, hosts, history, queries, cutoff);
      }
      PurgeKeepsIndex(queries, blocks, cutoff);
      PurgeKeepsCounts(hosts, history, queries, cutoff);
      var left := if enforced then Cascaded(blocks, Gone(queries, cutoff)) else blocks;
      queries := Kept(queries, cutoff);
      blocks := KeptBlocks(left, cutoff);
      PartsValid(this);
      NamedParts(this);
      ok := true;
    }
  }

  lemma {:induction false} EventsNameNone(qs: seq<QueryRow>, h: int)
    requires forall i :: 0 <= i < |qs| ==> qs[i].event.host != h
    ensures forall i :: 0 <= i < |EventsOf(qs)| ==> EventsOf(qs)[i].host != h
  {
  }

  lemma {:induction false} ValidParts(log: Log)
    requires log.Valid()
    ensures InStep(log.queries, log.blocks) && HostsCounted(log.hosts, log.history, log.queries)
  {
  }

  lemma {:induction false} NamedParts(log: Log)
    ensures log.Named() <==> HostsNamed(|log.addresses|, log.hosts, log.history, log.queries)
  {
  }

  lemma {:induction false} InStepAscends(qs: seq<QueryRow>, bs: seq<BlockRow>)
    requires InStep(qs, bs)
    ensures Ascending(qs)
  {
  }

  lemma {:induction false} PartsValid(log: Log)
    requires InStep(log.queries, log.blocks) && HostsCounted(log.hosts, log.history, log.queries)
    ensures log.Valid()
  {
  }

  /** The block event of a query event about to be inserted. */
  function BlockRowOf(qs: seq<QueryRow>, bs: seq<BlockRow>, e: Event): BlockRow {
    BlockRow(NextBlockId(bs), NextQueryId(qs), e.host, e.ip, e.name, e.rule, e.source, e.ts)
  }

  lemma {:induction false} BlockRowIs(qs: seq<QueryRow>, bs: seq<BlockRow>, e: Event)
    ensures BlockRowOf(qs, bs, e) == BlockRow(NextBlockId(bs), NextQueryId(qs), e.host, e.ip, e.name, e.rule, e.source, e.ts)
  {
  }

  lemma {:induction false} InsertKeepsCounts(hosts: map<int, Counts>, history: seq<Event>, qs: seq<QueryRow>, id: int,
                                             e: Event)
    requires HostsCounted(hosts, history, qs)
    ensures HostsCounted(Counted(hosts, e), history + [e], qs + [QueryRow(id, e)])
  {
    hide CountOf, EventsOf;
    assert EventsOf(qs + [QueryRow(id, e)]) == EventsOf(qs) + [e] by { EventsSnoc(qs, QueryRow(id, e)); }
    forall h | h in hosts
      ensures HostCounted(Counted(hosts, e)[h], history + [e], qs + [QueryRow(id, e)], h)
    {
      assert HostCounted(hosts[h], history, qs, h);
      CountSnoc(history, e, h, false);
      CountSnoc(history, e, h, true);
      CountSnoc(EventsOf(qs), e, h, false);
      CountSnoc(EventsOf(qs), e, h, true);
    }
  }

  lemma {:induction false} EventsSnoc(qs: seq<QueryRow>, q: QueryRow)
    ensures EventsOf(qs + [q]) == EventsOf(qs) + [q.event]
  {
  }

  lemma {:induction false} PurgeKeepsCounts(hosts: map<int, Counts>, history: seq<Event>, qs: seq<QueryRow>,
                                            cutoff: string)
    requires HostsCounted(hosts, history, qs)
    ensures HostsCounted(hosts, history, Kept(qs, cutoff))
  {
    hide CountOf, EventsOf, Kept;
    forall h | h in hosts
      ensures HostCounted(hosts[h], history, Kept(qs, cutoff), h)
    {
      assert HostCounted(hosts[h], history, qs, h);
      PurgeLowersCounts(qs, cutoff, h, false);
      PurgeLowersCounts(qs, cutoff, h, true);
    }
  }

  lemma {:induction false} NoneOf(es: seq<Event>, h: int)
    requires forall i :: 0 <= i < |es| ==> es[i].host != h
    ensures CountOf(es, h, false) == 0 && CountOf(es, h, true) == 0
  {
    if es != [] {
      NoneOf(es[..|es| - 1], h);
    }
  }

  /** Inserting an event, and indexing it if it is blocked, keeps the two tables in step. */
  lemma {:induction false} InsertKeepsIndex(qs: seq<QueryRow>, bs: seq<BlockRow>, e: Event)
    requires InStep(qs, bs)
    ensures InStep(qs + [QueryRow(NextQueryId(qs), e)], if e.action == BLOCKED then bs + [BlockRowOf(qs, bs, e)] else bs)
  {
    var q, b := QueryRow(NextQueryId(qs), e), BlockRowOf(qs, bs, e);
    assert (qs + [q])[..|qs|] == qs;
    assert BlockedFacts(qs + [q]) == BlockedFacts(qs) + if e.action == BLOCKED then [FactOf(q)] else [];
    assert IndexFacts(bs + [b]) == IndexFacts(bs) + [Index(b)];
  }

  /** The purge keeps them in step too, whether or not the connection enforces the cascade. */
  lemma {:induction false} PurgeKeepsIndex(qs: seq<QueryRow>, bs: seq<BlockRow>, cutoff: string)
    requires InStep(qs, bs)
    ensures InStep(Kept(qs, cutoff), KeptBlocks(bs, cutoff))
    ensures KeptBlocks(Cascaded(bs, Gone(qs, cutoff)), cutoff) == KeptBlocks(bs, cutoff)
  {
    hide Less, IndexFacts, BlockedFacts, Gone;
    PurgedQueries(qs, cutoff);
    PurgedBlocks(bs, cutoff);
    CascadeMakesNoDifference(qs, bs, cutoff);
    KeptAscends(qs, cutoff);
    KeptBlocksAscend(bs, cutoff);
  }

  lemma {:induction false} KeptMember(qs: seq<QueryRow>, cutoff: string, q: QueryRow)
    ensures q in Kept(qs, cutoff) <==> q in qs && !Less(q.event.ts, cutoff)
  {
    hide Less;
    if qs != [] {
      KeptMember(qs[..|qs| - 1], cutoff, q);
      assert qs == qs[..|qs| - 1] + [qs[|qs| - 1]];
    }
  }

  /** In terms of time: the purge removes every event of a second before the cutoff's and none of a later second. */
  lemma {:induction false} PurgeKeepsBySecond(qs: seq<QueryRow>, q: QueryRow, at: Instant, cutoff: Instant)
    requires Timestamps.Valid(at) && Timestamps.Valid(cutoff) && q in qs && q.event.ts == Stamp(at)
    ensures Seconds(at) < Seconds(cutoff) ==> q !in Kept(qs, Stamp(cutoff))
    ensures Seconds(at) > Seconds(cutoff) ==> q in Kept(qs, Stamp(cutoff))
    ensures Seconds(at) == Seconds(cutoff) ==>
              (q in Kept(qs, Stamp(cutoff)) <==>
                 at.nano == cutoff.nano
                 || (at.nano > cutoff.nano && !(Fraction(cutoff.nano) <= Fraction(at.nano)))
                 || (at.nano < cutoff.nano && Fraction(at.nano) <= Fraction(cutoff.nano)))
  {
    hide Less, Stamp, Seconds, Fraction, Kept;
    KeptMember(qs, Stamp(cutoff), q);
    StampOrder(at, cutoff);
  }

  // ---------------------------------------------------------------- runs

  /** One call of the event store; an insert names a host as EnsureHost returned it. */
  datatype Step =
    | Host(ip: string, insertOk: bool, updateOk: bool, readOk: bool)
    | Insert(e: Event, enforced: bool, dbOk: bool)
    | Purge(cutoff: string, enforced: bool, dbOk: bool)

  /** The hosts known after the steps. */
  function Seen(steps: seq<Step>, isIP: string -> bool): seq<string> {
    if steps == [] then [] else
      var before, step := Seen(steps[..|steps| - 1], isIP), steps[|steps| - 1];
      if step.Host? && step.insertOk then Known(before, AddressOf(step.ip, isIP)) else before
  }

  /** The step inserts its event: the transaction works, and a host that the connection checks is there. */
  predicate Inserts(step: Step, n: int) {
    step.Insert? && step.dbOk && (step.enforced ==> 1 <= step.e.host <= n)
  }

  /** Every event the steps insert, in order. */
  function Inserted(steps: seq<Step>, isIP: string -> bool): seq<Event> {
    if steps == [] then [] else
      var before, step := steps[..|steps| - 1], steps[|steps| - 1];
      Inserted(before, isIP) + if Inserts(step, |Seen(before, isIP)|) then [step.e] else []
  }

  function KeptEvents(es: seq<Event>, cutoff: string): seq<Event> {
    if es == [] then [] else
      var n := |es| - 1;
      KeptEvents(es[..n], cutoff) + if Less(es[n].ts, cutoff) then [] else [es[n]]
  }

  /** The inserted events that no later purge takes. */
  function Retained(steps: seq<Step>, isIP: string -> bool): seq<Event> {
    if steps == [] then [] else
      var before, step := steps[..|steps| - 1], steps[|steps| - 1];
      if Inserts(step, |Seen(before, isIP)|) then Retained(before, isIP) + [step.e]
      else if step.Purge? && step.dbOk then KeptEvents(Retained(before, isIP), step.cutoff)
      else Retained(before, isIP)
  }

  /** Each event names a host that was known when it was inserted, or none. */
  predicate HostsKnown(steps: seq<Step>, isIP: string -> bool) {
    forall i :: 0 <= i < |steps| && steps[i].Insert? ==> 0 <= steps[i].e.host <= |Seen(steps[..i], isIP)|
  }

  lemma {:induction false} EventsKept(qs: seq<QueryRow>, cutoff: string)
    ensures EventsOf(Kept(qs, cutoff)) == KeptEvents(EventsOf(qs), cutoff)
  {
    hide Less;
    if qs != [] {
      var n := |qs| - 1;
      EventsKept(qs[..n], cutoff);
      assert EventsOf(qs)[..n] == EventsOf(qs[..n]);
      EventsSnoc(Kept(qs[..n], cutoff), qs[n]);
      assert Kept(qs[..n], cutoff) + [] == Kept(qs[..n], cutoff);
    }
  }

  /**
   Any steps from an empty log: the query events are the inserted ones that no later purge took, the block events are the
   blocked ones among them, and each host's counters are its inserts, purged or not.
   */
  method Run(steps: seq<Step>, isIP: string -> bool) returns (log: Log)
    requires HostsKnown(steps, isIP)
    ensures fresh(log) && log.addresses == Seen(steps, isIP)
    ensures EventsOf(log.queries) == Retained(steps, isIP)
    ensures IndexFacts(log.blocks) == BlockedFacts(log.queries)
    ensures forall h :: h in log.hosts <==> 1 <= h <= |Seen(steps, isIP)|
    ensures forall h :: h in log.hosts ==>
              log.hosts[h] == Counts(CountOf(Inserted(steps, isIP), h, false), CountOf(Inserted(steps, isIP), h, true))
  {
    hide *;
    log := new Log();
    NoSteps(isIP);
    for i := 0 to |steps|
      invariant fresh(log) && log.Valid() && log.Named()
      invariant log.addresses == Seen(steps[..i], isIP)
      invariant log.history == Inserted(steps[..i], isIP)
      invariant EventsOf(log.queries) == Retained(steps[..i], isIP)
    {
      StepEffect(steps, i, isIP);
      KnownHost(steps, i, isIP);
      NamedParts(log);
      HostsInRange(log);
      match steps[i] {
        case Host(ip, insertOk, updateOk, readOk) =>
          var _ := log.EnsureHost(ip, isIP, insertOk, updateOk, readOk);
        case Insert(e, enforced, dbOk) =>
          EventsSnoc(log.queries, QueryRow(NextQueryId(log.queries), e));
          var _ := log.InsertQueryEvent(e, enforced, dbOk);
        case Purge(cutoff, enforced, dbOk) =>
          EventsKept(log.queries, cutoff);
          var _ := log.PurgeOldEvents(cutoff, enforced, dbOk);
      }
    }
    assert steps[..|steps|] == steps;
    LogParts(log);
  }

  lemma {:induction false} NoSteps(isIP: string -> bool)
    ensures Seen([], isIP) == [] && Inserted([], isIP) == [] && Retained([], isIP) == [] && EventsOf([]) == []
  {
  }

  lemma {:induction false} StepEffect(steps: seq<Step>, i: nat, isIP: string -> bool)
    requires i < |steps|
    ensures var before, after, step := steps[..i], steps[..i + 1], steps[i];
            var ok := step.Insert? && step.dbOk && (step.enforced ==> 1 <= step.e.host <= |Seen(before, isIP)|);
            && Seen(after, isIP) == (if step.Host? && step.insertOk then Known(Seen(before, isIP), AddressOf(step.ip, isIP)) else Seen(before, isIP))
            && Inserted(after, isIP) == (if ok then Inserted(before, isIP) + [step.e] else Inserted(before, isIP))
            && Retained(after, isIP) == if ok then Retained(before, isIP) + [step.e]
                                        else if step.Purge? && step.dbOk then KeptEvents(Retained(before, isIP), step.cutoff)
                                        else Retained(before, isIP)
  {
    hide Known, AddressOf, KeptEvents;
    assert steps[..i + 1][..i] == steps[..i];
    assert Inserted(steps[..i], isIP) + [] == Inserted(steps[..i], isIP);
  }

  lemma {:induction false} KnownHost(steps: seq<Step>, i: nat, isIP: string -> bool)
    requires i < |steps| && HostsKnown(steps, isIP)
    ensures steps[i].Insert? ==> 0 <= steps[i].e.host <= |Seen(steps[..i], isIP)|
  {
  }

  lemma {:induction false} HostsInRange(log: Log)
    requires log.Named()
    ensures forall h :: h in log.hosts <==> 1 <= h <= |log.addresses|
  {
  }

  lemma {:induction false} LogParts(log: Log)
    requires log.Valid() && log.Named()
    ensures IndexFacts(log.blocks) == BlockedFacts(log.queries)
    ensures forall h :: h in log.hosts <==> 1 <= h <= |log.addresses|
    ensures forall h :: h in log.hosts ==> log.hosts[h] == Counts(CountOf(log.history, h, false), CountOf(log.history, h, true))
  {
    hide CountOf, EventsOf, IndexFacts, BlockedFacts;
    forall h | h in log.hosts
      ensures log.hosts[h] == Counts(CountOf(log.history, h, false), CountOf(log.history, h, true))
    {
      assert HostCounted(log.hosts[h], log.history, log.queries, h);
    }
  }
}
