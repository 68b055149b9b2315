/** The scan for connections that existed before the probe: who owns a connection to a known endpoint. */
module ConnScan {
  import opened Base
  import opened Decimal
  import opened ProcNet

  /** A directory of the proc root, as read during one scan: its name as a number, the inode of its network namespace
      (0 if unknown), its connection tables, and the inodes of the sockets it holds open. */
  datatype Proc = Proc(pid: Option<int>, netns: int, tcp: Option<seq<seq<string>>>, tcp6: Option<seq<seq<string>>>,
                       owned: seq<int>)

  datatype Found = Found(pid: int, conn: Match)
  datatype Event = Event(pid: int, provider: int)

  predicate IsScanned(p: Proc, self: int) {
    p.pid.Some? && p.pid.value != self && 0 <= p.pid.value < 0x1_0000_0000
  }

  function FileMatches(file: Option<seq<seq<string>>>, isV6: bool, known: map<Endpoint, int>): seq<Match> {
    if file.None? then [] else Matches(file.value, isV6, known)
  }

  function AllMatches(p: Proc, known: map<Endpoint, int>): seq<Match> {
    FileMatches(p.tcp, false, known) + FileMatches(p.tcp6, true, known)
  }

  /** The last match of each inode. */
  function ByInode(ms: seq<Match>): map<int, Match> {
    if ms == [] then map[] else ByInode(ms[..|ms| - 1])[ms[|ms| - 1].inode := ms[|ms| - 1]]
  }

  function Table(p: Proc, known: map<Endpoint, int>): map<int, Match> {
    ByInode(AllMatches(p, known))
  }

  function KeysOf(found: seq<Found>): set<(int, Endpoint)> {
    set f | f in found :: (f.pid, f.conn.remote)
  }

  /** Adds the connections of a process whose sockets it owns, each endpoint once. */
  function AddOwned(found: seq<Found>, pid: int, owned: seq<int>, table: map<int, Match>): seq<Found> {
    if owned == [] then found
    else
      var before, inode := AddOwned(found, pid, owned[..|owned| - 1], table), owned[|owned| - 1];
      if inode in table && (pid, table[inode].remote) !in KeysOf(before) then before + [Found(pid, table[inode])]
      else before
  }

  /** A scan that reads the tables of every process. */
  function Uncached(procs: seq<Proc>, known: map<Endpoint, int>, self: int): seq<Found> {
    if procs == [] then []
    else
      var before, p := Uncached(procs[..|procs| - 1], known, self), procs[|procs| - 1];
      if IsScanned(p, self) then AddOwned(before, p.pid.value, p.owned, Table(p, known)) else before
  }

  /** The first scanned process of a namespace. */
  function First(procs: seq<Proc>, netns: int, self: int): Option<Proc> {
    if procs == [] then None
    else
      var before, p := First(procs[..|procs| - 1], netns, self), procs[|procs| - 1];
      if before.None? && IsScanned(p, self) && p.netns == netns then Some(p) else before
  }

  /** Whose tables stand for p's: the first process of its namespace, or its own if that is unknown. */
  function Reader(procs: seq<Proc>, p: Proc, self: int): Proc {
    var q := First(procs, p.netns, self);
    if p.netns != 0 && q.Some? then q.value else p
  }

  /** A scan that reads the tables once for each namespace. */
  function Cached(procs: seq<Proc>, known: map<Endpoint, int>, self: int): seq<Found> {
    if procs == [] then []
    else
      var init, p := procs[..|procs| - 1], procs[|procs| - 1];
      var before := Cached(init, known, self);
      if IsScanned(p, self) then AddOwned(before, p.pid.value, p.owned, Table(Reader(init, p, self), known)) else before
  }

  function EventsOf(found: seq<Found>): (es: seq<Event>)
    ensures |es| == |found| && forall i | 0 <= i < |found| :: es[i] == Event(found[i].pid, found[i].conn.provider)
  {
    seq(|found|, i requires 0 <= i < |found| => Event(found[i].pid, found[i].conn.provider))
  }

  class ConnScanner {
    var knownEndpoints: map<Endpoint, int>

    constructor ()
      ensures knownEndpoints == map[]
    {
      knownEndpoints := map[];
    }

    /** Replaces the known endpoints by a copy. */
    method UpdateEndpoints(resolved: map<Endpoint, int>)
      modifies this
      ensures knownEndpoints == resolved
    {
      var next: map<Endpoint, int> := map[];
      var todo := resolved.Keys;
      while todo != {}
        invariant todo <= resolved.Keys && next.Keys == resolved.Keys - todo
        invariant forall k | k in next :: next[k] == resolved[k]
      {
        var k :| k in todo;
        next := next[k := resolved[k]];
        todo := todo - {k};
      }
      knownEndpoints := next;
    }

    method ReadTable(p: Proc, known: map<Endpoint, int>) returns (inodeToMatch: map<int, Match>)
      ensures inodeToMatch == Table(p, known)
    {
      var tcp := ScanTCPFileWithInodes(p.tcp, false, known);
      var tcp6 := ScanTCPFileWithInodes(p.tcp6, true, known);
      var ms := tcp + tcp6;
      inodeToMatch := map[];
      for i := 0 to |ms|
        invariant inodeToMatch == ByInode(ms[..i])
      {
        assert ms[..i + 1][..i] == ms[..i];
        inodeToMatch := inodeToMatch[ms[i].inode := ms[i]];
      }
      assert ms[..|ms|] == ms;
    }

    /** The new events of one process, and the endpoints seen so far. */
    method Attribute(pid: int, owned: seq<int>, table: map<int, Match>, seen: set<(int, Endpoint)>, events: seq<Event>,
                     ghost found: seq<Found>)
      returns (seen': set<(int, Endpoint)>, events': seq<Event>)
      requires seen == KeysOf(found) && events == EventsOf(found)
      ensures var found' := AddOwned(found, pid, owned, table); seen' == KeysOf(found') && events' == EventsOf(found')
    {
      seen', events' := seen, events;
      for i := 0 to |owned|
        invariant var f := AddOwned(found, pid, owned[..i], table); seen' == KeysOf(f) && events' == EventsOf(f)
      {
        assert owned[..i + 1][..i] == owned[..i];
        ghost var f := AddOwned(found, pid, owned[..i], table);
        var inode := owned[i];
        if inode in table {
          var m := table[inode];
          if (pid, m.remote) !in seen' {
            seen' := seen' + {(pid, m.remote)};
            events' := events' + [Event(pid, m.provider)];
            AddOne(f, Found(pid, m));
          }
        }
      }
      assert owned[..|owned|] == owned;
    }

    method Scan(procs: seq<Proc>, self: int) returns (events: seq<Event>)
      ensures events == if knownEndpoints == map[] then [] else EventsOf(Cached(procs, knownEndpoints, self))
    {
      var known := knownEndpoints;
      events := [];
      if known == map[] {
        return;
      }
      var netnsCache: map<int, map<int, Match>> := map[];
      var seen: set<(int, Endpoint)> := {};
      for i := 0 to |procs|
        invariant CacheOk(netnsCache, procs[..i], known, self)
        invariant var f := Cached(procs[..i], known, self); seen == KeysOf(f) && events == EventsOf(f)
      {
        assert procs[..i + 1][..i] == procs[..i];
        var p := procs[i];
        assert procs[..i + 1] == procs[..i] + [p];
        if !IsScanned(p, self) {
          continue;
        }
        var inodeToMatch;
        if p.netns in netnsCache {
          inodeToMatch := netnsCache[p.netns];
        } else {
          inodeToMatch := ReadTable(p, known);
          if p.netns != 0 {
            netnsCache := netnsCache[p.netns := inodeToMatch];
          }
        }
        seen, events := Attribute(p.pid.value, p.owned, inodeToMatch, seen, events, Cached(procs[..i], known, self));
      }
      assert procs[..|procs|] == procs;
    }
  }

  lemma AddOne(f: seq<Found>, x: Found)
    ensures KeysOf(f + [x]) == KeysOf(f) + {(x.pid, x.conn.remote)}
    ensures EventsOf(f + [x]) == EventsOf(f) + [Event(x.pid, x.conn.provider)]
  {
  }

  /** For each namespace met so far, if known, the table of its first process. */
  ghost predicate CacheOk(cache: map<int, map<int, Match>>, procs: seq<Proc>, known: map<Endpoint, int>, self: int) {
    && (forall n :: n in cache <==> n != 0 && First(procs, n, self).Some?)
    && (forall n | n in cache :: cache[n] == Table(First(procs, n, self).value, known))
  }

  // ---------------------------------------------------------------- caching changes nothing

  /** Processes of the same known namespace see the same tables. */
  ghost predicate NamespacesAgree(procs: seq<Proc>) {
    forall p, q | p in procs && q in procs && p.netns == q.netns != 0 :: p.tcp == q.tcp && p.tcp6 == q.tcp6
  }

  lemma {:induction false} FirstFacts(procs: seq<Proc>, netns: int, self: int)
    requires First(procs, netns, self).Some?
    ensures var q := First(procs, netns, self).value; q in procs && IsScanned(q, self) && q.netns == netns
  {
    var init := procs[..|procs| - 1];
    if First(init, netns, self).Some? {
      FirstFacts(init, netns, self);
    }
  }

  lemma {:induction false} CachedIsUncached(procs: seq<Proc>, known: map<Endpoint, int>, self: int)
    requires NamespacesAgree(procs)
    ensures Cached(procs, known, self) == Uncached(procs, known, self)
  {
    if procs != [] {
      var init, p := procs[..|procs| - 1], procs[|procs| - 1];
      CachedIsUncached(init, known, self);
      if First(init, p.netns, self).Some? {
        FirstFacts(init, p.netns, self);
      }
      assert Table(Reader(init, p, self), known) == Table(p, known);
    }
  }

  /** Directory names are distinct. */
  ghost predicate DistinctPids(procs: seq<Proc>) {
    forall i, j | 0 <= i < j < |procs| && procs[i].pid.Some? :: procs[i].pid != procs[j].pid
  }

  ghost predicate NoneOf(found: seq<Found>, pid: int) {
    forall i | 0 <= i < |found| :: found[i].pid != pid
  }

  ghost predicate AllOf(found: seq<Found>, pid: int) {
    forall i | 0 <= i < |found| :: found[i].pid == pid
  }

  /** What a process adds to the findings about others does not depend on them. */
  lemma {:induction false} AddedApart(found: seq<Found>, pid: int, owned: seq<int>, table: map<int, Match>)
    requires NoneOf(found, pid)
    ensures AddOwned(found, pid, owned, table) == found + AddOwned([], pid, owned, table)
    ensures AllOf(AddOwned([], pid, owned, table), pid)
  {
    if owned == [] {
      assert found + [] == found;
    } else {
      var init, inode := owned[..|owned| - 1], owned[|owned| - 1];
      var added := AddOwned([], pid, init, table);
      AddedApart(found, pid, init, table);
      if inode in table {
        assert found + added + [Found(pid, table[inode])] == found + (added + [Found(pid, table[inode])]);
      }
    }
  }

  lemma {:induction false} FoundOfOthers(procs: seq<Proc>, known: map<Endpoint, int>, self: int, pid: int)
    requires forall i | 0 <= i < |procs| :: procs[i].pid != Some(pid)
    ensures NoneOf(Cached(procs, known, self), pid) && NoneOf(Uncached(procs, known, self), pid)
  {
    if procs != [] {
      var init, p := procs[..|procs| - 1], procs[|procs| - 1];
      FoundOfOthers(init, known, self, pid);
      if IsScanned(p, self) {
        NoneAdded(Cached(init, known, self), p.pid.value, p.owned, Table(Reader(init, p, self), known), pid);
        NoneAdded(Uncached(init, known, self), p.pid.value, p.owned, Table(p, known), pid);
      }
    }
  }

  lemma {:induction false} NoneAdded(found: seq<Found>, other: int, owned: seq<int>, table: map<int, Match>, pid: int)
    requires NoneOf(found, pid) && other != pid
    ensures NoneOf(AddOwned(found, other, owned, table), pid)
  {
    if owned != [] {
      NoneAdded(found, other, owned[..|owned| - 1], table, pid);
    }
  }

  lemma SplitByPid(a: seq<Found>, x: seq<Found>, b: seq<Found>, y: seq<Found>, pid: int)
    requires NoneOf(a, pid) && NoneOf(b, pid) && AllOf(x, pid) && AllOf(y, pid)
    ensures a + x == b + y <==> a == b && x == y
  {
    assert |b| < |a| ==> (a + x)[|b|] == a[|b|];
    assert |a| < |b| ==> (b + y)[|a|] == b[|a|];
    assert x != [] ==> (a + x)[|a|] == x[0];
    assert y != [] ==> (b + y)[|b|] == y[0];
    if a + x == b + y {
      assert |a| == |b|;
      assert (a + x)[..|a|] == a && (b + y)[..|b|] == b && (a + x)[|a|..] == x && (b + y)[|b|..] == y;
    }
  }

  /** The i-th process owns the same connections by the tables read for it as by its own. */
  ghost predicate ReadsAlike(procs: seq<Proc>, i: nat, known: map<Endpoint, int>, self: int)
    requires i < |procs|
  {
    var p := procs[i];
    IsScanned(p, self) ==>
      AddOwned([], p.pid.value, p.owned, Table(Reader(procs[..i], p, self), known)) ==
      AddOwned([], p.pid.value, p.owned, Table(p, known))
  }

  /** The cached scan finds what the uncached one does exactly when that holds of every process. */
  lemma {:induction false} CachedIsUncachedIff(procs: seq<Proc>, known: map<Endpoint, int>, self: int)
    requires DistinctPids(procs)
    ensures Cached(procs, known, self) == Uncached(procs, known, self) <==>
            forall i | 0 <= i < |procs| :: ReadsAlike(procs, i, known, self)
  {
    if procs != [] {
      var n := |procs| - 1;
      var init, p := procs[..n], procs[n];
      CachedIsUncachedIff(init, known, self);
      forall i | 0 <= i < n ensures ReadsAlike(init, i, known, self) <==> ReadsAlike(procs, i, known, self) {
        assert init[..i] == procs[..i] && init[i] == procs[i];
      }
      if IsScanned(p, self) {
        var a, b, pid := Cached(init, known, self), Uncached(init, known, self), p.pid.value;
        var read, own := Table(Reader(init, p, self), known), Table(p, known);
        FoundOfOthers(init, known, self, pid);
        AddedApart(a, pid, p.owned, read);
        AddedApart(b, pid, p.owned, own);
        SplitByPid(a, AddOwned([], pid, p.owned, read), b, AddOwned([], pid, p.owned, own), pid);
      }
      assert Cached(procs, known, self) == Uncached(procs, known, self) <==>
             Cached(init, known, self) == Uncached(init, known, self) && ReadsAlike(procs, n, known, self);
    }
  }

  lemma {:induction false} AddOwnedNothing(found: seq<Found>, pid: int, owned: seq<int>)
    ensures AddOwned(found, pid, owned, map[]) == found
  {
    if owned != [] {
      AddOwnedNothing(found, pid, owned[..|owned| - 1]);
    }
  }

  /** Otherwise connections are missed: if the first process's tables cannot be opened, its namespace has none. */
  lemma UnreadableFirstProcessHidesOthers(p: Proc, q: Proc, known: map<Endpoint, int>, self: int, e: Endpoint)
    requires IsScanned(p, self) && IsScanned(q, self) && p.netns == q.netns != 0 && p.tcp == None && p.tcp6 == None
    requires Owns(q.owned, Table(q, known), e)
    ensures Cached([p, q], known, self) == [] && Owner([p, q], known, self, q.pid.value, e)
  {
    assert [p, q][..1] == [p] && [p][..0] == [];
    assert AllMatches(p, known) == [];
    assert First([p], q.netns, self) == Some(p);
    assert Reader([p], q, self) == p;
    assert Table(p, known) == map[];
    AddOwnedNothing([], p.pid.value, p.owned);
    assert Cached([p], known, self) == [];
    AddOwnedNothing([], q.pid.value, q.owned);
    assert q in [p, q];
  }

  // ---------------------------------------------------------------- what is found

  ghost predicate KeysDistinct(found: seq<Found>) {
    forall i, j | 0 <= i < j < |found| ::
      (found[i].pid, found[i].conn.remote) != (found[j].pid, found[j].conn.remote)
  }

  /** p owns a socket that its table connects to e. */
  ghost predicate Owns(owned: seq<int>, table: map<int, Match>, e: Endpoint) {
    exists i | 0 <= i < |owned| :: owned[i] in table && table[owned[i]].remote == e
  }

  lemma {:induction false} AddOwnedFacts(found: seq<Found>, pid: int, owned: seq<int>, table: map<int, Match>)
    requires KeysDistinct(found)
    ensures KeysDistinct(AddOwned(found, pid, owned, table))
    ensures forall k :: k in KeysOf(AddOwned(found, pid, owned, table)) <==>
                        k in KeysOf(found) || (k.0 == pid && Owns(owned, table, k.1))
  {
    if owned != [] {
      var init, inode := owned[..|owned| - 1], owned[|owned| - 1];
      var before, after := AddOwned(found, pid, init, table), AddOwned(found, pid, owned, table);
      AddOwnedFacts(found, pid, init, table);
      forall e ensures Owns(owned, table, e) <==> Owns(init, table, e) || (inode in table && table[inode].remote == e) {
        OwnsOneMore(init, inode, table, e);
        assert owned == init + [inode];
      }
      if after != before {
        AddOne(before, Found(pid, table[inode]));
        forall i | 0 <= i < |before| ensures (before[i].pid, before[i].conn.remote) != (pid, table[inode].remote) {
          assert before[i] in before;
        }
      }
    }
  }

  lemma OwnsOneMore(owned: seq<int>, inode: int, table: map<int, Match>, e: Endpoint)
    ensures Owns(owned + [inode], table, e) <==> Owns(owned, table, e) || (inode in table && table[inode].remote == e)
  {
    var more := owned + [inode];
    if Owns(owned, table, e) {
      var i :| 0 <= i < |owned| && owned[i] in table && table[owned[i]].remote == e;
      assert more[i] == owned[i];
    }
    if inode in table && table[inode].remote == e {
      assert more[|owned|] == inode;
    }
  }

  /** Some scanned process of that number owns a connection to the endpoint. */
  ghost predicate Owner(procs: seq<Proc>, known: map<Endpoint, int>, self: int, pid: int, e: Endpoint) {
    exists p | p in procs :: IsScanned(p, self) && p.pid == Some(pid) && Owns(p.owned, Table(p, known), e)
  }

  /** Each (process, endpoint) pair that is owned is found exactly once, and nothing else is. */
  lemma {:induction false} FoundExactlyOnce(procs: seq<Proc>, known: map<Endpoint, int>, self: int)
    ensures KeysDistinct(Uncached(procs, known, self))
    ensures forall k :: k in KeysOf(Uncached(procs, known, self)) <==> Owner(procs, known, self, k.0, k.1)
  {
    if procs != [] {
      var init, p := procs[..|procs| - 1], procs[|procs| - 1];
      var before := Uncached(init, known, self);
      FoundExactlyOnce(init, known, self);
      assert procs == init + [p];
      if IsScanned(p, self) {
        AddOwnedFacts(before, p.pid.value, p.owned, Table(p, known));
      }
      forall k: (int, Endpoint) ensures Owner(procs, known, self, k.0, k.1) <==>
                       Owner(init, known, self, k.0, k.1)
                       || (IsScanned(p, self) && p.pid == Some(k.0) && Owns(p.owned, Table(p, known), k.1))
      {
        OwnerOneMore(init, p, known, self, k.0, k.1);
      }
    }
  }

  lemma OwnerOneMore(procs: seq<Proc>, p: Proc, known: map<Endpoint, int>, self: int, pid: int, e: Endpoint)
    ensures Owner(procs + [p], known, self, pid, e) <==>
            Owner(procs, known, self, pid, e)
            || (IsScanned(p, self) && p.pid == Some(pid) && Owns(p.owned, Table(p, known), e))
  {
  }

  // ---------------------------------------------------------------- the rows behind a table

  ghost predicate UniqueInodes(ms: seq<Match>) {
    forall i, j | 0 <= i < j < |ms| :: ms[i].inode != ms[j].inode
  }

  /** With distinct inodes, a table holds every matching row. */
  lemma {:induction false} TableHolds(ms: seq<Match>, i: nat)
    requires UniqueInodes(ms) && i < |ms|
    ensures ms[i].inode in ByInode(ms) && ByInode(ms)[ms[i].inode] == ms[i]
  {
    if i < |ms| - 1 {
      TableHolds(ms[..|ms| - 1], i);
      assert ms[i].inode != ms[|ms| - 1].inode;
    }
  }

  lemma {:induction false} TableKeys(ms: seq<Match>, n: int)
    requires n in ByInode(ms)
    ensures ByInode(ms)[n].inode == n && ByInode(ms)[n] in ms
  {
    var last := ms[|ms| - 1];
    if last.inode != n {
      TableKeys(ms[..|ms| - 1], n);
    }
  }

  /** p holds open the socket of a row that connects to e, which is then a known endpoint. */
  lemma OwnsIff(p: Proc, known: map<Endpoint, int>, e: Endpoint)
    requires UniqueInodes(AllMatches(p, known))
    ensures Owns(p.owned, Table(p, known), e) <==>
            exists m | m in AllMatches(p, known) :: m.remote == e && m.inode in p.owned
  {
    var ms := AllMatches(p, known);
    if Owns(p.owned, Table(p, known), e) {
      var i :| 0 <= i < |p.owned| && p.owned[i] in Table(p, known) && Table(p, known)[p.owned[i]].remote == e;
      TableKeys(ms, p.owned[i]);
    }
    if m :| m in ms && m.remote == e && m.inode in p.owned {
      var j :| 0 <= j < |ms| && ms[j] == m;
      TableHolds(ms, j);
      var i :| 0 <= i < |p.owned| && p.owned[i] == m.inode;
      assert p.owned[i] in Table(p, known);
    }
  }

  /** What is added comes from the table. */
  lemma {:induction false} AddedFromTable(found: seq<Found>, pid: int, owned: seq<int>, table: map<int, Match>, f: Found)
    requires f in AddOwned(found, pid, owned, table)
    ensures f in found || (f.pid == pid && exists inode | inode in table :: table[inode] == f.conn)
  {
    if owned != [] {
      var before := AddOwned(found, pid, owned[..|owned| - 1], table);
      if f in before {
        AddedFromTable(found, pid, owned[..|owned| - 1], table, f);
      }
    }
  }

  lemma TableIsKnown(p: Proc, known: map<Endpoint, int>, inode: int)
    requires inode in Table(p, known)
    ensures var m := Table(p, known)[inode]; m.remote in known && m.provider == known[m.remote]
  {
    TableKeys(AllMatches(p, known), inode);
    var m := Table(p, known)[inode];
    if p.tcp.Some? {
      MatchesFacts(p.tcp.value, false, known, m);
    }
    if p.tcp6.Some? {
      MatchesFacts(p.tcp6.value, true, known, m);
    }
  }

  /** Every event names the provider of a known endpoint. */
  lemma {:induction false} ProviderIsKnown(procs: seq<Proc>, known: map<Endpoint, int>, self: int, f: Found)
    requires f in Uncached(procs, known, self)
    ensures f.conn.remote in known && f.conn.provider == known[f.conn.remote]
  {
    var init, p := procs[..|procs| - 1], procs[|procs| - 1];
    var before := Uncached(init, known, self);
    if IsScanned(p, self) {
      AddedFromTable(before, p.pid.value, p.owned, Table(p, known), f);
    }
    if f in before {
      ProviderIsKnown(init, known, self, f);
    } else {
      var inode :| inode in Table(p, known) && Table(p, known)[inode] == f.conn;
      TableIsKnown(p, known, inode);
    }
  }

  /** A process finds a known endpoint that an established row of its tcp or tcp6 names with an inode it holds open. */
  lemma EstablishedIsOwned(p: Proc, known: map<Endpoint, int>, isV6: bool, row: nat, e: Endpoint, inode: nat)
    requires UniqueInodes(AllMatches(p, known))
    requires var file := if isV6 then p.tcp6 else p.tcp;
             && file.Some? && row < |file.value| && |file.value[row]| >= 10
             && WritesEndpoint(file.value[row][2], isV6, e) && file.value[row][3] == "01"
             && file.value[row][9] == FormatNat(inode)
    requires e in known && inode < 0x1_0000_0000_0000_0000 && inode in p.owned
    ensures Match(e, known[e], inode) in AllMatches(p, known) && Owns(p.owned, Table(p, known), e)
  {
    var file := if isV6 then p.tcp6.value else p.tcp.value;
    var m := Match(e, known[e], inode);
    RowMatchesIff(file[row], isV6, known, e, inode);
    MatchFound(file, isV6, known, row, m);
    OwnsIff(p, known, e);
    assert m in AllMatches(p, known);
  }

  /** Process i is another one than the scanner's, with a 32-bit number, and holds open a connection to e. */
  ghost predicate Connects(p: Proc, known: map<Endpoint, int>, self: int, pid: int, e: Endpoint) {
    && p.pid == Some(pid) && pid != self && 0 <= pid < 0x1_0000_0000
    && e in known && Owns(p.owned, Table(p, known), e)
  }

  /** The scan reports a process with a provider exactly when it connects to an endpoint of that provider. */
  lemma ScanReportsIff(procs: seq<Proc>, known: map<Endpoint, int>, self: int, pid: int, provider: int)
    ensures Event(pid, provider) in EventsOf(Uncached(procs, known, self)) <==>
            exists p, e | p in procs && e in known :: Connects(p, known, self, pid, e) && known[e] == provider
  {
    var found := Uncached(procs, known, self);
    var es := EventsOf(found);
    FoundExactlyOnce(procs, known, self);
    if Event(pid, provider) in es {
      var i :| 0 <= i < |es| && es[i] == Event(pid, provider);
      var f := found[i];
      ProviderIsKnown(procs, known, self, f);
      assert (f.pid, f.conn.remote) in KeysOf(found);
      assert Owner(procs, known, self, f.pid, f.conn.remote);
      var j :| 0 <= j < |procs| && IsScanned(procs[j], self) && procs[j].pid == Some(pid)
               && Owns(procs[j].owned, Table(procs[j], known), f.conn.remote);
      assert Connects(procs[j], known, self, pid, f.conn.remote);
    }
    if p, e :| p in procs && e in known && Connects(p, known, self, pid, e) && known[e] == provider {
      var j :| 0 <= j < |procs| && procs[j] == p;
      assert IsScanned(procs[j], self);
      assert Owner(procs, known, self, pid, e);
      assert (pid, e) in KeysOf(found);
      var f :| f in found && (f.pid, f.conn.remote) == (pid, e);
      ProviderIsKnown(procs, known, self, f);
      var i :| 0 <= i < |found| && found[i] == f;
      assert es[i] == Event(pid, provider);
    }
  }
}
