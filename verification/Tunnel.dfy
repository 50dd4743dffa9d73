/** The tunnel manager: an index in memory, a table in the database, a configuration file and a child
    process, kept in step through failures of any of them. */
module Tunnel {
  import opened Text
  import opened Faults

  datatype PortMapping = PortMapping(tunnelId: string, serverId: string, localPort: int, remotePort: int,
                                     protocol: string)

  datatype Assignment = Assignment(tunnelId: string, remotePort: int, status: string)

  // ---------------------------------------------------------------- the configuration file

  datatype FrpConfig = FrpConfig(serverAddr: string, serverPort: int, token: string, configPath: string)

  datatype Proxy = Proxy(name: string, kind: string, localIp: string, localPort: int, remotePort: int)

  datatype FrpFile = FrpFile(serverAddr: string, serverPort: int, token: string, proxies: seq<Proxy>)

  datatype ConfigError = BadServer | MissingId | BadProtocol(protocol: string) | BadPort(tunnelId: string)

  predicate PortOk(port: int) { 1 <= port <= 65535 }

  predicate ProtocolOk(protocol: string) { protocol == "tcp" || protocol == "udp" }

  predicate ServerOk(cfg: FrpConfig) { cfg.serverAddr != "" && PortOk(cfg.serverPort) }

  function Check(m: PortMapping): Option<ConfigError> {
    if m.tunnelId == "" || m.serverId == "" then Some(MissingId)
    else if !ProtocolOk(m.protocol) then Some(BadProtocol(m.protocol))
    else if !PortOk(m.localPort) || !PortOk(m.remotePort) then Some(BadPort(m.tunnelId))
    else None
  }

  function ProxyOf(m: PortMapping): Proxy {
    Proxy("oikos-" + m.serverId + "-" + m.tunnelId, m.protocol, "127.0.0.1", m.localPort, m.remotePort)
  }

  function IdOf(m: PortMapping): string { m.tunnelId }

  function FirstBad(ms: seq<PortMapping>): Option<ConfigError> {
    if ms == [] then None else if Check(ms[0]).Some? then Check(ms[0]) else FirstBad(ms[1..])
  }

  function Proxies(ms: seq<PortMapping>): seq<Proxy> { seq(|ms|, i requires 0 <= i < |ms| => ProxyOf(ms[i])) }

  /** The file for mappings already in order. */
  function Generated(cfg: FrpConfig, ms: seq<PortMapping>): Result<FrpFile, ConfigError> {
    if !ServerOk(cfg) then Err(BadServer)
    else if FirstBad(ms).Some? then Err(FirstBad(ms).value)
    else Ok(FrpFile(cfg.serverAddr, cfg.serverPort, cfg.token, Proxies(ms)))
  }

  lemma {:induction false} FirstBadAt(ms: seq<PortMapping>, i: nat)
    requires i <= |ms| && forall k :: 0 <= k < i ==> Check(ms[k]).None?
    ensures FirstBad(ms) == FirstBad(ms[i..])
  {
    if i > 0 {
      FirstBadAt(ms, i - 1);
      assert ms[i - 1..][1..] == ms[i..];
    }
  }

  lemma {:induction false} FirstBadIff(ms: seq<PortMapping>)
    ensures FirstBad(ms).None? <==> forall m :: m in ms ==> Check(m).None?
  {
    if ms != [] {
      FirstBadIff(ms[1..]);
      assert ms == [ms[0]] + ms[1..];
    }
  }

  lemma {:induction false} FirstBadIsBad(ms: seq<PortMapping>)
    ensures FirstBad(ms) != Some(BadServer)
  {
    if ms != [] { FirstBadIsBad(ms[1..]); }
  }

  predicate GoodUpTo(ms: seq<PortMapping>, i: nat)
    requires i <= |ms|
  {
    forall k :: 0 <= k < i ==> Check(ms[k]).None?
  }

  lemma GoodOneMore(ms: seq<PortMapping>, i: nat)
    requires i < |ms| && GoodUpTo(ms, i)
    ensures Check(ms[i]).None? ==> GoodUpTo(ms, i + 1)
  {
  }

  lemma ProxiesSnoc(ms: seq<PortMapping>, i: nat)
    requires i < |ms|
    ensures Proxies(ms[..i + 1]) == Proxies(ms[..i]) + [ProxyOf(ms[i])]
  {
  }

  lemma FirstErrorDecides(cfg: FrpConfig, ms: seq<PortMapping>, i: nat)
    requires ServerOk(cfg) && i <= |ms| && GoodUpTo(ms, i)
    ensures i < |ms| && Check(ms[i]).Some? ==> Generated(cfg, ms) == Err(Check(ms[i]).value)
    ensures i == |ms| ==> Generated(cfg, ms) == Ok(FrpFile(cfg.serverAddr, cfg.serverPort, cfg.token, Proxies(ms)))
  {
    FirstBadAt(ms, i);
    if i < |ms| {
      assert ms[i..] == [ms[i]] + ms[i + 1..];
    }
  }

  lemma GeneratedOf(cfg: FrpConfig, ms: seq<PortMapping>)
    ensures Generated(cfg, ms).Ok? <==> ServerOk(cfg) && forall m :: m in ms ==> Check(m).None?
    ensures Generated(cfg, ms) == Err(BadServer) <==> !ServerOk(cfg)
  {
    FirstBadIff(ms);
    FirstBadIsBad(ms);
  }

  /** When a file can be generated at all: the server has an address and a port, and every mapping its ids, a
      protocol that is known, and two ports. Only the server is reported as BadServer. */
  lemma GeneratedWhen(cfg: FrpConfig, ms: seq<PortMapping>)
    ensures Generated(cfg, SortBy(ms, IdOf)).Ok? <==>
              && cfg.serverAddr != "" && 1 <= cfg.serverPort <= 65535
              && forall m :: m in ms ==>
                   && m.tunnelId != "" && m.serverId != "" && (m.protocol == "tcp" || m.protocol == "udp")
                   && 1 <= m.localPort <= 65535 && 1 <= m.remotePort <= 65535
    ensures Generated(cfg, SortBy(ms, IdOf)) == Err(BadServer) <==>
              cfg.serverAddr == "" || cfg.serverPort < 1 || cfg.serverPort > 65535
  {
    var s := SortBy(ms, IdOf);
    GeneratedOf(cfg, s);
    hide Generated, SortBy;
    forall m ensures m in s <==> m in ms { assert m in multiset(s) <==> m in multiset(ms); }
  }

  method GenerateConfig(cfg: FrpConfig, mappings: seq<PortMapping>) returns (r: Result<FrpFile, ConfigError>)
    ensures r == Generated(cfg, SortBy(mappings, IdOf))
  {
    if cfg.serverAddr == "" || cfg.serverPort < 1 || cfg.serverPort > 65535 {
      return Err(BadServer);
    }
    var proxies := [];
    var sorted := SortBy(mappings, IdOf);
    assert Proxies(sorted[..0]) == [];
    hide Generated, FirstBad, SortBy, Proxies, ProxyOf;
    for i := 0 to |sorted|
      invariant GoodUpTo(sorted, i) && proxies == Proxies(sorted[..i])
    {
      var m := sorted[i];
      FirstErrorDecides(cfg, sorted, i);
      ProxiesSnoc(sorted, i);
      GoodOneMore(sorted, i);
      hide GoodUpTo;
      if m.tunnelId == "" || m.serverId == "" {
        return Err(MissingId);
      }
      if m.protocol != "tcp" && m.protocol != "udp" {
        return Err(BadProtocol(m.protocol));
      }
      if m.localPort < 1 || m.localPort > 65535 || m.remotePort < 1 || m.remotePort > 65535 {
        return Err(BadPort(m.tunnelId));
      }
      proxies := proxies + [ProxyOf(m)];
    }
    FirstErrorDecides(cfg, sorted, |sorted|);
    assert sorted[..|sorted|] == sorted;
    r := Ok(FrpFile(cfg.serverAddr, cfg.serverPort, cfg.token, proxies));
  }

  /** `ms` walks the index in some order. */
  ghost predicate Lists(ms: seq<PortMapping>, index: map<string, PortMapping>) {
    && DistinctBy(ms, IdOf) && |ms| == |index|
    && forall m :: m in ms <==> m.tunnelId in index && index[m.tunnelId] == m
  }

  /** The file depends on the set of mappings alone: not on the order in which the map is walked, and
      not on which sorting routine, stable or not, put them in order. */
  lemma {:induction false} FileIgnoresOrder(cfg: FrpConfig, a: seq<PortMapping>, b: seq<PortMapping>,
                                            sorted: seq<PortMapping>, index: map<string, PortMapping>)
    requires Lists(a, index) && Lists(b, index)
    requires SortedBy(sorted, IdOf) && multiset(sorted) == multiset(b)
    ensures sorted == SortBy(a, IdOf)
    ensures Generated(cfg, sorted) == Generated(cfg, SortBy(a, IdOf))
  {
    forall m ensures multiset(a)[m] == multiset(b)[m] {
      DistinctCountsOnce(a, IdOf, m);
      DistinctCountsOnce(b, IdOf, m);
    }
    assert multiset(a) == multiset(b);
    var s := SortBy(a, IdOf);
    RearrangedStaysDistinct(a, s, IdOf);
    SortedArrangementUnique(s, sorted, IdOf);
  }

  // ---------------------------------------------------------------- the table

  /** The columns under UNIQUE(server_id, local_port, protocol). */
  datatype Key = Key(serverId: string, localPort: int, protocol: string)

  /** A row; a remote port of zero is NULL. */
  datatype Row = Row(id: string, remotePort: int, status: string)

  type Table = map<Key, Row>

  /** The other two uniqueness constraints, for a row about to be written under `key`. */
  ghost predicate Fits(table: Table, key: Key, row: Row) {
    forall k :: k in table && k != key ==>
      table[k].id != row.id && (row.remotePort != 0 ==> table[k].remotePort != row.remotePort)
  }

  ghost predicate TableOk(table: Table) {
    forall k :: k in table ==> Fits(table, k, table[k])
  }

  function KeyOf(m: PortMapping): Key { Key(m.serverId, m.localPort, m.protocol) }

  /** The mapping held under `id` is usable, and its row is in the table with its id and port. */
  ghost predicate HasRow(table: Table, id: string, m: PortMapping) {
    && m.tunnelId == id && Check(m).None?
    && KeyOf(m) in table && table[KeyOf(m)].id == id && table[KeyOf(m)].remotePort == m.remotePort
  }

  ghost predicate Agree(table: Table, index: map<string, PortMapping>) {
    forall id :: id in index ==> HasRow(table, id, index[id])
  }

  /** No two entries of the index share a remote port, or a server, local port and protocol. */
  lemma IndexIsUnique(table: Table, index: map<string, PortMapping>, a: string, b: string)
    requires TableOk(table) && Agree(table, index) && a in index && b in index
    ensures index[a].remotePort == index[b].remotePort || KeyOf(index[a]) == KeyOf(index[b]) ==> a == b
  {
    assert HasRow(table, a, index[a]) && HasRow(table, b, index[b]);
    assert Fits(table, KeyOf(index[a]), table[KeyOf(index[a])]);
  }

  lemma PortsDiffer(table: Table, index: map<string, PortMapping>, a: PortMapping, b: PortMapping)
    requires TableOk(table) && Agree(table, index) && a.tunnelId != b.tunnelId
    requires a.tunnelId in index && index[a.tunnelId] == a && b.tunnelId in index && index[b.tunnelId] == b
    ensures a.remotePort != b.remotePort
  {
    IndexIsUnique(table, index, a.tunnelId, b.tunnelId);
  }

  lemma GeneratedProxy(cfg: FrpConfig, ms: seq<PortMapping>, i: nat)
    requires i < |ms|
    ensures var r := Generated(cfg, ms);
            r.Ok? ==> |r.value.proxies| == |ms| && r.value.proxies[i] == ProxyOf(ms[i])
  {
    hide FirstBad;
  }

  /** So a file that could be generated never asks for one remote port twice. */
  lemma {:induction false} NoSharedRemotePorts(cfg: FrpConfig, table: Table, index: map<string, PortMapping>,
                                               ms: seq<PortMapping>, i: nat, j: nat)
    requires TableOk(table) && Agree(table, index) && Lists(ms, index) && i < j < |ms|
    ensures var r := Generated(cfg, SortBy(ms, IdOf));
            r.Err? || (|r.value.proxies| == |ms| && r.value.proxies[i].remotePort != r.value.proxies[j].remotePort)
  {
    var s := SortBy(ms, IdOf);
    RearrangedStaysDistinct(ms, s, IdOf);
    assert s[i] in ms && s[j] in ms && IdOf(s[i]) != IdOf(s[j]);
    PortsDiffer(table, index, s[i], s[j]);
    GeneratedProxy(cfg, s, i);
    GeneratedProxy(cfg, s, j);
    hide TableOk, Agree, SortBy, Generated, DistinctBy;
  }

  lemma GeneratedHead(cfg: FrpConfig, ms: seq<PortMapping>)
    ensures var r := Generated(cfg, ms);
            r.Ok? ==>
              && r.value.serverAddr == cfg.serverAddr && r.value.serverPort == cfg.serverPort
              && r.value.token == cfg.token && |r.value.proxies| == |ms|
  {
    hide FirstBad;
  }

  /** The index's entries, one each, in the order of their ids. */
  ghost predicate InOrder(s: seq<PortMapping>, index: map<string, PortMapping>) {
    && |s| == |index| && SortedBy(s, IdOf) && DistinctBy(s, IdOf)
    && forall m :: m in s <==> m.tunnelId in index && index[m.tunnelId] == m
  }

  lemma SortedIsInOrder(ms: seq<PortMapping>, index: map<string, PortMapping>)
    requires Lists(ms, index)
    ensures InOrder(SortBy(ms, IdOf), index)
  {
    RearrangedStaysDistinct(ms, SortBy(ms, IdOf), IdOf);
    hide SortBy, DistinctBy, SortedBy;
  }

  lemma IdsInOrder(s: seq<PortMapping>, index: map<string, PortMapping>, ids: seq<string>)
    requires InOrder(s, index) && |ids| == |s| && forall i :: 0 <= i < |s| ==> ids[i] == s[i].tunnelId
    ensures forall i, j :: 0 <= i < j < |ids| ==> Leq(ids[i], ids[j]) && ids[i] != ids[j]
    ensures forall i :: 0 <= i < |s| ==> ids[i] in index && index[ids[i]] == s[i]
    ensures |s| == |index|
    ensures forall id :: id in index && index[id].tunnelId == id ==> id in ids
  {
    forall i, j | 0 <= i < j < |ids| ensures Leq(ids[i], ids[j]) && ids[i] != ids[j] {
      assert Leq(IdOf(s[i]), IdOf(s[j])) && IdOf(s[i]) != IdOf(s[j]);
    }
    hide SortedBy, DistinctBy;
    forall i | 0 <= i < |s| ensures ids[i] in index && index[ids[i]] == s[i] { assert s[i] in s; }
    forall id | id in index && index[id].tunnelId == id ensures id in ids {
      assert index[id] in s;
      var i :| 0 <= i < |s| && s[i] == index[id];
      assert ids[i] == id;
    }
  }

  /** What a generated file says: the server's address, port and token, and one proxy for each entry of the
      index, in the order of the tunnel ids, with the entry's names, protocol and ports. */
  lemma FileServesTheIndex(cfg: FrpConfig, index: map<string, PortMapping>, ms: seq<PortMapping>, f: FrpFile)
    returns (ids: seq<string>)
    requires Lists(ms, index) && Generated(cfg, SortBy(ms, IdOf)) == Ok(f)
    ensures f.serverAddr == cfg.serverAddr && f.serverPort == cfg.serverPort && f.token == cfg.token
    ensures |ids| == |index| == |f.proxies|
    ensures forall i, j :: 0 <= i < j < |ids| ==> Leq(ids[i], ids[j]) && ids[i] != ids[j]
    ensures forall id :: id in index && index[id].tunnelId == id ==> id in ids
    ensures forall i :: 0 <= i < |ids| ==> ids[i] in index && var m := index[ids[i]];
              f.proxies[i] ==
                Proxy("oikos-" + m.serverId + "-" + m.tunnelId, m.protocol, "127.0.0.1", m.localPort, m.remotePort)
  {
    var s := SortBy(ms, IdOf);
    SortedIsInOrder(ms, index);
    ids := seq(|s|, i requires 0 <= i < |s| => s[i].tunnelId);
    assert Generated(cfg, s) == Ok(f);
    hide SortBy, InOrder, Leq;
    IdsInOrder(s, index, ids);
    GeneratedHead(cfg, s);
    hide Generated;
    forall i | 0 <= i < |s| ensures f.proxies[i] == ProxyOf(s[i]) { GeneratedProxy(cfg, s, i); }
  }

  /** Mappings in agreement with the table never stop the file from being generated: only a bad server
      address does. */
  lemma OnlyTheServerCanBeWrong(cfg: FrpConfig, table: Table, index: map<string, PortMapping>, ms: seq<PortMapping>)
    requires Agree(table, index) && Lists(ms, index)
    ensures Generated(cfg, SortBy(ms, IdOf)).Ok? <==> ServerOk(cfg)
  {
    var s := SortBy(ms, IdOf);
    FirstBadIff(s);
    forall m | m in s ensures Check(m).None? {
      assert m in multiset(ms);
      assert HasRow(table, m.tunnelId, index[m.tunnelId]);
    }
  }

  /** The new index and table when a registration has been saved. */
  function Assigned(m: PortMapping, a: Assignment): PortMapping {
    m.(tunnelId := a.tunnelId, remotePort := a.remotePort)
  }

  function RowOf(a: Assignment): Row { Row(a.tunnelId, a.remotePort, a.status) }

  predicate AssignmentOk(m: PortMapping, a: Assignment) {
    m.serverId != "" && PortOk(m.localPort) && ProtocolOk(m.protocol) && a.tunnelId != "" && PortOk(a.remotePort)
  }

  /** The row that saving the mapping would overwrite has an entry in the index. */
  predicate Overwrites(table: Table, index: map<string, PortMapping>, m: PortMapping) {
    KeyOf(m) in table && table[KeyOf(m)].id in index && KeyOf(index[table[KeyOf(m)].id]) == KeyOf(m)
  }

  /** Saving over an existing row, which the lookup should have prevented, keeps index and table in
      agreement if and only if the index held nothing for that row, or the panel gave the same id. */
  lemma OverwriteAgreesIff(table: Table, index: map<string, PortMapping>, m: PortMapping, a: Assignment)
    requires TableOk(table) && Agree(table, index) && AssignmentOk(m, a) && Fits(table, KeyOf(m), RowOf(a))
    ensures Agree(table[KeyOf(m) := RowOf(a)], index[a.tunnelId := Assigned(m, a)]) <==>
            (Overwrites(table, index, m) ==> table[KeyOf(m)].id == a.tunnelId)
  {
    var table', index' := table[KeyOf(m) := RowOf(a)], index[a.tunnelId := Assigned(m, a)];
    assert HasRow(table', a.tunnelId, index'[a.tunnelId]);
    forall id | id in index && id != a.tunnelId
      ensures HasRow(table', id, index'[id]) <==> KeyOf(index[id]) != KeyOf(m)
    {
      assert HasRow(table, id, index[id]);
    }
    if Overwrites(table, index, m) && table[KeyOf(m)].id != a.tunnelId {
      assert !HasRow(table', table[KeyOf(m)].id, index'[table[KeyOf(m)].id]);
    } else {
      forall id | id in index' ensures HasRow(table', id, index'[id]) {
        assert id != a.tunnelId ==> HasRow(table, id, index[id]);
      }
    }
  }

  lemma SaveKeepsTable(table: Table, key: Key, row: Row)
    requires TableOk(table) && Fits(table, key, row)
    ensures TableOk(table[key := row])
  {
    var table' := table[key := row];
    forall k | k in table' ensures Fits(table', k, table'[k]) {
      assert k in table ==> Fits(table, k, table[k]);
    }
  }

  lemma DeleteAgrees(table: Table, index: map<string, PortMapping>, key: Key)
    requires TableOk(table) && key in table
    ensures TableOk(table - {key})
    ensures Agree(table, index) ==> Agree(table - {key}, index - {table[key].id})
  {
    var table', index' := table - {key}, index - {table[key].id};
    forall k | k in table' ensures Fits(table', k, table'[k]) {
      assert Fits(table, k, table[k]);
    }
    if Agree(table, index) {
      forall id | id in index' ensures HasRow(table', id, index'[id]) {
        assert HasRow(table, id, index[id]);
      }
    }
  }

  function WithStatus(table: Table, id: string, status: string): Table {
    map k | k in table :: if table[k].id == id then table[k].(status := status) else table[k]
  }

  /** Marking a row changes its status and nothing else. */
  lemma WithStatusMeans(table: Table, id: string, status: string, k: Key)
    ensures k in WithStatus(table, id, status) <==> k in table
    ensures k in table ==>
              WithStatus(table, id, status)[k] ==
                Row(table[k].id, table[k].remotePort, if table[k].id == id then status else table[k].status)
  {
  }

  lemma StatusAgrees(table: Table, index: map<string, PortMapping>, id: string, status: string)
    ensures TableOk(table) ==> TableOk(WithStatus(table, id, status))
    ensures Agree(table, index) ==> Agree(WithStatus(table, id, status), index)
  {
    var table' := WithStatus(table, id, status);
    if TableOk(table) {
      forall k | k in table' ensures Fits(table', k, table'[k]) {
        assert Fits(table, k, table[k]);
      }
    }
    if Agree(table, index) {
      forall i | i in index ensures HasRow(table', i, index[i]) {
        assert HasRow(table, i, index[i]);
      }
    }
  }

  // ---------------------------------------------------------------- the child process

  /** A started frpc: the file it read, and whether it still runs. */
  datatype Child = Child(loaded: FrpFile, alive: bool)

  /** The controller after a successful rebuild with `n` mappings whose file is `file`. */
  function ChildAfter(n: nat, held: Option<Child>, file: FrpFile): Option<Child> {
    if n == 0 then None
    else if n == 1 && held.Some? then held
    else Some(Child(file, true))
  }

  /** The child, if any, runs with what is on disk. */
  predicate Tracks(held: Option<Child>, file: FrpFile) { held.Some? ==> held.value.loaded == file }

  /** With no mapping or at least two, a successful rebuild always leaves a controller that tracks the
      file; with exactly one it does if and only if none was held or the held one had read that very
      file. Whether the child still runs plays no part: Start is satisfied with a dead one. */
  lemma TracksIff(n: nat, held: Option<Child>, file: FrpFile)
    ensures Tracks(ChildAfter(n, held, file), file) <==> n != 1 || Tracks(held, file)
    ensures n != 1 && ChildAfter(n, held, file).Some? ==> ChildAfter(n, held, file).value.alive
    ensures n == 1 && held.Some? ==> ChildAfter(n, held, file).value.alive == held.value.alive
  {
  }

  /** Releasing one of two mappings: whichever goes, the child keeps serving both. */
  lemma TwoToOneLeavesAStaleChild(cfg: FrpConfig, a: PortMapping, b: PortMapping)
    requires ServerOk(cfg) && Check(a).None? && Check(b).None? && a.tunnelId != b.tunnelId
    ensures Generated(cfg, SortBy([b, a], IdOf)).Ok? && Generated(cfg, SortBy([a], IdOf)).Ok?
    ensures var both, one := Generated(cfg, SortBy([b, a], IdOf)).value, Generated(cfg, SortBy([a], IdOf)).value;
            var held := ChildAfter(2, None, both);
            |both.proxies| == 2 && |one.proxies| == 1 && !Tracks(ChildAfter(1, held, one), one)
  {
    var two, one := SortBy([b, a], IdOf), SortBy([a], IdOf);
    assert multiset(two) == multiset{a, b} && |two| == 2;
    assert multiset(one) == multiset{a} && |one| == 1;
    forall m | m in two ensures Check(m).None? { assert m in multiset(two); }
    forall m | m in one ensures Check(m).None? { assert m in multiset(one); }
    FirstBadIff(two);
    FirstBadIff(one);
  }

  /** osProcessController: `cmd` is set while a child is held, even after it has exited. */
  class ProcessController {
    /** Whether calls outside this module fail only for the reasons the state gives. */
    const reliable: bool
    var cmd: Option<Child>

    constructor (reliable: bool)
      ensures cmd == None && this.reliable == reliable
    {
      this.reliable := reliable;
      cmd := None;
    }

    /** Does nothing while a child is held. */
    method Start(file: FrpFile) returns (ok: bool)
      modifies this
      ensures ok ==> cmd == if old(cmd).Some? then old(cmd) else Some(Child(file, true))
      ensures !ok ==> cmd == None == old(cmd)
      ensures reliable ==> ok
    {
      if cmd.Some? {
        return true;
      }
      var fault := Fault(reliable);
      ok := !fault;
      if ok {
        cmd := Some(Child(file, true));
      }
    }

    /** The child is let go even when it cannot be seen to end. */
    method Stop() returns (ok: bool)
      modifies this
      ensures cmd == None && (old(cmd).None? || reliable ==> ok)
    {
      ok := true;
      if cmd.Some? {
        cmd := None;
        var fault := Fault(reliable);
        ok := !fault;
      }
    }

    method Reload(file: FrpFile) returns (ok: bool)
      modifies this
      ensures cmd == if ok then Some(Child(file, true)) else None
      ensures reliable ==> ok
    {
      ok := Stop();
      if ok {
        ok := Start(file);
      }
    }

    /** The child exits by itself. */
    method Exit()
      modifies this
      ensures cmd == if old(cmd).Some? then Some(old(cmd).value.(alive := false)) else None
    {
      if cmd.Some? {
        cmd := Some(cmd.value.(alive := false));
      }
    }
  }

  // ---------------------------------------------------------------- the manager

  datatype TunnelError = NotAllocated | NotReleased | NotSaved | NotListed | NotDeleted
    | BadConfig(error: ConfigError) | NotWritten | NotStarted

  /** What GenerateConfig makes of the index, walked in some order. */
  ghost predicate IsFileOf(cfg: FrpConfig, index: map<string, PortMapping>, r: Result<FrpFile, ConfigError>) {
    exists ms :: Lists(ms, index) && r == Generated(cfg, SortBy(ms, IdOf))
  }

  /** A file can be written at all. */
  predicate Usable(cfg: FrpConfig) { ServerOk(cfg) && cfg.configPath != "" }

  predicate AllGood(index: map<string, PortMapping>) { forall id :: id in index ==> Check(index[id]).None? }

  lemma UsableMeans(cfg: FrpConfig, index: map<string, PortMapping>)
    ensures Usable(cfg) <==> cfg.serverAddr != "" && 1 <= cfg.serverPort <= 65535 && cfg.configPath != ""
    ensures AllGood(index) <==>
              forall id :: id in index ==> var m := index[id];
                && m.tunnelId != "" && m.serverId != "" && (m.protocol == "tcp" || m.protocol == "udp")
                && 1 <= m.localPort <= 65535 && 1 <= m.remotePort <= 65535
  {
  }

  lemma AgreeIsGood(table: Table, index: map<string, PortMapping>)
    requires Agree(table, index)
    ensures AllGood(index)
  {
    forall id | id in index ensures Check(index[id]).None? { assert HasRow(table, id, index[id]); }
  }

  lemma GeneratedForIndex(cfg: FrpConfig, index: map<string, PortMapping>, ms: seq<PortMapping>)
    requires Lists(ms, index) && forall id :: id in index ==> index[id].tunnelId == id
    ensures Generated(cfg, SortBy(ms, IdOf)).Ok? <==> ServerOk(cfg) && AllGood(index)
  {
    var s := SortBy(ms, IdOf);
    GeneratedOf(cfg, s);
    hide Generated, SortBy, Check;
    forall m ensures m in s <==> m in ms { assert m in multiset(s) <==> m in multiset(ms); }
    forall id | id in index ensures index[id] in ms {
    }
  }

  lemma WalkMakesFile(cfg: FrpConfig, index: map<string, PortMapping>, ms: seq<PortMapping>)
    requires Lists(ms, index)
    ensures |ms| == |index| && IsFileOf(cfg, index, Generated(cfg, SortBy(ms, IdOf)))
  {
    hide Generated, SortBy;
  }

  /** The order does not show: an index has one file. */
  lemma {:induction false} FileIsUnique(cfg: FrpConfig, index: map<string, PortMapping>,
                                        r: Result<FrpFile, ConfigError>, r': Result<FrpFile, ConfigError>)
    requires IsFileOf(cfg, index, r) && IsFileOf(cfg, index, r')
    ensures r == r'
  {
    var a :| Lists(a, index) && r == Generated(cfg, SortBy(a, IdOf));
    var b :| Lists(b, index) && r' == Generated(cfg, SortBy(b, IdOf));
    FileIgnoresOrder(cfg, a, b, SortBy(b, IdOf), index);
  }

  /** File and child before and after rebuildLocked, with its outcome. */
  ghost predicate Rebuilt(cfg: FrpConfig, index: map<string, PortMapping>, r: Result<(), TunnelError>,
                          file: Option<FrpFile>, held: Option<Child>, file': Option<FrpFile>, held': Option<Child>) {
    if r.Ok? || r.error == NotStarted then
      && file'.Some? && IsFileOf(cfg, index, Ok(file'.value))
      && held' == if r.Ok? then ChildAfter(|index|, held, file'.value) else None
    else
      && (r.error == NotWritten || (r.error.BadConfig? && IsFileOf(cfg, index, Err(r.error.error))))
      && file' == file && held' == held
  }

  /** A rebuild that ends well, spelled out: the file on disk is made from the index; with no mapping no child
      is held; with one a child that was held is left alone; in every other case one has just been started
      on that file. */
  lemma RebuiltMeans(cfg: FrpConfig, index: map<string, PortMapping>, r: Result<(), TunnelError>,
                     file: Option<FrpFile>, held: Option<Child>, file': Option<FrpFile>, held': Option<Child>)
    requires Rebuilt(cfg, index, r, file, held, file', held')
    ensures r.Ok? ==>
              && file'.Some? && IsFileOf(cfg, index, Ok(file'.value))
              && (|index| == 0 ==> held' == None)
              && (|index| == 1 && held.Some? ==> held' == held)
              && (|index| > 1 || (|index| == 1 && held.None?) ==> held' == Some(Child(file'.value, true)))
    ensures r == Err(NotStarted) ==> file'.Some? && IsFileOf(cfg, index, Ok(file'.value)) && held' == None
    ensures r.Err? && r.error != NotStarted ==> file' == file && held' == held
  {
    hide IsFileOf;
  }

  ghost predicate Current(held: Option<Child>, file: Option<FrpFile>) {
    held.Some? ==> file.Some? && held.value.loaded == file.value
  }

  /** Whatever the outcome, a rebuild leaves the child on the file that is on disk, unless it ends well
      with exactly one mapping while a child on another file is held: that case, and no other. */
  lemma StaleExactlyWhen(cfg: FrpConfig, index: map<string, PortMapping>, r: Result<(), TunnelError>,
                         file: Option<FrpFile>, held: Option<Child>, file': Option<FrpFile>, held': Option<Child>)
    requires Rebuilt(cfg, index, r, file, held, file', held') && Current(held, file)
    ensures Current(held', file') <==> !(r.Ok? && |index| == 1 && held.Some? && held.value.loaded != file'.value)
  {
    if r.Ok? { TracksIff(|index|, held, file'.value); }
  }

  /** In particular a rebuild with an unchanged mapping set never makes a current child stale. */
  lemma {:induction false} SameMappingsStayCurrent(cfg: FrpConfig, index: map<string, PortMapping>,
                                                   r: Result<(), TunnelError>,
                                                   file: FrpFile, held: Option<Child>,
                                                   file': Option<FrpFile>, held': Option<Child>)
    requires IsFileOf(cfg, index, Ok(file)) && Current(held, Some(file))
    requires Rebuilt(cfg, index, r, Some(file), held, file', held')
    ensures Current(held', file')
  {
    if r.Ok? { FileIsUnique(cfg, index, Ok(file), Ok(file'.value)); }
    StaleExactlyWhen(cfg, index, r, Some(file), held, file', held');
  }

  /** What one call does to file and child: a rebuild of the given index, which found `held` and left
      `file`; a stop; or nothing, the child perhaps exiting. */
  datatype Turn =
    | Rebuilding(index: map<string, PortMapping>, r: Result<(), TunnelError>,
                 held: Option<Child>, file: Option<FrpFile>)
    | Stopping
    | Idling

  /** The disk file and the held child between two calls. */
  datatype Scene = Scene(file: Option<FrpFile>, held: Option<Child>)

  ghost predicate Plays(cfg: FrpConfig, t: Turn, before: Scene, after: Scene) {
    match t
    case Rebuilding(index, r, held, file) =>
      held == before.held && file == after.file && Rebuilt(cfg, index, r, before.file, held, file, after.held)
    case Stopping => after == Scene(before.file, None)
    case Idling =>
      && after.file == before.file && after.held.Some? == before.held.Some?
      && (after.held.Some? ==> after.held.value.loaded == before.held.value.loaded)
  }

  /** A rebuild that ends well with exactly one mapping and leaves a child on another file. */
  predicate Spoils(t: Turn) {
    t.Rebuilding? && t.r.Ok? && |t.index| == 1 && t.held.Some? && t.file.Some? && t.held.value.loaded != t.file.value
  }

  /** A stop, a rebuild that ends well otherwise, or one that could not start its child. */
  predicate Mends(t: Turn) {
    t.Stopping? || (t.Rebuilding? && !Spoils(t) && (t.r.Ok? || t.r == Err(NotStarted)))
  }

  ghost predicate IsPlay(cfg: FrpConfig, turns: seq<Turn>, scenes: seq<Scene>) {
    |scenes| == |turns| + 1 && forall i :: 0 <= i < |turns| ==> Plays(cfg, turns[i], scenes[i], scenes[i + 1])
  }

  /** Turn `i` spoils and nothing has mended it since. */
  ghost predicate SpoiltAt(turns: seq<Turn>, n: nat, i: nat)
    requires i < n <= |turns|
  {
    Spoils(turns[i]) && forall j :: i < j < n ==> !Mends(turns[j])
  }

  ghost predicate Spoilt(turns: seq<Turn>, n: nat)
    requires n <= |turns|
  {
    exists i :: 0 <= i < n && SpoiltAt(turns, n, i)
  }

  lemma SpoiltStep(turns: seq<Turn>, m: nat)
    requires m < |turns|
    ensures Spoilt(turns, m + 1) <==> Spoils(turns[m]) || (!Mends(turns[m]) && Spoilt(turns, m))
  {
    if Spoils(turns[m]) { assert SpoiltAt(turns, m + 1, m); }
    if !Mends(turns[m]) && Spoilt(turns, m) {
      var i :| 0 <= i < m && SpoiltAt(turns, m, i);
      assert SpoiltAt(turns, m + 1, i);
    }
    if Spoilt(turns, m + 1) {
      var i :| 0 <= i < m + 1 && SpoiltAt(turns, m + 1, i);
      assert i < m ==> SpoiltAt(turns, m, i);
    }
  }

  lemma TurnStep(cfg: FrpConfig, t: Turn, before: Scene, after: Scene)
    requires Plays(cfg, t, before, after)
    ensures Current(after.held, after.file) <==> !Spoils(t) && (Mends(t) || Current(before.held, before.file))
  {
    hide IsFileOf;
  }

  lemma PlayAt(cfg: FrpConfig, turns: seq<Turn>, scenes: seq<Scene>, i: nat)
    requires IsPlay(cfg, turns, scenes) && i < |turns|
    ensures Plays(cfg, turns[i], scenes[i], scenes[i + 1])
  {
  }

  /** Over a whole run, the child held is on another file than the one on disk exactly when some
      rebuild to a single mapping left it so and neither a stop nor another rebuild has mended that. */
  lemma {:induction false} StaleRunsExactly(cfg: FrpConfig, turns: seq<Turn>, scenes: seq<Scene>, n: nat)
    requires IsPlay(cfg, turns, scenes) && n <= |turns| && Current(scenes[0].held, scenes[0].file)
    ensures Current(scenes[n].held, scenes[n].file) <==> !Spoilt(turns, n)
  {
    if n > 0 {
      StaleRunsExactly(cfg, turns, scenes, n - 1);
      var t := turns[n - 1];
      PlayAt(cfg, turns, scenes, n - 1);
      hide IsPlay, Plays, Spoils, Mends, Current, Spoilt;
      TurnStep(cfg, t, scenes[n - 1], scenes[n]);
      SpoiltStep(turns, n - 1);
    }
  }

  /** A row of one server; with a port, only those of that local port. */
  predicate Picks(key: Key, serverId: string, port: Option<int>) {
    key.serverId == serverId && (port.Some? ==> key.localPort == port.value)
  }

  /** Table and index once the rows under `gone` have been released: these rows, their entries, and
      nothing else. */
  ghost predicate Released(table: Table, index: map<string, PortMapping>, gone: set<Key>, table': Table,
                           index': map<string, PortMapping>) {
    && gone <= table.Keys && table' == table - gone
    && index' == index - (set k | k in gone :: table[k].id)
  }

  /** A release that ends well, when what is gone is exactly the rows picked. */
  lemma ReleasedMeans(table: Table, index: map<string, PortMapping>, gone: set<Key>, table': Table,
                      index': map<string, PortMapping>, serverId: string, port: Option<int>)
    requires Released(table, index, gone, table', index')
    requires forall k :: k in table ==> (k in gone <==> Picks(k, serverId, port))
    ensures forall k :: k in table' <==>
              k in table && !(k.serverId == serverId && (port.None? || k.localPort == port.value))
    ensures forall k :: k in table' ==> table'[k] == table[k]
    ensures forall id :: id in index' <==>
              id in index && forall k :: k in table && table[k].id == id ==>
                !(k.serverId == serverId && (port.None? || k.localPort == port.value))
    ensures forall id :: id in index' ==> index'[id] == index[id]
  {
    forall id | id in index
      ensures id in index' <==> forall k :: k in table && table[k].id == id ==>
                !(k.serverId == serverId && (port.None? || k.localPort == port.value)) {
      assert id in index' <==> forall k :: k in gone ==> table[k].id != id;
    }
  }

  lemma ReleasedOneMore(table: Table, index: map<string, PortMapping>, gone: set<Key>, key: Key, table': Table,
                        index': map<string, PortMapping>)
    requires Released(table, index, gone, table', index') && key in table'
    ensures Released(table, index, gone + {key}, table' - {key}, index' - {table'[key].id})
  {
  }

  ghost predicate HasKey(rows: seq<(Key, Row)>, k: Key) { exists i :: 0 <= i < |rows| && rows[i].0 == k }

  /** Rows of the table, none twice. */
  ghost predicate RowsOf(rows: seq<(Key, Row)>, table: Table) {
    && (forall i :: 0 <= i < |rows| ==> rows[i].0 in table && rows[i].1 == table[rows[i].0])
    && (forall i, j :: 0 <= i < j < |rows| ==> rows[i].0 != rows[j].0)
  }

  lemma OneMoreRow(rows: seq<(Key, Row)>, table: Table, k: Key, key: Key)
    requires RowsOf(rows, table) && k in table && !HasKey(rows, k)
    ensures RowsOf(rows + [(k, table[k])], table)
    ensures HasKey(rows + [(k, table[k])], key) <==> HasKey(rows, key) || key == k
  {
    var more := rows + [(k, table[k])];
    assert more[|rows|].0 == k;
    assert forall i :: 0 <= i < |rows| ==> more[i] == rows[i];
  }

  ghost predicate Keyed(index: map<string, PortMapping>) {
    forall id :: id in index ==> index[id].tunnelId == id
  }

  /** An assignment was made, saved and indexed, over whatever row there was. */
  ghost predicate Registered(table: Table, index: map<string, PortMapping>, m: PortMapping, a: Assignment,
                             table': Table, index': map<string, PortMapping>) {
    && AssignmentOk(m, a) && Fits(table, KeyOf(m), RowOf(a))
    && table' == table[KeyOf(m) := RowOf(a)] && index' == index[a.tunnelId := Assigned(m, a)]
  }

  /** The table holds an assignment for the mapping. */
  predicate Stored(table: Table, m: PortMapping) { KeyOf(m) in table && table[KeyOf(m)].remotePort > 0 }

  /** A mapping the panel can be asked for. */
  predicate Registrable(m: PortMapping) { m.serverId != "" && PortOk(m.localPort) && ProtocolOk(m.protocol) }

  /** An answer that can be used. */
  ghost predicate Assignable(table: Table, m: PortMapping, a: Assignment) {
    AssignmentOk(m, a) && Fits(table, KeyOf(m), RowOf(a))
  }

  lemma AssignableMeans(table: Table, m: PortMapping, a: Assignment)
    ensures Registrable(m) <==>
              m.serverId != "" && 1 <= m.localPort <= 65535 && (m.protocol == "tcp" || m.protocol == "udp")
    ensures Assignable(table, m, a) <==>
              && Registrable(m) && a.tunnelId != "" && 1 <= a.remotePort <= 65535
              && forall k :: k in table && k != Key(m.serverId, m.localPort, m.protocol) ==>
                   table[k].id != a.tunnelId && table[k].remotePort != a.remotePort
  {
  }

  lemma RegisteredMeans(table: Table, index: map<string, PortMapping>, m: PortMapping, a: Assignment, table': Table,
                        index': map<string, PortMapping>)
    requires Registered(table, index, m, a, table', index')
    ensures m.serverId != "" && 1 <= m.localPort <= 65535 && (m.protocol == "tcp" || m.protocol == "udp")
    ensures a.tunnelId != "" && 1 <= a.remotePort <= 65535
    ensures table' == table[Key(m.serverId, m.localPort, m.protocol) := Row(a.tunnelId, a.remotePort, a.status)]
    ensures index' == index[a.tunnelId :=
                              PortMapping(a.tunnelId, m.serverId, m.localPort, a.remotePort, m.protocol)]
    ensures |index'| > 0
    ensures forall k :: k in table && k != Key(m.serverId, m.localPort, m.protocol) ==>
              table[k].id != a.tunnelId && table[k].remotePort != a.remotePort
  {
    assert a.tunnelId in index'.Keys && |index'.Keys| == |index'|;
  }

  lemma RegisteredAgrees(table: Table, index: map<string, PortMapping>, m: PortMapping, a: Assignment, table': Table,
                         index': map<string, PortMapping>)
    requires TableOk(table) && Registered(table, index, m, a, table', index')
    ensures TableOk(table') && (Keyed(index) ==> Keyed(index'))
    ensures Agree(table, index) && !Stored(table, m) ==> Agree(table', index')
  {
    SaveKeepsTable(table, KeyOf(m), RowOf(a));
    if Agree(table, index) {
      OverwriteAgreesIff(table, index, m, a);
      forall id | id in index ensures HasRow(table, id, index[id]) && index[id].remotePort > 0 { }
    }
  }

  /** The index, from which the file is made, has the mapping under this assignment. */
  predicate Indexes(index: map<string, PortMapping>, m: PortMapping, a: Assignment) {
    a.tunnelId in index && index[a.tunnelId] == Assigned(m, a)
  }

  class FrpManager {
    const cfg: FrpConfig
    const process: ProcessController
    var mappings: map<string, PortMapping>
    var table: Table
    var file: Option<FrpFile>       // what is on disk
    var allocations: seq<Assignment>  // every assignment the panel has made

    /** Whether lookups fail on absent rows only. */
    const honest: bool

    ghost predicate Valid()
      reads this
    {
      && TableOk(table) && Keyed(mappings)
      && (honest ==> Agree(table, mappings))
    }

    constructor (cfg: FrpConfig, table: Table, honest: bool, reliable: bool)
      requires TableOk(table)
      ensures Valid() && fresh(process) && this.cfg == cfg && this.table == table && mappings == map[] &&
        this.honest == honest && process.reliable == reliable
      ensures process.cmd == None && file == None
    {
      this.cfg, this.table, this.honest := cfg, table, honest;
      mappings, file, allocations := map[], None, [];
      process := new ProcessController(reliable);
    }

    /** None when the row is absent, and also when the query fails. */
    method GetTunnelByMapping(key: Key) returns (row: Option<Row>)
      ensures row.Some? ==> key in table && row.value == table[key]
      ensures honest && key in table ==> row.Some?
    {
      var fault := Fault(honest);
      row := if key in table && !fault then Some(table[key]) else None;
    }

    method SaveTunnel(key: Key, row: Row) returns (ok: bool)
      modifies this`table
      ensures ok ==> Fits(old(table), key, row) && table == old(table)[key := row]
      ensures !ok ==> table == old(table)
      ensures process.reliable && Fits(old(table), key, row) ==> ok
    {
      var fault := Fault(process.reliable);
      ok := !fault && forall k :: k in table && k != key ==>
        table[k].id != row.id && (row.remotePort != 0 ==> table[k].remotePort != row.remotePort);
      if ok {
        table := table[key := row];
      }
    }

    /** The panel's answer, checked on both sides of the call. */
    method Allocate(m: PortMapping) returns (a: Option<Assignment>)
      modifies this`allocations
      ensures a.Some? ==> AssignmentOk(m, a.value) && allocations == old(allocations) + [a.value]
      ensures old(allocations) <= allocations && |allocations| <= |old(allocations)| + 1
      ensures process.reliable && Registrable(m) ==>
        && |allocations| == |old(allocations)| + 1
        && var b := allocations[|old(allocations)|]; a == if AssignmentOk(m, b) then Some(b) else None
    {
      if m.serverId == "" || m.localPort < 1 || m.localPort > 65535 || (m.protocol != "tcp" && m.protocol != "udp") {
        return None;
      }
      var fault := Fault(process.reliable);
      if fault {
        return None;
      }
      var id: string, port: int, status: string := *, *, *;
      if status == "" {
        status := "pending";
      }
      allocations := allocations + [Assignment(id, port, status)];
      if id == "" || port < 1 || port > 65535 {
        return None;
      }
      a := Some(Assignment(id, port, status));
    }

    /** The index in whatever order the map is walked. */
    method Walk() returns (ms: seq<PortMapping>)
      requires Keyed(mappings)
      ensures Lists(ms, mappings)
    {
      ms := [];
      var left := mappings.Keys;
      while left != {}
        invariant left <= mappings.Keys && |ms| + |left| == |mappings|
        invariant DistinctBy(ms, IdOf)
        invariant forall m :: m in ms <==> m.tunnelId in mappings && m.tunnelId !in left && mappings[m.tunnelId] == m
        decreases |left|
      {
        var id :| id in left;
        ms := ms + [mappings[id]];
        left := left - {id};
      }
    }

    /** The process, for an index of `n` mappings whose file has just been written. */
    method RunProcess(n: nat, written: FrpFile) returns (ok: bool)
      modifies process
      ensures process.cmd == if ok then ChildAfter(n, old(process.cmd), written) else None
      ensures process.reliable ==> ok
    {
      if n == 0 {
        ok := process.Stop();
      } else if n == 1 {
        ok := process.Start(written);
      } else {
        ok := process.Reload(written);
      }
    }

    /** rebuildLocked. */
    method Rebuild() returns (r: Result<(), TunnelError>)
      requires Keyed(mappings)
      modifies this`file, process
      ensures Rebuilt(cfg, mappings, r, old(file), old(process.cmd), file, process.cmd)
      ensures r.Ok? ==>
        && file.Some? && IsFileOf(cfg, mappings, Ok(file.value))
        && (|mappings| == 0 ==> process.cmd == None)
        && (|mappings| == 1 && old(process.cmd).Some? ==> process.cmd == old(process.cmd))
        && (|mappings| > 1 || (|mappings| == 1 && old(process.cmd).None?) ==>
             process.cmd == Some(Child(file.value, true)))
      ensures r == Err(NotStarted) ==> file.Some? && IsFileOf(cfg, mappings, Ok(file.value)) && process.cmd == None
      ensures r == Ok(()) || (r.Err? && (r.error in {NotStarted, NotWritten} || r.error.BadConfig?))
      ensures r.Err? && r.error != NotStarted ==> file == old(file) && process.cmd == old(process.cmd)
      ensures process.reliable ==> (r.Ok? <==> Usable(cfg) && AllGood(mappings))
    {
      var ms := Walk();
      GeneratedForIndex(cfg, mappings, ms);
      var generated := GenerateConfig(cfg, ms);
      WalkMakesFile(cfg, mappings, ms);
      if generated.Err? {
        return Err(BadConfig(generated.error));
      }
      var fault := Fault(process.reliable);
      if cfg.configPath == "" || fault {
        return Err(NotWritten);
      }
      file := Some(generated.value);
      var ok := RunProcess(|ms|, generated.value);
      r := if ok then Ok(()) else Err(NotStarted);
    }

    /** Best-effort status update. */
    method MarkError(id: string)
      requires Valid()
      modifies this`table
      ensures Valid() && table in {old(table), WithStatus(old(table), id, "error")}
    {
      var fault := Fault(process.reliable);
      if !fault {
        StatusAgrees(table, mappings, id, "error");
        table := WithStatus(table, id, "error");
      }
    }

    /** A saved assignment is indexed and the file rebuilt; if that fails its row is marked, if possible. */
    method Activate(m: PortMapping, a: Assignment, ghost table0: Table) returns (r: Result<(), TunnelError>)
      requires TableOk(table0) && Keyed(mappings)
      requires Registered(table0, mappings, m, a, table, mappings[a.tunnelId := Assigned(m, a)])
      requires honest ==> Agree(table0, mappings) && !Stored(table0, m)
      modifies this`table, this`mappings, this`file, process
      ensures Valid() && Registered(table0, old(mappings), m, a, old(table), mappings)
      ensures Rebuilt(cfg, mappings, r, old(file), old(process.cmd), file, process.cmd)
      ensures r.Ok? ==> r == Ok(()) && table == old(table)
      ensures process.reliable && honest && Usable(cfg) ==> r.Ok?
      ensures r.Err? ==>
        r.error !in {NotAllocated, NotSaved} && table in {old(table), WithStatus(old(table), a.tunnelId, "error")}
    {
      hide Agree, TableOk, WithStatus, IsFileOf, Rebuilt, Registered, Keyed;
      RegisteredAgrees(table0, mappings, m, a, table, mappings[a.tunnelId := Assigned(m, a)]);
      mappings := mappings[a.tunnelId := Assigned(m, a)];
      if honest { AgreeIsGood(table, mappings); }
      hide Usable, AllGood;
      r := Rebuild();
      if r.Err? {
        MarkError(a.tunnelId);
      }
    }

    /** Everything RegisterPort can do: return the stored assignment and change nothing; give up before
        anything is saved; or save, index and rebuild. */
    method RegisterPort(m: PortMapping) returns (r: Result<Assignment, TunnelError>)
      requires Valid()
      modifies this`table, this`mappings, this`file, this`allocations, process
      ensures Valid()
      ensures honest && Stored(old(table), m) ==> r.Ok? && allocations == old(allocations)
      ensures honest && r.Ok? ==>
                (Indexes(mappings, m, r.value) <==> !Stored(old(table), m) || Indexes(old(mappings), m, r.value))
      ensures allocations == old(allocations) ==>
                table == old(table) && mappings == old(mappings) && file == old(file) && process.cmd == old(process.cmd)
      ensures allocations == old(allocations) && r.Ok? ==>
                KeyOf(m) in table && r.value.remotePort > 0 && table[KeyOf(m)] == RowOf(r.value)
      ensures old(allocations) <= allocations && |allocations| <= |old(allocations)| + 1
      ensures r.Ok? && allocations != old(allocations) ==>
                && allocations == old(allocations) + [r.value]
                && Registered(old(table), old(mappings), m, r.value, table, mappings)
                && Rebuilt(cfg, mappings, Ok(()), old(file), old(process.cmd), file, process.cmd)
      ensures r.Ok? && allocations != old(allocations) ==>
        && m.serverId != "" && 1 <= m.localPort <= 65535 && (m.protocol == "tcp" || m.protocol == "udp")
        && r.value.tunnelId != "" && 1 <= r.value.remotePort <= 65535
        && table == old(table)[Key(m.serverId, m.localPort, m.protocol) :=
                                 Row(r.value.tunnelId, r.value.remotePort, r.value.status)]
        && mappings == old(mappings)[r.value.tunnelId :=
                                       PortMapping(r.value.tunnelId, m.serverId, m.localPort, r.value.remotePort,
                                                   m.protocol)]
        && process.cmd.Some? && file.Some? && IsFileOf(cfg, mappings, Ok(file.value))
        && (|mappings| == 1 && old(process.cmd).Some? ==> process.cmd == old(process.cmd))
        && (|mappings| > 1 || old(process.cmd).None? ==> process.cmd == Some(Child(file.value, true)))
      ensures process.reliable && honest && Usable(cfg) && !Stored(old(table), m) && Registrable(m) ==>
        |allocations| == |old(allocations)| + 1 &&
          (r.Ok? <==> Assignable(old(table), m, allocations[|old(allocations)|]))
      ensures r.Err? && r.error in {NotAllocated, NotSaved} ==>
                table == old(table) && mappings == old(mappings) && file == old(file) && process.cmd == old(process.cmd)
      ensures r.Err? && r.error !in {NotAllocated, NotSaved} ==>
                && Rebuilt(cfg, mappings, Err(r.error), old(file), old(process.cmd), file, process.cmd)
                && exists a, t ::
                     Registered(old(table), old(mappings), m, a, t, mappings) &&
                       table in {t, WithStatus(t, a.tunnelId, "error")}
    {
      hide Rebuilt, TableOk, Agree, WithStatus, AssignmentOk, Fits, IsFileOf, Usable, Registrable;
      ghost var mappings0, file0, held0 := mappings, file, process.cmd;
      var key := KeyOf(m);
      var stored := GetTunnelByMapping(key);
      if stored.Some? && stored.value.remotePort > 0 {
        return Ok(Assignment(stored.value.id, stored.value.remotePort, stored.value.status));
      }
      var answer := Allocate(m);
      if answer.None? {
        return Err(NotAllocated);
      }
      var a := answer.value;
      ghost var table0 := table;
      var saved := SaveTunnel(key, RowOf(a));
      if !saved {
        return Err(NotSaved);
      }
      var active := Activate(m, a, table0);
      r := if active.Ok? then Ok(a) else Err(active.error);
      if r.Ok? {
        RegisteredMeans(table0, mappings0, m, a, table, mappings);
        RebuiltMeans(cfg, mappings, Ok(()), file0, held0, file, process.cmd);
      }
    }

    /** A server's rows as they stand, in some order; false when the query fails. */
    method ListTunnels(serverId: string) returns (ok: bool, rows: seq<(Key, Row)>)
      ensures ok ==> forall k :: k in table && k.serverId == serverId <==> HasKey(rows, k)
      ensures RowsOf(rows, table) && (process.reliable ==> ok)
    {
      rows := [];
      var fault := Fault(process.reliable);
      ok := !fault;
      var left := set k | k in table && k.serverId == serverId;
      while ok && left != {}
        invariant left <= set k | k in table && k.serverId == serverId
        invariant forall k :: k in table && k.serverId == serverId && k !in left <==> HasKey(rows, k)
        invariant RowsOf(rows, table)
        decreases |left|
      {
        var k :| k in left;
        forall key ensures HasKey(rows + [(k, table[k])], key) <==> HasKey(rows, key) || key == k {
          OneMoreRow(rows, table, k, key);
        }
        OneMoreRow(rows, table, k, k);
        hide HasKey, RowsOf;
        rows := rows + [(k, table[k])];
        left := left - {k};
      }
    }

    /** One turn of the release loops: the panel, the row, the index entry. */
    method ReleaseOne(key: Key, row: Row) returns (r: Result<(), TunnelError>)
      requires Valid() && key in table && table[key].id == row.id
      modifies this`table, this`mappings
      ensures Valid()
      ensures r.Ok? ==> table == old(table) - {key} && mappings == old(mappings) - {row.id}
      ensures r.Err? ==> table == old(table) && mappings == old(mappings) && r.error in {NotReleased, NotDeleted}
      ensures process.reliable && 1 <= key.localPort <= 65535 ==> r.Ok?
    {
      var fault := Fault(process.reliable);
      if key.localPort < 1 || key.localPort > 65535 || fault {
        return Err(NotReleased);
      }
      fault := Fault(process.reliable);
      if fault {
        return Err(NotDeleted);
      }
      DeleteAgrees(table, mappings, key);
      table := table - {key};
      mappings := mappings - {row.id};
      r := Ok(());
    }

    /** The loop of ReleasePort and, without a port, of ReleaseServer. Rows and entries go together; a
        failure stops the loop with what is left intact. */
    method ReleaseRows(serverId: string, port: Option<int>) returns (r: Result<(), TunnelError>, ghost gone: set<Key>)
      requires Valid()
      modifies this`table, this`mappings
      ensures Valid() && Released(old(table), old(mappings), gone, table, mappings)
      ensures forall k :: k in gone ==> Picks(k, serverId, port)
      ensures r.Ok? ==> forall k :: k in old(table) && Picks(k, serverId, port) ==> k in gone
      ensures r.Err? ==> r.error in {NotListed, NotReleased, NotDeleted}
      ensures process.reliable && r.Err? ==>
        exists k :: k in old(table) && Picks(k, serverId, port) && !(1 <= k.localPort <= 65535)
    {
      gone := {};
      var ok, rows := ListTunnels(serverId);
      if !ok {
        return Err(NotListed), gone;
      }
      for i := 0 to |rows|
        invariant Valid() && Released(old(table), old(mappings), gone, table, mappings)
        invariant forall k :: k in gone ==> Picks(k, serverId, port)
        invariant forall j :: 0 <= j < i && Picks(rows[j].0, serverId, port) ==> rows[j].0 in gone
        invariant forall j :: i <= j < |rows| ==> rows[j].0 in table && table[rows[j].0] == rows[j].1
      {
        var (key, row) := rows[i];
        assert HasKey(rows, key);
        if port.Some? && key.localPort != port.value {
          continue;
        }
        ghost var table0, index0 := table, mappings;
        r := ReleaseOne(key, row);
        if r.Err? {
          return;
        }
        ReleasedOneMore(old(table), old(mappings), gone, key, table0, index0);
        gone := gone + {key};
      }
      r := Ok(());
    }

    method ReleasePort(serverId: string, localPort: int) returns (r: Result<(), TunnelError>, ghost gone: set<Key>)
      requires Valid()
      modifies this`table, this`mappings, this`file, process
      ensures Valid() && Released(old(table), old(mappings), gone, table, mappings)
      ensures forall k :: k in gone ==> Picks(k, serverId, Some(localPort))
      ensures r.Ok? ==> forall k :: k in old(table) && Picks(k, serverId, Some(localPort)) ==> k in gone
      ensures r.Err? && r.error in {NotListed, NotReleased, NotDeleted} ==>
        file == old(file) && process.cmd == old(process.cmd)
      ensures r.Ok? || r.error !in {NotListed, NotReleased, NotDeleted} ==>
                Rebuilt(cfg, mappings, r, old(file), old(process.cmd), file, process.cmd)
      ensures process.reliable && honest && Usable(cfg) && 1 <= localPort <= 65535 ==> r.Ok?
      ensures r.Ok? ==>
        && (forall k :: k in table <==> k in old(table) && !(k.serverId == serverId && k.localPort == localPort))
        && (forall k :: k in table ==> table[k] == old(table)[k])
        && (forall id :: id in mappings <==>
             id in old(mappings) && forall k :: k in old(table) && old(table)[k].id == id ==>
               !(k.serverId == serverId && k.localPort == localPort))
        && (forall id :: id in mappings ==> mappings[id] == old(mappings)[id])
    {
      hide Agree, TableOk, IsFileOf, Rebuilt, Released;
      r, gone := ReleaseRows(serverId, Some(localPort));
      if r.Ok? {
        ReleasedMeans(old(table), old(mappings), gone, table, mappings, serverId, Some(localPort));
        if honest { AgreeIsGood(table, mappings); }
        hide Picks;
        r := Rebuild();
      }
    }

    method ReleaseServer(serverId: string) returns (r: Result<(), TunnelError>, ghost gone: set<Key>)
      requires Valid()
      modifies this`table, this`mappings, this`file, process
      ensures Valid() && Released(old(table), old(mappings), gone, table, mappings)
      ensures forall k :: k in gone ==> k.serverId == serverId
      ensures r.Ok? ==>
        && (forall k :: k in table <==> k in old(table) && !(k.serverId == serverId))
        && (forall k :: k in table ==> table[k] == old(table)[k])
        && (forall id :: id in mappings <==>
             id in old(mappings) && forall k :: k in old(table) && old(table)[k].id == id ==> !(k.serverId == serverId))
        && (forall id :: id in mappings ==> mappings[id] == old(mappings)[id])
      ensures r.Err? && r.error in {NotListed, NotReleased, NotDeleted} ==>
        file == old(file) && process.cmd == old(process.cmd)
      ensures r.Ok? || r.error !in {NotListed, NotReleased, NotDeleted} ==>
                Rebuilt(cfg, mappings, r, old(file), old(process.cmd), file, process.cmd)
      ensures process.reliable && honest && Usable(cfg) && r.Err? ==>
        exists k :: k in old(table) && k.serverId == serverId && !(1 <= k.localPort <= 65535)
    {
      hide Agree, TableOk, IsFileOf, Rebuilt, Released;
      r, gone := ReleaseRows(serverId, None);
      if r.Ok? {
        ReleasedMeans(old(table), old(mappings), gone, table, mappings, serverId, None);
        if honest { AgreeIsGood(table, mappings); }
        r := Rebuild();
      }
    }

    /** Registering the same mapping again, whatever the first call ended in: with lookups that fail
        only on absent rows the second call makes no allocation once a row is stored, answers with the
        stored id and port, and changes nothing. */
    method RegisterTwice(m: PortMapping)
      returns (first: Result<Assignment, TunnelError>, second: Result<Assignment, TunnelError>)
      requires Valid() && honest
      modifies this`table, this`mappings, this`file, this`allocations, process
      ensures Valid()
      ensures first.Ok? ==> second == first && |allocations| <= |old(allocations)| + 1
      ensures first.Err? && first.error !in {NotAllocated, NotSaved} ==>
                second.Ok? && KeyOf(m) in table && table[KeyOf(m)] == RowOf(second.value) &&
                  |allocations| <= |old(allocations)| + 1
    {
      hide Agree, TableOk, Keyed, Rebuilt, Indexes, Valid;
      first := RegisterPort(m);
      assert first.Ok? || first.error !in {NotAllocated, NotSaved} ==> Stored(table, m);
      second := RegisterPort(m);
    }

    ghost function Now(): Scene
      reads this`file, process
    {
      Scene(file, process.cmd)
    }

    /** Registering any mapping, as seen by file and child. */
    method AnyRegister() returns (ghost turn: Turn)
      requires Valid()
      modifies this`table, this`mappings, this`file, this`allocations, process
      ensures Valid() && Plays(cfg, turn, old(Now()), Now())
    {
      hide Agree, TableOk, Keyed, Rebuilt, Registered, Indexes, Stored;
      var m: PortMapping := *;
      ghost var held, made := process.cmd, allocations;
      var r := RegisterPort(m);
      turn := if allocations == made || (r.Err? && r.error in {NotAllocated, NotSaved}) then Idling
              else Rebuilding(mappings, if r.Ok? then Ok(()) else Err(r.error), held, file);
    }

    method AnyRelease() returns (ghost turn: Turn)
      requires Valid()
      modifies this`table, this`mappings, this`file, process
      ensures Valid() && Plays(cfg, turn, old(Now()), Now())
    {
      hide Agree, TableOk, Keyed, Rebuilt, Released, Picks;
      var server: string, port: Option<int> := *, *;
      ghost var held := process.cmd;
      var r: Result<(), TunnelError>;
      ghost var gone: set<Key>;
      if port.Some? {
        r, gone := ReleasePort(server, port.value);
      } else {
        r, gone := ReleaseServer(server);
      }
      turn := if r.Err? && r.error in {NotListed, NotReleased, NotDeleted} then Idling
              else Rebuilding(mappings, r, held, file);
    }

    /** Any call, with any failures, or the child exiting. */
    method AnyCall() returns (ghost turn: Turn)
      requires Valid()
      modifies this`table, this`mappings, this`file, this`allocations, process
      ensures Valid() && Plays(cfg, turn, old(Now()), Now())
    {
      hide Agree, TableOk, Rebuilt;
      var choice: int := *;
      if choice == 0 {
        turn := AnyRegister();
      } else if choice == 1 {
        turn := AnyRelease();
      } else if choice == 2 {
        ghost var held := process.cmd;
        var r := Rebuild();
        turn := Rebuilding(mappings, r, held, file);
      } else if choice == 3 {
        var _ := process.Stop();
        turn := Stopping;
      } else {
        process.Exit();
        turn := Idling;
      }
    }

    /** Any sequence of calls, with any failures, and with the child exiting at any time: the index
        never holds an entry without its row, and no two entries share a remote port; and the child
        held is stale exactly after a rebuild that spoilt it and was not mended. */
    method AnyRun(calls: nat) returns (ghost turns: seq<Turn>, ghost scenes: seq<Scene>)
      requires Valid() && honest && Current(process.cmd, file)
      modifies this`table, this`mappings, this`file, this`allocations, process
      ensures Valid()
      ensures forall id :: id in mappings ==>
        var m := mappings[id];
        var k := Key(m.serverId, m.localPort, m.protocol);
        m.tunnelId == id && k in table && table[k].id == id && table[k].remotePort == m.remotePort
      ensures forall a, b ::
        a in mappings && b in mappings && mappings[a].remotePort == mappings[b].remotePort ==> a == b
      ensures |turns| == calls && IsPlay(cfg, turns, scenes) && scenes[0] == old(Now()) && scenes[calls] == Now()
      ensures Current(process.cmd, file) <==> !Spoilt(turns, calls)
    {
      turns, scenes := [], [Now()];
      hide Plays;
      for i := 0 to calls
        invariant Valid() && |turns| == i && IsPlay(cfg, turns, scenes) && scenes[0] == old(Now()) && scenes[i] == Now()
      {
        ghost var turn := AnyCall();
        turns, scenes := turns + [turn], scenes + [Now()];
      }
      StaleRunsExactly(cfg, turns, scenes, calls);
      assert forall id :: id in mappings ==> HasRow(table, id, mappings[id]);
      forall a, b | a in mappings && b in mappings && mappings[a].remotePort == mappings[b].remotePort ensures a == b {
        IndexIsUnique(table, mappings, a, b);
      }
    }
  }

  /** A manager is made with an empty index. After a restart, a registration that succeeds is indexed
      if and only if the table did not already hold the mapping; if it did, the registration succeeds
      with the stored assignment, but no file is written and no child is started for it. */
  method RegisterAfterRestart(cfg: FrpConfig, table: Table, m: PortMapping)
    returns (manager: FrpManager, r: Result<Assignment, TunnelError>)
    requires TableOk(table)
    ensures r.Ok? ==> (Indexes(manager.mappings, m, r.value) <==> !Stored(table, m))
    ensures Stored(table, m) ==>
      && r.Ok? && RowOf(r.value) == table[KeyOf(m)]
      && manager.mappings == map[] && manager.file == None && manager.process.cmd == None
  {
    manager := new FrpManager(cfg, table, true, false);
    r := manager.RegisterPort(m);
  }
}
