/** Plugins: all-or-nothing start-up over a routing table divided by prefix. */
module Plugins {
  import opened Text
  import opened Faults

  // ---------------------------------------------------------------- routes and identifiers

  predicate HasPrefix(s: string, prefix: string) { |prefix| <= |s| && s[..|prefix|] == prefix }

  predicate ContainsDots(s: string) { exists i :: 0 <= i < |s| - 1 && s[i] == '.' && s[i + 1] == '.' }

  function Prefix(id: string): string { "/plugins/" + id + "/" }

  predicate IdChar(c: char) { 'A' <= c <= 'Z' || 'a' <= c <= 'z' || '0' <= c <= '9' || c == '_' || c == '-' }

  /** The pattern of plugin identifiers. */
  predicate ValidId(id: string) { id != "" && forall i :: 0 <= i < |id| ==> IdChar(id[i]) }

  predicate Owns(id: string, route: string) { HasPrefix(route, Prefix(id)) }

  /** strings.Contains(s, ".."). */
  lemma ContainsDotsMeans(s: string)
    ensures ContainsDots(s) <==> exists a, b :: s == a + ".." + b
  {
    if i :| 0 <= i < |s| - 1 && s[i] == '.' && s[i + 1] == '.' {
      assert s == s[..i] + ".." + s[i + 2..];
    }
    if a, b :| s == a + ".." + b {
      assert s[|a|] == '.' && s[|a| + 1] == '.';
    }
  }

  /** A plugin owns what begins with "/plugins/", its identifier and a slash. */
  lemma OwnsMeans(id: string, route: string)
    ensures Owns(id, route) <==> "/plugins/" + id + "/" <= route
  {
  }

  /** The pattern `^[A-Za-z0-9_-]+$`, by character codes. */
  lemma ValidIdMeans(id: string)
    ensures ValidId(id) <==> |id| > 0 && forall c :: c in id ==>
              var n := c as int; 65 <= n <= 90 || 97 <= n <= 122 || 48 <= n <= 57 || n == 95 || n == 45
  {
    assert forall i :: 0 <= i < |id| ==> id[i] in id;
  }

  /** Two identifiers can both own some route exactly when one prefix begins the other. */
  lemma SharedRouteIff(a: string, b: string)
    ensures (exists route :: Owns(a, route) && Owns(b, route)) <==>
      HasPrefix(Prefix(a), Prefix(b)) || HasPrefix(Prefix(b), Prefix(a))
  {
    if route :| Owns(a, route) && Owns(b, route) {
      var p, q := Prefix(a), Prefix(b);
      if |p| <= |q| {
        assert q[..|p|] == route[..|q|][..|p|] == route[..|p|];
      } else {
        assert p[..|q|] == route[..|p|][..|q|] == route[..|q|];
      }
    }
    if HasPrefix(Prefix(a), Prefix(b)) { assert Owns(a, Prefix(a)) && Owns(b, Prefix(a)); }
    if HasPrefix(Prefix(b), Prefix(a)) { assert Owns(a, Prefix(b)) && Owns(b, Prefix(b)); }
  }

  const ROUTE_START: nat := |"/plugins/"|

  lemma CharOfOwner(id: string, route: string, k: nat)
    requires Owns(id, route) && k < |id|
    ensures |route| > ROUTE_START + k && route[ROUTE_START + k] == id[k]
  {
    assert Prefix(id)[ROUTE_START + k] == id[k];
    assert route[..|Prefix(id)|][ROUTE_START + k] == route[ROUTE_START + k];
  }

  lemma SlashAfter(id: string, route: string)
    requires Owns(id, route)
    ensures |route| > ROUTE_START + |id| && route[ROUTE_START + |id|] == '/'
  {
    assert Prefix(id)[ROUTE_START + |id|] == '/';
    assert route[..|Prefix(id)|][ROUTE_START + |id|] == route[ROUTE_START + |id|];
  }

  lemma IdInRoute(id: string, route: string)
    requires Owns(id, route)
    ensures |route| >= ROUTE_START + |id| && route[ROUTE_START..ROUTE_START + |id|] == id
  {
    assert route[..|Prefix(id)|][ROUTE_START..ROUTE_START + |id|] == id;
  }

  /** With identifiers of the required form, which contain no slash, a route has at most one owner. */
  lemma OneOwner(a: string, b: string, route: string)
    requires ValidId(a) && ValidId(b) && Owns(a, route) && Owns(b, route)
    ensures a == b
  {
    SlashAfter(a, route);
    SlashAfter(b, route);
    if |a| < |b| {
      CharOfOwner(b, route, |a|);
    } else if |b| < |a| {
      CharOfOwner(a, route, |b|);
    }
    IdInRoute(a, route);
    IdInRoute(b, route);
  }

  /** A slash in an identifier would break the division: removing "a" would take the routes of "a/b". */
  lemma SlashSharesRoutes()
    ensures Owns("a", "/plugins/a/b/x") && Owns("a/b", "/plugins/a/b/x") && !ValidId("a/b")
  {
    assert "/plugins/a/b/x"[..|Prefix("a")|] == Prefix("a");
    assert "/plugins/a/b/x"[..|Prefix("a/b")|] == Prefix("a/b");
    assert "a/b"[1] == '/';
  }

  type Handler = nat

  type Routes = map<string, Handler>

  predicate OwnedByAny(route: string, ids: set<string>) { exists id :: id in ids && Owns(id, route) }

  function Without(routes: Routes, ids: set<string>): Routes {
    map route | route in routes && !OwnedByAny(route, ids) :: routes[route]
  }

  datatype RouteError = InvalidRoute | NoHandler | Taken

  class Proxy {
    var routes: Routes

    constructor ()
      ensures routes == map[]
    {
      routes := map[];
    }

    method Register(pluginId: string, route: string, handler: Option<Handler>) returns (r: Result<(), RouteError>)
      modifies this
      ensures r.Ok? <==>
        pluginId != "" && Owns(pluginId, route) && !ContainsDots(route) && handler.Some? && route !in old(routes)
      ensures r.Ok? <==>
        && pluginId != "" && "/plugins/" + pluginId + "/" <= route && !(exists a, b :: route == a + ".." + b)
        && handler.Some? && route !in old(routes)
      ensures routes == if r.Ok? then old(routes)[route := handler.value] else old(routes)
    {
      ContainsDotsMeans(route);
      hide ContainsDots;
      if pluginId == "" || !HasPrefix(route, "/plugins/" + pluginId + "/") || ContainsDots(route) {
        return Err(InvalidRoute);
      }
      if handler.None? {
        return Err(NoHandler);
      }
      if route in routes {
        return Err(Taken);
      }
      routes := routes[route := handler.value];
      r := Ok(());
    }

    /** Removes the routes under one plugin's prefix. */
    method Unregister(pluginId: string)
      modifies this
      ensures routes == Without(old(routes), {pluginId})
      ensures forall r :: r in routes <==> r in old(routes) && !("/plugins/" + pluginId + "/" <= r)
      ensures forall r :: r in routes ==> routes[r] == old(routes)[r]
    {
      var left := routes.Keys;
      while left != {}
        invariant left <= old(routes).Keys
        invariant routes == map r | r in old(routes) && (r in left || !Owns(pluginId, r)) :: old(routes)[r]
        decreases |left|
      {
        var route :| route in left;
        if HasPrefix(route, "/plugins/" + pluginId + "/") {
          routes := routes - {route};
        }
        left := left - {route};
      }
      assert forall r :: OwnedByAny(r, {pluginId}) <==> Owns(pluginId, r);
    }
  }

  lemma SetOfSnoc(ids: seq<string>, i: nat)
    requires i < |ids|
    ensures ids[..i + 1] == ids[..i] + [ids[i]]
    ensures SetOf(ids[..i + 1]) == SetOf(ids[..i]) + {ids[i]}
  {
    assert ids[..i + 1] == ids[..i] + [ids[i]];
  }

  lemma SetOfTwice(ids: seq<string>, id: string)
    ensures SetOf(ids + [id, id]) == SetOf(ids) + {id}
  {
  }

  /** Every route of plugin `id` is still there, with its handler. */
  ghost predicate KeepsRoutesOf(id: string, before: Routes, now: Routes) {
    forall route :: route in before && Owns(id, route) ==> route in now && now[route] == before[route]
  }

  lemma WithoutTwice(routes: Routes, a: set<string>, b: set<string>)
    ensures Without(Without(routes, a), b) == Without(routes, a + b)
  {
  }

  // ---------------------------------------------------------------- plugins

  datatype Manifest = Manifest(id: string, allowedRoutes: seq<string>)

  predicate ValidManifest(m: Manifest) {
    && ValidId(m.id)
    && forall i :: 0 <= i < |m.allowedRoutes| ==> Owns(m.id, m.allowedRoutes[i]) && !ContainsDots(m.allowedRoutes[i])
  }

  predicate NoRouteTwice(m: Manifest) {
    forall i, j :: 0 <= i < j < |m.allowedRoutes| ==> m.allowedRoutes[i] != m.allowedRoutes[j]
  }

  /** A plugin process. The handshake is reduced to its outcome: a start that fails leaves the plugin
      stopped (or running, if that is why it failed), one that succeeds reports capabilities within
      the manifest. */
  class Host {
    const manifest: Manifest

    /** Whether the process always starts, offering every route of its manifest, and always stops. */
    const reliable: bool
    var running: bool
    var capability: set<string>

    constructor (manifest: Manifest, reliable: bool)
      ensures this.manifest == manifest && this.reliable == reliable && !running
    {
      this.manifest, this.reliable := manifest, reliable;
      running, capability := false, {};
    }

    method Start() returns (ok: bool)
      modifies this
      ensures ok ==> !old(running) && running && forall r :: r in capability ==> r in manifest.allowedRoutes
      ensures !ok ==> running == old(running)
      ensures reliable && !old(running) ==> ok && forall r :: r in manifest.allowedRoutes ==> r in capability
    {
      if running {
        return false;
      }
      var fault := Fault(reliable);
      ok := !fault;
      if ok {
        running := true;
        capability := {};
        for i := 0 to |manifest.allowedRoutes|
          invariant running && forall r :: r in capability ==> r in manifest.allowedRoutes
          invariant reliable ==> forall k :: 0 <= k < i ==> manifest.allowedRoutes[k] in capability
        {
          var withheld := Fault(reliable);
          if !withheld {
            capability := capability + {manifest.allowedRoutes[i]};
          }
        }
      }
    }

    /** Ends with the plugin stopped, also when it reports an error. */
    method Stop() returns (ok: bool)
      modifies this
      ensures !running && capability == old(capability) && (reliable ==> ok)
    {
      running := false;
      var fault := Fault(reliable);
      ok := !fault;
    }
  }

  // ---------------------------------------------------------------- event dispatch

  /** What the registry remembers of one plugin's deliveries. */
  datatype Health = Health(failures: nat, enabled: bool)

  function Delivered(h: Health, ok: bool): Health {
    if !h.enabled then h
    else if ok then Health(0, true)
    else Health(h.failures + 1, h.failures + 1 < 3)
  }

  function AfterAll(h: Health, outcomes: seq<bool>): Health
    decreases |outcomes|
  {
    if outcomes == [] then h else AfterAll(Delivered(h, outcomes[0]), outcomes[1..])
  }

  lemma {:induction false} AfterOneMore(h: Health, outcomes: seq<bool>, ok: bool)
    ensures AfterAll(h, outcomes + [ok]) == Delivered(AfterAll(h, outcomes), ok)
    decreases |outcomes|
  {
    if outcomes == [] {
      assert AfterAll(h, [ok]) == AfterAll(Delivered(h, ok), []);
    } else {
      assert (outcomes + [ok])[1..] == outcomes[1..] + [ok];
      AfterOneMore(Delivered(h, outcomes[0]), outcomes[1..], ok);
    }
  }

  predicate FailsAt(outcomes: seq<bool>, i: int, n: int) {
    0 <= i && i + n <= |outcomes| && forall k :: i <= k < i + n ==> !outcomes[k]
  }

  lemma {:induction false} StaysDisabled(h: Health, outcomes: seq<bool>)
    requires !h.enabled
    ensures AfterAll(h, outcomes) == h
  {
    if outcomes != [] { StaysDisabled(h, outcomes[1..]); }
  }

  lemma ShiftRuns(outcomes: seq<bool>)
    requires outcomes != []
    ensures (exists i :: FailsAt(outcomes, i, 3)) <==>
      FailsAt(outcomes, 0, 3) || exists i :: FailsAt(outcomes[1..], i, 3)
  {
    var rest := outcomes[1..];
    if i :| FailsAt(outcomes, i, 3) && i > 0 { assert FailsAt(rest, i - 1, 3); }
    if i :| FailsAt(rest, i, 3) {
      assert forall k :: i + 1 <= k < i + 4 ==> outcomes[k] == rest[k - 1];
      assert FailsAt(outcomes, i + 1, 3);
    }
  }

  /** A plugin is switched off exactly when three deliveries in a row fail, or when, at the very
      beginning, its first failures (at least one) bring an inherited count to three. */
  lemma {:induction false} DisabledIff(failures: nat, outcomes: seq<bool>)
    ensures !AfterAll(Health(failures, true), outcomes).enabled <==>
            (exists i :: FailsAt(outcomes, i, 3)) || FailsAt(outcomes, 0, if failures < 2 then 3 - failures else 1)
    decreases |outcomes|
  {
    var need := if failures < 2 then 3 - failures else 1;
    if outcomes != [] {
      var rest := outcomes[1..];
      assert forall k :: 0 <= k < |rest| ==> rest[k] == outcomes[k + 1];
      var next := Delivered(Health(failures, true), outcomes[0]);
      if next.enabled {
        DisabledIff(next.failures, rest);
        ShiftRuns(outcomes);
      } else {
        StaysDisabled(next, rest);
        assert FailsAt(outcomes, 0, need);
      }
    }
  }

  /** For a plugin with a clean count: three failures in a row, no more and no less. */
  lemma DisabledByThree(outcomes: seq<bool>)
    ensures !AfterAll(Health(0, true), outcomes).enabled <==>
            exists i :: 0 <= i < |outcomes| - 2 && !outcomes[i] && !outcomes[i + 1] && !outcomes[i + 2]
  {
    DisabledIff(0, outcomes);
    if i :| FailsAt(outcomes, i, 3) {
      assert !outcomes[i] && !outcomes[i + 1] && !outcomes[i + 2];
    }
    if i :| 0 <= i < |outcomes| - 2 && !outcomes[i] && !outcomes[i + 1] && !outcomes[i + 2] {
      assert FailsAt(outcomes, i, 3);
    }
  }

  // ---------------------------------------------------------------- the registry

  datatype StartError = NotStarted(id: string) | NotRouted(id: string, route: string)

  /** Starting `ids` in order failed at the `i`-th, after `done` was begun. */
  predicate FailedAt(ids: seq<string>, i: nat, e: StartError, done: seq<string>)
    requires i < |ids|
  {
    e.id == ids[i] && done == ids[..i] + if e.NotStarted? then [] else [ids[i], ids[i]]
  }

  /** Of the chosen plugins, those begun when start-up failed: the ones that sort before the failing
      one, and it too if its process was running. */
  function Begun(chosen: set<string>, e: StartError): set<string> {
    set id | id in chosen && Leq(id, e.id) && (id == e.id ==> e.NotRouted?)
  }

  lemma FailedAtMeansBegun(ids: seq<string>, i: nat, e: StartError, done: seq<string>)
    requires SortedBy(ids, Itself) && DistinctBy(ids, Itself) && i < |ids| && FailedAt(ids, i, e, done)
    ensures e.id in ids && SetOf(done) == Begun(SetOf(ids), e)
  {
    LeqTotal(ids[i], ids[i]);
    assert forall j :: 0 <= j < i ==> Leq(Itself(ids[j]), Itself(ids[i])) && Itself(ids[j]) != Itself(ids[i]);
    forall id | id in Begun(SetOf(ids), e) ensures id in done {
      var j :| 0 <= j < |ids| && ids[j] == id;
      if j > i {
        assert Leq(Itself(ids[i]), Itself(ids[j])) && Itself(ids[i]) != Itself(ids[j]);
        LeqTotal(ids[i], ids[j]);
      }
    }
  }

  class Registry {
    const handlers: map<string, Handler>
    const proxy: Proxy
    var hosts: map<string, Host>
    var enabled: map<string, bool>
    var failures: map<string, nat>
    var started: bool

    ghost predicate Valid()
      reads this`hosts
    {
      && (forall id :: id in hosts ==> hosts[id].manifest.id == id && ValidManifest(hosts[id].manifest))
      && forall a, b :: a in hosts && b in hosts && a != b ==> hosts[a] != hosts[b]
    }

    /** Started by StartAll: flagged enabled, or not flagged at all. */
    predicate Chosen(id: string)
      reads this`hosts, this`enabled
    {
      id in hosts && (id !in enabled || enabled[id])
    }

    ghost function ChosenSet(): set<string>
      reads this`hosts, this`enabled
    {
      set id | id in hosts && Chosen(id)
    }

    /** The plugins whose process runs. */
    ghost function Running(): set<string>
      reads this`hosts, hosts.Values
    {
      set id | id in hosts && hosts[id].running
    }

    /** A route of the manifest of one of `ids`. */
    ghost predicate Promised(route: string, ids: set<string>)
      reads this`hosts
    {
      exists id :: id in ids && id in hosts && route in hosts[id].manifest.allowedRoutes
    }

    /** Beyond `before`, the table has only promised routes of `ids`. */
    ghost predicate Extends(before: Routes, now: Routes, ids: set<string>)
      reads this`hosts
    {
      && (forall route :: route in before ==> route in now && now[route] == before[route])
      && forall route :: route in now && route !in before ==> Promised(route, ids)
    }

    predicate Served(before: Routes, now: Routes, route: string) {
      route in now && route !in before && route in handlers && now[route] == handlers[route]
    }

    /** Beyond `before`, the table has all the promised routes of `ids`, new ones, with their handlers. */
    ghost predicate Serves(before: Routes, now: Routes, ids: set<string>)
      reads this`hosts
    {
      && Extends(before, now, ids)
      && forall route :: Promised(route, ids) ==> Served(before, now, route)
    }

    /** Removing what `ids` own undoes the extension. */
    lemma UndoExtends(before: Routes, now: Routes, ids: set<string>)
      requires Valid() && Extends(before, now, ids)
      ensures Without(now, ids) == Without(before, ids)
    {
      forall route | route in now && route !in before ensures OwnedByAny(route, ids) {
        var id :| id in ids && id in hosts && route in hosts[id].manifest.allowedRoutes;
        assert Owns(id, route);
      }
    }

    constructor (hosts: map<string, Host>, handlers: map<string, Handler>)
      requires forall id :: id in hosts ==> hosts[id].manifest.id == id && ValidManifest(hosts[id].manifest)
      requires forall a, b :: a in hosts && b in hosts && a != b ==> hosts[a] != hosts[b]
      ensures Valid() && fresh(proxy) && proxy.routes == map[] && !started && this.hosts == hosts
    {
      this.hosts, this.handlers := hosts, handlers;
      enabled, failures, started := map[], map[], false;
      proxy := new Proxy();
    }

    /** Removing the routes of `ids` costs no other plugin a route: identifiers have no slash. */
    lemma OthersKeepTheirRoutes(routes: Routes, ids: set<string>, id: string)
      requires Valid() && ids <= hosts.Keys && id in hosts && id !in ids
      ensures KeepsRoutesOf(id, routes, Without(routes, ids))
    {
      forall route | route in routes && Owns(id, route) ensures route in Without(routes, ids) {
        forall other | other in ids && Owns(other, route) ensures false {
          OneOwner(id, other, route);
        }
      }
    }

    method StopHost(id: string) returns (ok: bool)
      requires Valid() && id in hosts
      modifies hosts[id]
      ensures Running() == old(Running()) - {id}
    {
      ok := hosts[id].Stop();
    }

    method StartHost(id: string) returns (ok: bool)
      requires Valid() && id in hosts
      modifies hosts[id]
      ensures ok ==> id !in old(Running()) && Running() == old(Running()) + {id}
      ensures !ok ==> Running() == old(Running())
      ensures hosts[id].reliable && id !in old(Running()) ==>
        ok && forall r :: r in hosts[id].manifest.allowedRoutes ==> r in hosts[id].capability
    {
      ok := hosts[id].Start();
    }

    /** Stops these plugins and removes their routes. Naming one twice does no harm. */
    method RollbackStarted(ids: seq<string>)
      requires Valid()
      modifies proxy, hosts.Values
      ensures Valid() && Running() == old(Running()) - SetOf(ids)
      ensures proxy.routes == Without(old(proxy.routes), SetOf(ids))
      ensures SetOf(ids) <= hosts.Keys ==>
        forall id :: id in hosts && id !in ids ==> KeepsRoutesOf(id, old(proxy.routes), proxy.routes)
    {
      ghost var before := proxy.routes;
      assert SetOf(ids[..0]) == {};
      assert Without(before, {}) == before;
      for i := 0 to |ids|
        invariant Valid() && Running() == old(Running()) - SetOf(ids[..i])
        invariant proxy.routes == Without(before, SetOf(ids[..i]))
      {
        var id := ids[i];
        SetOfSnoc(ids, i);
        hide Valid, Without, SetOf;
        if id in hosts {
          var _ := StopHost(id);
        }
        WithoutTwice(before, SetOf(ids[..i]), {id});
        proxy.Unregister(id);
        assert id !in hosts ==> id !in Running();
      }
      assert ids[..|ids|] == ids;
      if SetOf(ids) <= hosts.Keys {
        forall id | id in hosts && id !in ids ensures KeepsRoutesOf(id, before, proxy.routes) {
          OthersKeepTheirRoutes(before, SetOf(ids), id);
        }
      }
    }

    /** Nothing keeps the routes of plugin `id` from being registered in `table`. */
    ghost predicate Routable(id: string, table: Routes)
      requires id in hosts
      reads this`hosts
    {
      && NoRouteTwice(hosts[id].manifest)
      && forall route :: route in hosts[id].manifest.allowedRoutes ==> route in handlers && route !in table
    }

    /** One route of a started plugin's manifest. */
    method RegisterRoute(id: string, i: nat) returns (ok: bool)
      requires Valid() && id in hosts && i < |hosts[id].manifest.allowedRoutes|
      modifies proxy
      ensures var route := hosts[id].manifest.allowedRoutes[i];
              && (ok <==> route in hosts[id].capability && route in handlers && route !in old(proxy.routes))
              && proxy.routes == if ok then old(proxy.routes)[route := handlers[route]] else old(proxy.routes)
    {
      var route := hosts[id].manifest.allowedRoutes[i];
      assert id != "" && Owns(id, route) && !ContainsDots(route);
      hide Valid, Owns, ContainsDots;
      var handler := if route in hosts[id].capability && route in handlers then Some(handlers[route]) else None;
      var registered := proxy.Register(id, route, handler);
      ok := registered.Ok?;
    }

    /** `now` is `before` and the routes `added`, all of them new, none twice, with their handlers. */
    ghost predicate Added(before: Routes, now: Routes, added: seq<string>) {
      && (forall i :: 0 <= i < |added| ==> Served(before, now, added[i]))
      && (forall route :: route in before ==> route in now && now[route] == before[route])
      && (forall route :: route in now && route !in before ==> route in added)
      && (forall i, j :: 0 <= i < j < |added| ==> added[i] != added[j])
    }

    lemma AddedMore(before: Routes, now: Routes, added: seq<string>, route: string)
      requires Added(before, now, added) && route in handlers && route !in now
      ensures Added(before, now[route := handlers[route]], added + [route])
    {
      assert forall i :: 0 <= i < |added| ==> added[i] in now;
    }

    /** A route that could not be registered was not offered, has no handler, or is in the table: taken
        before, or listed twice. */
    lemma RouteRefused(id: string, before: Routes, now: Routes, i: nat)
      requires id in hosts && i < |hosts[id].manifest.allowedRoutes| && Routable(id, before)
      requires Added(before, now, hosts[id].manifest.allowedRoutes[..i])
      ensures hosts[id].manifest.allowedRoutes[i] in handlers && hosts[id].manifest.allowedRoutes[i] !in now
    {
      var routes := hosts[id].manifest.allowedRoutes;
      assert routes[i] in routes;
    }

    lemma AddedMeans(before: Routes, now: Routes, m: Manifest, i: nat)
      requires i <= |m.allowedRoutes| && Added(before, now, m.allowedRoutes[..i])
      ensures forall route :: route in before ==> route in now && now[route] == before[route]
      ensures forall route :: route in now && route !in before ==> route in m.allowedRoutes
      ensures i == |m.allowedRoutes| ==>
        NoRouteTwice(m) && forall route :: route in m.allowedRoutes ==> Served(before, now, route)
    {
      assert i == |m.allowedRoutes| ==> m.allowedRoutes[..i] == m.allowedRoutes;
    }

    /** The routes of a started plugin, up to the first that cannot be registered. */
    method RegisterRoutes(id: string) returns (failed: Option<string>)
      requires Valid() && id in hosts
      modifies proxy
      ensures failed.None? ==>
        forall route :: route in hosts[id].manifest.allowedRoutes ==> Served(old(proxy.routes), proxy.routes, route)
      ensures failed.None? ==> NoRouteTwice(hosts[id].manifest)
      ensures forall route ::
        route in old(proxy.routes) ==> route in proxy.routes && proxy.routes[route] == old(proxy.routes)[route]
      ensures forall route ::
        route in proxy.routes && route !in old(proxy.routes) ==> route in hosts[id].manifest.allowedRoutes
      ensures Routable(id, old(proxy.routes)) && failed.Some? ==>
        failed.value in hosts[id].manifest.allowedRoutes && failed.value !in hosts[id].capability
    {
      var m := hosts[id].manifest;
      ghost var before := proxy.routes;
      hide Valid, Routable;
      for i := 0 to |m.allowedRoutes|
        invariant Added(before, proxy.routes, m.allowedRoutes[..i])
      {
        hide Added, NoRouteTwice;
        ghost var now := proxy.routes;
        var ok := RegisterRoute(id, i);
        if !ok {
          AddedMeans(before, now, m, i);
          if Routable(id, before) { RouteRefused(id, before, now, i); }
          return Some(m.allowedRoutes[i]);
        }
        AddedMore(before, now, m.allowedRoutes[..i], m.allowedRoutes[i]);
        assert m.allowedRoutes[..i + 1] == m.allowedRoutes[..i] + [m.allowedRoutes[i]];
      }
      AddedMeans(before, proxy.routes, m, |m.allowedRoutes|);
      failed := None;
    }

    /** The chosen identifiers, sorted. */
    method ChosenIds() returns (ids: seq<string>)
      ensures forall id :: id in ids <==> Chosen(id)
      ensures SortedBy(ids, Itself) && DistinctBy(ids, Itself)
    {
      ids := [];
      var left := hosts.Keys;
      while left != {}
        invariant left <= hosts.Keys
        invariant forall id :: id in ids <==> Chosen(id) && id !in left
        invariant DistinctBy(ids, Itself)
        decreases |left|
      {
        var id :| id in left;
        if id !in enabled || enabled[id] {
          ids := ids + [id];
        }
        left := left - {id};
      }
      RearrangedStaysDistinct(ids, SortBy(ids, Itself), Itself);
      ids := SortBy(ids, Itself);
    }

    /** What one more plugin's routes add. */
    lemma ServesMore(before: Routes, now: Routes, later: Routes, ids: set<string>, id: string)
      requires id in hosts && Serves(before, now, ids)
      requires forall route :: route in now ==> route in later && later[route] == now[route]
      requires forall route :: route in later && route !in now ==> route in hosts[id].manifest.allowedRoutes
      ensures Extends(before, later, ids + {id})
      ensures (forall route :: route in hosts[id].manifest.allowedRoutes ==> Served(now, later, route)) ==>
        Serves(before, later, ids + {id})
    {
      forall route | route in later && route !in before ensures Promised(route, ids + {id}) {
        assert route in now ==> Promised(route, ids);
      }
      if forall route :: route in hosts[id].manifest.allowedRoutes ==> Served(now, later, route) {
        forall route | Promised(route, ids + {id}) ensures Served(before, later, route) {
          assert Promised(route, ids) || route in hosts[id].manifest.allowedRoutes;
        }
      }
    }

    /** The routes other plugins have added are not its own. */
    lemma StillRoutable(id: string, before: Routes, now: Routes, ids: set<string>)
      requires Valid() && id in hosts && id !in ids && Routable(id, before) && Extends(before, now, ids)
      ensures Routable(id, now)
    {
      forall route | route in hosts[id].manifest.allowedRoutes ensures route !in now {
        if route in now {
          var other :| other in ids && other in hosts && route in hosts[other].manifest.allowedRoutes;
          OneOwner(id, other, route);
        }
      }
    }

    lemma ServesExtends(before: Routes, now: Routes, ids: set<string>)
      requires Serves(before, now, ids)
      ensures Extends(before, now, ids)
    {
    }

    /** One plugin: its process, then its routes. */
    method StartOne(id: string, ghost before: Routes, ghost ids: set<string>) returns (ok: bool, failed: Option<string>)
      requires Valid() && id in hosts && Serves(before, proxy.routes, ids)
      modifies proxy, hosts[id]
      ensures !ok ==> Running() == old(Running()) && proxy.routes == old(proxy.routes)
      ensures ok ==> id !in old(Running()) && Running() == old(Running()) + {id}
      ensures ok ==> Extends(before, proxy.routes, ids + {id})
      ensures ok && failed.None? ==> Serves(before, proxy.routes, ids + {id}) && NoRouteTwice(hosts[id].manifest)
      ensures hosts[id].reliable && id !in old(Running()) && id !in ids && Routable(id, before) ==> ok && failed.None?
    {
      hide Valid, Serves, Extends, Routable, NoRouteTwice;
      failed := None;
      ghost var now := proxy.routes;
      ServesExtends(before, now, ids);
      if Routable(id, before) && id !in ids { StillRoutable(id, before, now, ids); }
      ok := StartHost(id);
      if ok {
        failed := RegisterRoutes(id);
        ServesMore(before, now, proxy.routes, ids, id);
      }
    }

    ghost predicate NoneRoutesTwice(ids: set<string>)
      reads this`hosts
    {
      forall id :: id in ids && id in hosts ==> NoRouteTwice(hosts[id].manifest)
    }

    /** A plugin that must start: its process works and is not running, and its routes can be registered. */
    ghost predicate Startable(id: string, running: set<string>, table: Routes)
      requires id in hosts
      reads this`hosts
    {
      hosts[id].reliable && id !in running && Routable(id, table)
    }

    lemma StartableMeans(id: string, running: set<string>, table: Routes)
      requires id in hosts
      ensures Startable(id, running, table) <==>
        var routes := hosts[id].manifest.allowedRoutes;
        && hosts[id].reliable && id !in running
        && (forall i, j :: 0 <= i < j < |routes| ==> routes[i] != routes[j])
        && (forall i :: 0 <= i < |routes| ==> routes[i] in handlers && routes[i] !in table)
    {
      var routes := hosts[id].manifest.allowedRoutes;
      assert forall i :: 0 <= i < |routes| ==> routes[i] in routes;
    }

    /** The start-up loop. On an error `done` is what has to be rolled back: the plugins started before,
        and the failing one (twice) if it was its routes that failed. */
    method StartEach(ids: seq<string>) returns (r: Result<(), StartError>, done: seq<string>)
      requires Valid() && SetOf(ids) <= hosts.Keys && DistinctBy(ids, Itself)
      modifies proxy, hosts.Values
      ensures SetOf(done) !! old(Running()) && Running() == old(Running()) + SetOf(done)
      ensures Extends(old(proxy.routes), proxy.routes, SetOf(done))
      ensures r.Ok? ==>
        done == ids && Serves(old(proxy.routes), proxy.routes, SetOf(done)) && NoneRoutesTwice(SetOf(ids))
      ensures r.Err? ==> exists i :: 0 <= i < |ids| && FailedAt(ids, i, r.error, done)
      ensures r.Err? ==> r.error.id in hosts && !Startable(r.error.id, old(Running()), old(proxy.routes))
    {
      ghost var before := proxy.routes;
      done := [];
      for i := 0 to |ids|
        invariant done == ids[..i]
        invariant SetOf(done) !! old(Running()) && Running() == old(Running()) + SetOf(done)
        invariant Serves(before, proxy.routes, SetOf(done)) && NoneRoutesTwice(SetOf(done))
      {
        var id := ids[i];
        NotEarlier(ids, Itself, i);
        SetOfSnoc(ids, i);
        SetOfTwice(done, id);
        assert id in SetOf(ids);
        hide Serves, Extends, SetOf, DistinctBy, Valid;
        var ok, failed := StartOne(id, before, SetOf(done));
        if !ok {
          r := Err(NotStarted(id));
          ServesExtends(before, proxy.routes, SetOf(done));
          assert FailedAt(ids, i, r.error, done);
          return;
        }
        if failed.Some? {
          r, done := Err(NotRouted(id, failed.value)), done + [id, id];
          assert FailedAt(ids, i, r.error, done);
          return;
        }
        done := done + [id];
      }
      r := Ok(());
      ServesExtends(before, proxy.routes, SetOf(done));
    }

    /** The routing table is as it was exactly when none of the routes removed was there before. */
    lemma NothingRemovedIff(before: Routes, ids: set<string>)
      ensures Without(before, ids) == before <==> forall route :: route in before ==> !OwnedByAny(route, ids)
    {
      if Without(before, ids) == before {
        forall route | route in before ensures !OwnedByAny(route, ids) {
          assert route in Without(before, ids);
        }
      }
    }

    /** The routes of `ids` are gone, no other plugin has lost one, and the table is as it was exactly
        when `ids` had none. */
    ghost predicate Undone(ids: set<string>, before: Routes, now: Routes)
      reads this`hosts
    {
      && now == Without(before, ids)
      && (forall id, route :: id in ids && route in now ==> !Owns(id, route))
      && (forall id :: id in hosts && id !in ids ==> KeepsRoutesOf(id, before, now))
      && (now == before <==> forall route :: route in before ==> !OwnedByAny(route, ids))
    }

    lemma WithoutIsUndone(ids: set<string>, before: Routes)
      requires Valid() && ids <= hosts.Keys
      ensures Undone(ids, before, Without(before, ids))
    {
      NothingRemovedIff(before, ids);
      forall id, route | id in ids && route in Without(before, ids) ensures !Owns(id, route) {
        assert !OwnedByAny(route, ids);
      }
      forall id | id in hosts && id !in ids ensures KeepsRoutesOf(id, before, Without(before, ids)) {
        OthersKeepTheirRoutes(before, ids, id);
      }
    }

    /** Start-up is all or nothing. On success every plugin of `ids` runs and every route of its manifest
        is served by its handler, in addition to the routes there were; so a manifest that lists a route
        twice, though valid, never lets start-up succeed. On failure the same plugins run as before;
        those rolled back are the ones begun, and have no route left; every other plugin keeps every
        route it had; and the whole table is as it was exactly when none of those rolled back had one. */
    ghost predicate AllOrNothing(ids: set<string>, r: Result<(), StartError>, gone: set<string>,
                                 running: set<string>, running': set<string>, routes: Routes, routes': Routes)
      reads this`hosts
    {
      if r.Ok? then
        && ids !! running && running' == running + ids
        && Serves(routes, routes', ids) && NoneRoutesTwice(ids)
      else
        && running' == running
        && r.error.id in ids && gone == Begun(ids, r.error) && gone !! running
        && Undone(gone, routes, routes')
    }

    /** Success, spelled out on the flags, the processes and the table. */
    lemma StartedMeans(r: Result<(), StartError>, gone: set<string>, running: set<string>,
                       running': set<string>, routes: Routes, routes': Routes)
      requires AllOrNothing(ChosenSet(), r, gone, running, running', routes, routes') && r.Ok?
      ensures forall id :: id in hosts ==> (id in running' <==> id in running || id !in enabled || enabled[id])
      ensures forall id :: id in hosts && (id !in enabled || enabled[id]) ==> id !in running
      ensures forall route :: route in routes' <==>
        || route in routes
        || exists id :: id in hosts && (id !in enabled || enabled[id]) && route in hosts[id].manifest.allowedRoutes
      ensures forall route :: route in routes' ==>
        if route in routes then routes'[route] == routes[route]
        else route in handlers && routes'[route] == handlers[route]
    {
      forall id ensures id in ChosenSet() <==> id in hosts && (id !in enabled || enabled[id]) {
      }
      hide ChosenSet;
      var ids := ChosenSet();
      forall route ensures route in routes' <==> route in routes || Promised(route, ids) {
        assert Promised(route, ids) ==> Served(routes, routes', route);
      }
    }

    /** Failure, likewise. */
    lemma UndoneMeans(r: Result<(), StartError>, gone: set<string>, running: set<string>,
                      running': set<string>, routes: Routes, routes': Routes)
      requires AllOrNothing(ChosenSet(), r, gone, running, running', routes, routes') && r.Err?
      ensures running' == running
      ensures forall route :: route in routes' ==> route in routes && routes'[route] == routes[route]
      ensures forall route :: route in routes ==>
        (route !in routes' <==>
          exists id :: id in hosts && (id !in enabled || enabled[id]) && "/plugins/" + id + "/" <= route &&
            if id == r.error.id then r.error.NotRouted? else Leq(id, r.error.id))
    {
      LeqTotal(r.error.id, r.error.id);
      forall id ensures id in gone <==>
        && id in hosts && (id !in enabled || enabled[id])
        && if id == r.error.id then r.error.NotRouted? else Leq(id, r.error.id) {
      }
      assert routes' == Without(routes, gone);
      hide AllOrNothing, Leq, ChosenSet, Begun, Undone;
      forall route | route in routes
        ensures route !in routes' <==> exists id :: id in gone && "/plugins/" + id + "/" <= route {
        assert route !in routes' <==> OwnedByAny(route, gone);
        if OwnedByAny(route, gone) {
          var id :| id in gone && Owns(id, route);
          OwnsMeans(id, route);
        }
        if id :| id in gone && "/plugins/" + id + "/" <= route {
          OwnsMeans(id, route);
        }
      }
    }

    /** The loop and its failure paths. */
    method StartOrUndo(ids: seq<string>) returns (r: Result<(), StartError>, ghost gone: set<string>)
      requires Valid() && SetOf(ids) <= hosts.Keys && SortedBy(ids, Itself) && DistinctBy(ids, Itself)
      modifies proxy, hosts.Values
      ensures AllOrNothing(SetOf(ids), r, gone, old(Running()), Running(), old(proxy.routes), proxy.routes)
      ensures r.Err? ==> r.error.id in hosts && !Startable(r.error.id, old(Running()), old(proxy.routes))
    {
      gone := {};
      ghost var before := proxy.routes;
      var done;
      r, done := StartEach(ids);
      if r.Err? {
        gone := SetOf(done);
        ghost var i :| 0 <= i < |ids| && FailedAt(ids, i, r.error, done);
        FailedAtMeansBegun(ids, i, r.error, done);
        UndoExtends(before, proxy.routes, gone);
        WithoutIsUndone(gone, before);
        hide Extends, Serves, SortedBy, DistinctBy, FailedAt, Undone, Begun, Without, Startable;
        RollbackStarted(done);
      }
    }

    method StartChosen() returns (r: Result<(), StartError>, ghost gone: set<string>)
      requires Valid()
      modifies proxy, hosts.Values
      ensures AllOrNothing(ChosenSet(), r, gone, old(Running()), Running(), old(proxy.routes), proxy.routes)
      ensures r.Err? ==> r.error.id in hosts && !Startable(r.error.id, old(Running()), old(proxy.routes))
    {
      var ids := ChosenIds();
      assert SetOf(ids) == ChosenSet();
      hide AllOrNothing, SetOf, Valid, ChosenSet, Startable;
      r, gone := StartOrUndo(ids);
    }

    /** Starts every chosen plugin, all or nothing, unless that has been done. */
    method StartAll() returns (r: Result<(), StartError>, ghost rolledBack: set<string>)
      requires Valid()
      modifies this`started, proxy, hosts.Values
      ensures Valid() && started == r.Ok?
      ensures old(started) ==> r.Ok? && proxy.routes == old(proxy.routes) && Running() == old(Running())
      ensures !old(started) ==>
        AllOrNothing(ChosenSet(), r, rolledBack, old(Running()), Running(), old(proxy.routes), proxy.routes)
      ensures !old(started) && r.Ok? ==>
        && (forall id :: id in hosts ==>
             (id in Running() <==> id in old(Running()) || id !in enabled || enabled[id]))
        && (forall id :: id in hosts && (id !in enabled || enabled[id]) ==> id !in old(Running()))
      ensures !old(started) && r.Err? ==>
        && Running() == old(Running())
        && r.error.id in hosts && !Startable(r.error.id, old(Running()), old(proxy.routes))
    {
      rolledBack := {};
      if started {
        return Ok(()), {};
      }
      started := true;
      hide AllOrNothing, Valid, ChosenSet, Leq, Running, Startable;
      ghost var running, routes := Running(), proxy.routes;
      r, rolledBack := StartChosen();
      if r.Ok? {
        StartedMeans(r, rolledBack, running, Running(), routes, proxy.routes);
      } else {
        UndoneMeans(r, rolledBack, running, Running(), routes, proxy.routes);
      }
      started := r.Ok?;
    }

    method StopHosts() returns (ok: bool)
      requires Valid()
      modifies hosts.Values
      ensures Running() == {}
    {
      ok := true;
      var left := hosts.Keys;
      while left != {}
        invariant left <= hosts.Keys && Running() <= left
        decreases |left|
      {
        var id :| id in left;
        var stopped := StopHost(id);
        ok := ok && stopped;
        left := left - {id};
      }
    }

    method UnregisterAll()
      modifies proxy
      ensures proxy.routes == Without(old(proxy.routes), hosts.Keys)
    {
      var left := hosts.Keys;
      ghost var gone: set<string> := {};
      while left != {}
        invariant left <= hosts.Keys && gone == hosts.Keys - left
        invariant proxy.routes == Without(old(proxy.routes), gone)
        decreases |left|
      {
        var id :| id in left;
        WithoutTwice(old(proxy.routes), gone, {id});
        proxy.Unregister(id);
        left := left - {id};
        gone := gone + {id};
      }
    }

    /** Stops every plugin, chosen or not, and removes the routes of them all; a plugin that fails to
        stop cleanly keeps none of the others from stopping. */
    method StopAll() returns (ok: bool)
      requires Valid()
      modifies this`started, proxy, hosts.Values
      ensures Valid() && !started
      ensures Running() == {}
      ensures proxy.routes == Without(old(proxy.routes), hosts.Keys)
    {
      ok := StopHosts();
      UnregisterAll();
      started := false;
    }

    /** Starting and stopping again leaves a table without plugin routes as it was, whatever happened. */
    method StartThenStop()
      requires Valid() && !started
      requires forall route :: route in proxy.routes ==> !OwnedByAny(route, hosts.Keys)
      modifies this`started, proxy, hosts.Values
      ensures Valid() && !started && proxy.routes == old(proxy.routes)
      ensures Running() == {}
    {
      ghost var before := proxy.routes;
      ghost var all := hosts.Keys;
      var r, rolledBack := StartAll();
      if r.Ok? {
        UndoExtends(before, proxy.routes, ChosenSet());
        WithoutTwice(before, ChosenSet(), all);
        WithoutTwice(proxy.routes, ChosenSet(), all);
        assert ChosenSet() + all == all;
      } else {
        WithoutTwice(before, rolledBack, all);
        assert rolledBack + all == all;
      }
      NothingRemovedIff(before, all);
      var _ := StopAll();
    }

    function HealthOf(id: string): Health
      reads this`failures, this`enabled
    {
      Health(if id in failures then failures[id] else 0, id !in enabled || enabled[id])
    }

    /** A delivery to the plugin, if it is present and enabled. */
    method DispatchEvent(id: string) returns (ok: bool)
      requires Valid()
      modifies this`failures, this`enabled
      ensures id !in hosts || !old(Chosen(id)) ==> ok && failures == old(failures) && enabled == old(enabled)
      ensures old(Chosen(id)) && ok ==> failures == old(failures)[id := 0] && enabled == old(enabled)
      ensures old(Chosen(id)) && !ok ==>
        var count := if id in old(failures) then old(failures)[id] + 1 else 1;
        && failures == old(failures)[id := count]
        && enabled == if count >= 3 then old(enabled)[id := false] else old(enabled)
      ensures old(Chosen(id)) ==>
                && HealthOf(id) == Delivered(old(HealthOf(id)), ok)
                && failures == old(failures)[id := HealthOf(id).failures]
                && enabled - {id} == old(enabled) - {id}
    {
      if id !in hosts || (id in enabled && !enabled[id]) {
        return true;
      }
      ok := *;
      if ok {
        failures := failures[id := 0];
      } else {
        failures := failures[id := (if id in failures then failures[id] else 0) + 1];
        if failures[id] >= 3 {
          enabled := enabled[id := false];
        }
      }
    }

    /** Any number of deliveries: the plugin ends up switched off exactly when the condition below holds
        of their outcomes. */
    method DispatchEvents(id: string, n: nat) returns (outcomes: seq<bool>)
      requires Valid() && Chosen(id)
      modifies this`failures, this`enabled
      ensures |outcomes| == n && HealthOf(id) == AfterAll(old(HealthOf(id)), outcomes)
      ensures id !in old(failures) || old(failures)[id] == 0 ==>
        (id in enabled && !enabled[id] <==>
          exists i :: 0 <= i < n - 2 && !outcomes[i] && !outcomes[i + 1] && !outcomes[i + 2])
    {
      outcomes := [];
      for i := 0 to n
        invariant |outcomes| == i && HealthOf(id) == AfterAll(old(HealthOf(id)), outcomes)
      {
        var ok := DispatchEvent(id);
        AfterOneMore(old(HealthOf(id)), outcomes, ok);
        outcomes := outcomes + [ok];
      }
      DisabledByThree(outcomes);
    }
  }
}
