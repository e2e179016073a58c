/** The Ingress builder: flattening of public and private routes into rules, and the TLS host list. */
module IngressRules {
  import opened Wrappers
  import opened JsonTree
  import opened Specs

  datatype Path = Path(path: string, service: string, port: int)
  datatype Rule = Rule(host: string, paths: seq<Path>)

  function Routes(net: Spec): seq<GatewayRoute>
    requires net.NetworkingSpec?
  {
    net.publicRoutes + net.privateRoutes
  }

  function PathsOf(r: GatewayRoute): seq<string> {
    if r.paths == [] then ["/"] else r.paths
  }

  function HostsOf(r: GatewayRoute): seq<string> {
    if r.hostnames == [] then [""] else r.hostnames
  }

  function BackendPort(net: Spec): int
    requires net.NetworkingSpec?
  {
    if net.ports == [] then 80 else net.ports[0].port
  }

  function HttpPaths(paths: seq<string>, service: string, port: int): seq<Path> {
    seq(|paths|, i requires 0 <= i < |paths| => Path(paths[i], service, port))
  }

  function RouteRules(r: GatewayRoute, service: string, port: int): seq<Rule> {
    var hosts := HostsOf(r);
    seq(|hosts|, i requires 0 <= i < |hosts| => Rule(hosts[i], HttpPaths(PathsOf(r), service, port)))
  }

  function Flatten(routes: seq<GatewayRoute>, service: string, port: int): seq<Rule> {
    if routes == [] then []
    else Flatten(routes[..|routes| - 1], service, port) + RouteRules(routes[|routes| - 1], service, port)
  }

  lemma FlattenOneMore(routes: seq<GatewayRoute>, r: nat, service: string, port: int)
    requires r < |routes|
    ensures Flatten(routes[..r + 1], service, port) ==
              Flatten(routes[..r], service, port) + RouteRules(routes[r], service, port)
  {
    assert routes[..r + 1][..r] == routes[..r];
  }

  function Rules(net: Spec): seq<Rule>
    requires net.NetworkingSpec?
  {
    if Routes(net) == [] then [Rule("", [Path("/", net.targetRef.resource, 80)])]
    else Flatten(Routes(net), net.targetRef.resource, BackendPort(net))
  }

  function TlsHosts(rules: seq<Rule>): seq<string> {
    if rules == [] then []
    else
      var last := rules[|rules| - 1].host;
      TlsHosts(rules[..|rules| - 1]) + (if last != "" then [last] else [])
  }

  /** The two inner loops of the mutate function: one rule for each hostname, each with all the paths. */
  method BuildRouteRules(route: GatewayRoute, service: string, portNum: int) returns (rules: seq<Rule>)
    ensures rules == RouteRules(route, service, portNum)
    ensures |rules| == if route.hostnames == [] then 1 else |route.hostnames|
    ensures forall i: nat | i < |rules| :: RuleIs(rules[i], route, i, service, portNum)
  {
    var httpPaths := [];
    var paths := route.paths;
    if |paths| == 0 {
      paths := ["/"];
    }
    for p := 0 to |paths|
      invariant httpPaths == HttpPaths(paths[..p], service, portNum)
    {
      httpPaths := httpPaths + [Path(paths[p], service, portNum)];
    }
    assert paths[..|paths|] == PathsOf(route);
    var hostnames := route.hostnames;
    if |hostnames| == 0 {
      hostnames := [""];
    }
    rules := [];
    for h := 0 to |hostnames|
      invariant rules == RouteRules(route, service, portNum)[..h]
    {
      rules := rules + [Rule(hostnames[h], httpPaths)];
    }
    forall i: nat | i < |rules|
      ensures RuleIs(rules[i], route, i, service, portNum)
    {
      RouteRuleAt(route, service, portNum, i);
    }
  }

  /** The outer loop of the mutate function, and its fallback. */
  method BuildRules(net: Spec) returns (rules: seq<Rule>)
    requires net.NetworkingSpec?
    ensures rules == Rules(net)
  {
    rules := [];
    var allRoutes := [];
    allRoutes := allRoutes + net.publicRoutes;
    allRoutes := allRoutes + net.privateRoutes;
    assert allRoutes == Routes(net);
    if |allRoutes| == 0 {
      rules := rules + [Rule("", [Path("/", net.targetRef.resource, 80)])];
    } else {
      for r := 0 to |allRoutes|
        invariant rules == Flatten(allRoutes[..r], net.targetRef.resource, BackendPort(net))
      {
        var route := allRoutes[r];
        var portNum := 80;
        if |net.ports| > 0 {
          portNum := net.ports[0].port;
        }
        var more := BuildRouteRules(route, net.targetRef.resource, portNum);
        rules := rules + more;
        FlattenOneMore(allRoutes, r, net.targetRef.resource, portNum);
      }
      assert allRoutes[..|allRoutes|] == allRoutes;
    }
  }

  method BuildTlsHosts(rules: seq<Rule>) returns (hosts: seq<string>)
    ensures hosts == TlsHosts(rules)
  {
    hosts := [];
    for r := 0 to |rules|
      invariant hosts == TlsHosts(rules[..r])
    {
      assert rules[..r + 1][..r] == rules[..r];
      if rules[r].host != "" {
        hosts := hosts + [rules[r].host];
      }
    }
    assert rules[..|rules|] == rules;
  }

  predicate Serves(rules: seq<Rule>, host: string, path: string) {
    exists r, p :: r in rules && r.host == host && p in r.paths && p.path == path
  }

  /** The route lists the host and the path; no hostname stands for every host, no path for the root. */
  predicate Lists(r: GatewayRoute, host: string, path: string) {
    (host in r.hostnames || (r.hostnames == [] && host == "")) && (path in r.paths || (r.paths == [] && path == "/"))
  }

  predicate Contributes(routes: seq<GatewayRoute>, host: string, path: string) {
    exists r :: r in routes && Lists(r, host, path)
  }

  lemma RouteServes(r: GatewayRoute, service: string, port: int, host: string, path: string)
    ensures Serves(RouteRules(r, service, port), host, path) <==> Lists(r, host, path)
  {
    var rules := RouteRules(r, service, port);
    var paths := HttpPaths(PathsOf(r), service, port);
    assert forall i: nat :: i < |rules| ==> rules[i] == Rule(HostsOf(r)[i], paths);
    if host in HostsOf(r) && path in PathsOf(r) {
      var i :| 0 <= i < |HostsOf(r)| && HostsOf(r)[i] == host;
      var j :| 0 <= j < |PathsOf(r)| && PathsOf(r)[j] == path;
      assert rules[i] in rules && paths[j] in rules[i].paths;
    }
    forall rule, p | rule in rules && p in rule.paths
      ensures rule.host in HostsOf(r) && p.path in PathsOf(r)
    {
      var j :| 0 <= j < |paths| && paths[j] == p;
    }
  }

  /** With routes, a host and path are served exactly when some route contributes them, after defaults. */
  lemma {:induction false} FlattenServes(routes: seq<GatewayRoute>, service: string, port: int, host: string,
                                         path: string)
    ensures Serves(Flatten(routes, service, port), host, path) <==> Contributes(routes, host, path)
  {
    if routes != [] {
      var front, last := routes[..|routes| - 1], routes[|routes| - 1];
      var a, b := Flatten(front, service, port), RouteRules(last, service, port);
      FlattenServes(front, service, port, host, path);
      RouteServes(last, service, port, host, path);
      assert Serves(a + b, host, path) <==> Serves(a, host, path) || Serves(b, host, path);
      assert forall r :: r in routes <==> r in front || r == last;
      if Contributes(front, host, path) {
        var r :| r in front && Lists(r, host, path);
        assert r in routes;
      }
    }
  }

  lemma ServedIffContributed(net: Spec, host: string, path: string)
    requires net.NetworkingSpec? && Routes(net) != []
    ensures Serves(Rules(net), host, path) <==>
            Contributes(net.publicRoutes, host, path) || Contributes(net.privateRoutes, host, path)
  {
    FlattenServes(Routes(net), net.targetRef.resource, BackendPort(net), host, path);
    var all := Routes(net);
    if Contributes(net.publicRoutes, host, path) {
      var r :| r in net.publicRoutes && Lists(r, host, path);
      assert r in all;
    }
    if Contributes(net.privateRoutes, host, path) {
      var r :| r in net.privateRoutes && Lists(r, host, path);
      assert r in all;
    }
  }

  /** Flattening is a homomorphism, so every public rule precedes every private one. */
  lemma {:induction false} PublicFirst(public: seq<GatewayRoute>, private: seq<GatewayRoute>, service: string,
                                       port: int)
    ensures Flatten(public + private, service, port) ==
            Flatten(public, service, port) + Flatten(private, service, port)
  {
    if private == [] {
      assert public + private == public;
    } else {
      var front, last := private[..|private| - 1], RouteRules(private[|private| - 1], service, port);
      var all := public + private;
      assert all[..|all| - 1] == public + front;
      calc {
        Flatten(all, service, port);
        Flatten(public + front, service, port) + last;
        { PublicFirst(public, front, service, port); }
        (Flatten(public, service, port) + Flatten(front, service, port)) + last;
        Flatten(public, service, port) + (Flatten(front, service, port) + last);
      }
    }
  }

  function RuleCount(routes: seq<GatewayRoute>): nat {
    if routes == [] then 0
    else (if |routes[0].hostnames| > 1 then |routes[0].hostnames| else 1) + RuleCount(routes[1..])
  }

  /** One rule for each hostname of each route, and one for a route without hostnames. */
  lemma {:induction false} CountsRules(routes: seq<GatewayRoute>, service: string, port: int)
    ensures |Flatten(routes, service, port)| == RuleCount(routes)
  {
    if routes != [] {
      assert routes == routes[..1] + routes[1..];
      PublicFirst(routes[..1], routes[1..], service, port);
      CountsRules(routes[1..], service, port);
      assert routes[..1][..0] == [];
    }
  }

  /** The paths of a rule are those of its route, in listed order, each to the one backend. */
  predicate PathsAre(paths: seq<Path>, listed: seq<string>, service: string, port: int) {
    if listed == [] then paths == [Path("/", service, port)]
    else |paths| == |listed| && forall i | 0 <= i < |paths| :: paths[i] == Path(listed[i], service, port)
  }

  lemma RouteRuleAt(r: GatewayRoute, service: string, port: int, i: nat)
    requires i < |r.hostnames| || i == 0
    ensures i < |RouteRules(r, service, port)|
    ensures RuleIs(RouteRules(r, service, port)[i], r, i, service, port)
  {
    var paths := HttpPaths(PathsOf(r), service, port);
    assert RouteRules(r, service, port)[i] == Rule(HostsOf(r)[i], paths);
    forall k | 0 <= k < |paths|
      ensures paths[k] == Path(PathsOf(r)[k], service, port)
    {
    }
    assert |paths| == |PathsOf(r)|;
  }

  lemma FlattenBehind(routes: seq<GatewayRoute>, service: string, port: int, n: nat, i: nat)
    requires n <= |routes| && i < |Flatten(routes[n..], service, port)|
    ensures RuleCount(routes[..n]) + i < |Flatten(routes, service, port)|
    ensures Flatten(routes, service, port)[RuleCount(routes[..n]) + i] == Flatten(routes[n..], service, port)[i]
  {
    assert routes == routes[..n] + routes[n..];
    PublicFirst(routes[..n], routes[n..], service, port);
    CountsRules(routes[..n], service, port);
  }

  /** The i-th rule of the n-th route stands behind all rules of the routes before it. */
  lemma FlattenAt(routes: seq<GatewayRoute>, service: string, port: int, n: nat, i: nat)
    requires n < |routes| && (i < |routes[n].hostnames| || i == 0)
    ensures i < |RouteRules(routes[n], service, port)|
    ensures RuleCount(routes[..n]) + i < |Flatten(routes, service, port)|
    ensures Flatten(routes, service, port)[RuleCount(routes[..n]) + i] == RouteRules(routes[n], service, port)[i]
  {
    RouteRuleAt(routes[n], service, port, i);
    FlattenFirst(routes[n..], service, port);
    FlattenBehind(routes, service, port, n, i);
  }

  /** The rule of a route for its i-th hostname, or for every host. */
  predicate RuleIs(rule: Rule, r: GatewayRoute, i: nat, service: string, port: int)
    requires i < |r.hostnames| || i == 0
  {
    rule.host == (if r.hostnames == [] then "" else r.hostnames[i]) && PathsAre(rule.paths, r.paths, service, port)
  }

  /**
   The rules of a Networking, place by place: those of its public routes and then of its private
   ones, each with the hostname, the paths and the first Service port.
   */
  lemma RulesAt(net: Spec, n: nat, i: nat)
    requires net.NetworkingSpec? && n < |net.publicRoutes + net.privateRoutes|
    requires i < |(net.publicRoutes + net.privateRoutes)[n].hostnames| || i == 0
    ensures var routes := net.publicRoutes + net.privateRoutes;
            |Rules(net)| == RuleCount(routes) && RuleCount(routes[..n]) + i < |Rules(net)| &&
            RuleIs(Rules(net)[RuleCount(routes[..n]) + i], routes[n], i, net.targetRef.resource,
                   if net.ports == [] then 80 else net.ports[0].port)
  {
    var routes, port := Routes(net), BackendPort(net);
    CountsRules(routes, net.targetRef.resource, port);
    FlattenAt(routes, net.targetRef.resource, port, n, i);
    RouteRuleAt(routes[n], net.targetRef.resource, port, i);
  }

  /** Without routes there is one rule: every path of every host, to port 80 of the target. */
  lemma DefaultRule(net: Spec)
    requires net.NetworkingSpec? && net.publicRoutes == net.privateRoutes == []
    ensures |Rules(net)| == 1 && RuleIs(Rules(net)[0], GatewayRoute([], []), 0, net.targetRef.resource, 80)
  {
  }

  function Hostnames(routes: seq<GatewayRoute>): seq<string> {
    if routes == [] then [] else routes[0].hostnames + Hostnames(routes[1..])
  }

  function NonEmpty(hosts: seq<string>): seq<string> {
    if hosts == [] then [] else (if hosts[0] != "" then [hosts[0]] else []) + NonEmpty(hosts[1..])
  }

  lemma {:induction false} TlsHostsAppend(a: seq<Rule>, b: seq<Rule>)
    ensures TlsHosts(a + b) == TlsHosts(a) + TlsHosts(b)
  {
    if b == [] {
      assert a + b == a;
    } else {
      var front := b[..|b| - 1];
      TlsHostsAppend(a, front);
      assert (a + b)[..|a + b| - 1] == a + front;
    }
  }

  lemma {:induction false} NonEmptyAppend(a: seq<string>, b: seq<string>)
    ensures NonEmpty(a + b) == NonEmpty(a) + NonEmpty(b)
  {
    if a == [] {
      assert a + b == b;
    } else {
      var head := if a[0] != "" then [a[0]] else [];
      assert (a + b)[1..] == a[1..] + b;
      calc {
        NonEmpty(a + b);
        head + NonEmpty(a[1..] + b);
        { NonEmptyAppend(a[1..], b); }
        head + (NonEmpty(a[1..]) + NonEmpty(b));
        (head + NonEmpty(a[1..])) + NonEmpty(b);
        NonEmpty(a) + NonEmpty(b);
      }
    }
  }

  lemma {:induction false} TlsHostsOfHosts(rules: seq<Rule>, hosts: seq<string>)
    requires |rules| == |hosts| && forall i: nat :: i < |rules| ==> rules[i].host == hosts[i]
    ensures TlsHosts(rules) == NonEmpty(hosts)
  {
    if rules != [] {
      var n := |rules| - 1;
      TlsHostsOfHosts(rules[..n], hosts[..n]);
      assert hosts == hosts[..n] + [hosts[n]];
      NonEmptyAppend(hosts[..n], [hosts[n]]);
      assert [hosts[n]][1..] == [];
    }
  }

  /** The TLS host list is exactly the non-empty hostnames of the routes, in order, repetitions kept. */
  lemma {:induction false} TlsHostsExact(routes: seq<GatewayRoute>, service: string, port: int)
    ensures TlsHosts(Flatten(routes, service, port)) == NonEmpty(Hostnames(routes))
  {
    if routes != [] {
      var mine, rest := RouteRules(routes[0], service, port), Flatten(routes[1..], service, port);
      calc {
        TlsHosts(Flatten(routes, service, port));
        { FlattenFirst(routes, service, port); }
        TlsHosts(mine + rest);
        { TlsHostsAppend(mine, rest); }
        TlsHosts(mine) + TlsHosts(rest);
        { TlsHostsOfRoute(routes[0], service, port); TlsHostsExact(routes[1..], service, port); }
        NonEmpty(routes[0].hostnames) + NonEmpty(Hostnames(routes[1..]));
        { NonEmptyAppend(routes[0].hostnames, Hostnames(routes[1..])); }
        NonEmpty(Hostnames(routes));
      }
    }
  }

  lemma FlattenFirst(routes: seq<GatewayRoute>, service: string, port: int)
    requires routes != []
    ensures Flatten(routes, service, port) == RouteRules(routes[0], service, port) + Flatten(routes[1..], service, port)
  {
    assert routes == routes[..1] + routes[1..];
    PublicFirst(routes[..1], routes[1..], service, port);
    FlattenOneMore(routes, 0, service, port);
    assert routes[..0] == [];
  }

  lemma TlsHostsOfRoute(r: GatewayRoute, service: string, port: int)
    ensures TlsHosts(RouteRules(r, service, port)) == NonEmpty(r.hostnames)
  {
    TlsHostsOfHosts(RouteRules(r, service, port), HostsOf(r));
    assert r.hostnames == [] ==> NonEmpty([""]) == [];
  }

  /** Every backend is the target under one port. */
  lemma {:induction false} FlattenBackends(routes: seq<GatewayRoute>, service: string, port: int, r: Rule, p: Path)
    requires r in Flatten(routes, service, port) && p in r.paths
    ensures p.service == service && p.port == port
  {
    var front, last := routes[..|routes| - 1], routes[|routes| - 1];
    if r in Flatten(front, service, port) {
      FlattenBackends(front, service, port, r, p);
    } else {
      var rules, paths := RouteRules(last, service, port), HttpPaths(PathsOf(last), service, port);
      assert forall i: nat :: i < |rules| ==> rules[i].paths == paths;
      assert r in rules;
    }
  }

  predicate HasPort(net: Spec, port: int)
    requires net.NetworkingSpec?
  {
    exists sp :: sp in net.ports && sp.port == port
  }

  /**
   Every backend port is a port of the Service exactly when there is a route, or the Service
   happens to have port 80: the fallback rule of a TLS-only Ingress ignores the ports.
   */
  lemma BackendPortsExistIff(net: Spec)
    requires net.NetworkingSpec? && net.ports != []
    ensures (forall r, p :: r in Rules(net) && p in r.paths ==> HasPort(net, p.port)) <==>
            Routes(net) != [] || HasPort(net, 80)
  {
    if Routes(net) != [] {
      assert net.ports[0] in net.ports;
      forall r, p | r in Rules(net) && p in r.paths
        ensures HasPort(net, p.port)
      {
        FlattenBackends(Routes(net), net.targetRef.resource, BackendPort(net), r, p);
      }
    } else {
      var only := Rules(net)[0];
      assert only in Rules(net) && only.paths[0] in only.paths;
    }
  }

  /** For example, a TLS secret and port 8080 without routes: the one backend port, 80, is not the Service's. */
  lemma TlsOnlyMissesPort()
    ensures var net := NetworkingSpec(ResourceRef("web", "Deployment", "apps/v1", "prod"), [],
                                      [ServicePort(8080, map[])], "", [], [], "web-tls");
            Rules(net) == [Rule("", [Path("/", "web", 80)])] && !HasPort(net, 80)
  {
  }

  // ----- Marshalling

  function OmitEmpty(k: string, v: string): map<string, Json> {
    if v == "" then map[] else map[k := Str(v)]
  }

  function EncodePath(p: Path): Json {
    Obj(OmitEmpty("path", p.path) + map[
      "pathType" := Str("Prefix"),
      "backend" := Obj(map["service" := Obj(map[
        "name" := Str(p.service),
        "port" := Obj(map["number" := Num(p.port)])])])])
  }

  function EncodeRule(r: Rule): Json {
    Obj(OmitEmpty("host", r.host) + map[
      "http" := Obj(map["paths" := Arr(seq(|r.paths|, i requires 0 <= i < |r.paths| => EncodePath(r.paths[i])))])])
  }

  function EncodeRules(rules: seq<Rule>): Json {
    Arr(seq(|rules|, i requires 0 <= i < |rules| => EncodeRule(rules[i])))
  }

  function EncodeTls(hosts: seq<string>, secretName: string): Json {
    Arr([Obj((if hosts == [] then map[]
              else map["hosts" := Arr(seq(|hosts|, i requires 0 <= i < |hosts| => Str(hosts[i])))])
             + OmitEmpty("secretName", secretName))])
  }

  // ----- Marshalled rules

  /** The text of an optional field; an empty one is omitted. */
  function Text(v: string): Json {
    if v == "" then Null else Str(v)
  }

  function ItemsOf(j: Json): seq<Json> {
    if j.Arr? then j.items else []
  }

  /** `p` is a path of `rule`. */
  predicate PathIn(rule: Json, p: Json) {
    p in ItemsOf(Member(Member(rule, "http"), "paths"))
  }

  function BackendService(p: Json): Json {
    Member(Member(Member(p, "backend"), "service"), "name")
  }

  function BackendNumber(p: Json): Json {
    Member(Member(Member(Member(p, "backend"), "service"), "port"), "number")
  }

  lemma PathFields(p: Path)
    ensures var j := EncodePath(p);
            Member(j, "path") == Text(p.path) && Member(j, "pathType") == Str("Prefix") &&
            BackendService(j) == Str(p.service) && BackendNumber(j) == Num(p.port)
  {
    var service := Member(Member(EncodePath(p), "backend"), "service");
    assert service.fields["name"] == Str(p.service);
  }

  lemma RuleFields(r: Rule, p: Json)
    ensures Member(EncodeRule(r), "host") == Text(r.host)
    ensures PathIn(EncodeRule(r), p) <==> exists q :: q in r.paths && p == EncodePath(q)
  {
    var http := Member(EncodeRule(r), "http");
    assert http.Obj? && "paths" in http.fields;
    var items := ItemsOf(Member(http, "paths"));
    assert |items| == |r.paths| && forall i: nat :: i < |r.paths| ==> items[i] == EncodePath(r.paths[i]);
    if q :| q in r.paths && p == EncodePath(q) {
      var i :| 0 <= i < |r.paths| && r.paths[i] == q;
      assert items[i] == p;
    }
  }

  predicate HasPath(rule: Json, path: string) {
    exists p :: p in ItemsOf(Member(Member(rule, "http"), "paths")) && Member(p, "path") == Text(path)
  }

  /** A marshalled rule list serves a host and a path. */
  predicate StoredServes(rules: Json, host: string, path: string) {
    exists r :: r in ItemsOf(rules) && Member(r, "host") == Text(host) && HasPath(r, path)
  }

  lemma RuleHasPath(r: Rule, path: string)
    ensures HasPath(EncodeRule(r), path) <==> exists q :: q in r.paths && q.path == path
  {
    if q :| q in r.paths && q.path == path {
      RuleFields(r, EncodePath(q));
      PathFields(q);
      assert PathIn(EncodeRule(r), EncodePath(q));
    }
    if p :| PathIn(EncodeRule(r), p) && Member(p, "path") == Text(path) {
      RuleFields(r, p);
      var q :| q in r.paths && p == EncodePath(q);
      PathFields(q);
    }
  }

  lemma RuleStored(rules: seq<Rule>, j: Json)
    ensures j in ItemsOf(EncodeRules(rules)) <==> exists r :: r in rules && j == EncodeRule(r)
  {
    var items := ItemsOf(EncodeRules(rules));
    assert forall i: nat :: i < |rules| ==> items[i] == EncodeRule(rules[i]);
    if r :| r in rules && j == EncodeRule(r) {
      var i :| 0 <= i < |rules| && rules[i] == r;
      assert items[i] == j;
    }
  }

  /** A stored path item, member by member. */
  predicate PathItemIs(j: Json, path: string, service: string, port: int) {
    j.Obj? && j.fields.Keys <= {"path", "pathType", "backend"} &&
    Get(j.fields, "path") == (if path == "" then None else Some(Str(path))) &&
    Get(j.fields, "pathType") == Some(Str("Prefix")) &&
    Get(j.fields, "backend") ==
      Some(Obj(map["service" := Obj(map["name" := Str(service), "port" := Obj(map["number" := Num(port)])])]))
  }

  /** A stored rule of a route: its host, and one item for each path in listed order. */
  predicate RuleItemIs(j: Json, host: string, paths: seq<string>, service: string, port: int) {
    j.Obj? && j.fields.Keys == (if host == "" then {"http"} else {"host", "http"}) &&
    (host != "" ==> j.fields["host"] == Str(host)) &&
    j.fields["http"].Obj? && j.fields["http"].fields.Keys == {"paths"} &&
    var items := j.fields["http"].fields["paths"];
    items.Arr? &&
    if paths == [] then |items.items| == 1 && PathItemIs(items.items[0], "/", service, port)
    else |items.items| == |paths| &&
         forall i | 0 <= i < |paths| :: PathItemIs(items.items[i], paths[i], service, port)
  }

  lemma PathMarshalled(path: string, service: string, port: int)
    ensures PathItemIs(EncodePath(Path(path, service, port)), path, service, port)
  {
  }

  lemma RuleMarshalled(r: Rule, paths: seq<string>, service: string, port: int)
    requires PathsAre(r.paths, paths, service, port)
    ensures RuleItemIs(EncodeRule(r), r.host, paths, service, port)
  {
    PathMarshalled("/", service, port);
    forall i | 0 <= i < |paths|
      ensures PathItemIs(EncodePath(r.paths[i]), paths[i], service, port)
    {
      PathMarshalled(paths[i], service, port);
    }
  }

  /** The stored TLS entry names the secret and the hosts; without a secret there is none. */
  predicate TlsIs(tls: Option<Json>, hosts: seq<string>, secretName: string) {
    if secretName == "" then tls.None?
    else
      tls.Some? && tls.value.Arr? && |tls.value.items| == 1 && tls.value.items[0].Obj? &&
      var m := tls.value.items[0].fields;
      m.Keys == (if hosts == [] then {"secretName"} else {"hosts", "secretName"}) &&
      m["secretName"] == Str(secretName) &&
      (hosts != [] ==>
         m["hosts"].Arr? && |m["hosts"].items| == |hosts| &&
         forall i | 0 <= i < |hosts| :: m["hosts"].items[i] == Str(hosts[i]))
  }

  lemma TlsMarshalled(hosts: seq<string>, secretName: string)
    requires secretName != ""
    ensures TlsIs(Some(EncodeTls(hosts, secretName)), hosts, secretName)
  {
  }

  /** Marshalling keeps what is served: no host or path is lost, and none is added. */
  lemma StoredServesIff(rules: seq<Rule>, host: string, path: string)
    ensures StoredServes(EncodeRules(rules), host, path) <==> Serves(rules, host, path)
  {
    if r, p :| r in rules && r.host == host && p in r.paths && p.path == path {
      RuleStored(rules, EncodeRule(r));
      RuleFields(r, Null);
      RuleHasPath(r, path);
    }
    if j :| j in ItemsOf(EncodeRules(rules)) && Member(j, "host") == Text(host) && HasPath(j, path) {
      RuleStored(rules, j);
      var r :| r in rules && j == EncodeRule(r);
      RuleFields(r, Null);
      RuleHasPath(r, path);
    }
  }
}
