/**
  sgc_launch/sgc_swarm.py: the topology of a swarm and the routing requests by which every machine sets up its ends
  of the connections of a service.

  The walks of all machines together set up each end of each edge that is configured exactly once.
 */
module SwarmTopology {
  import opened Wrappers

  /** The topology as the configuration file gives it: a name, or a mapping from one name to its children. */
  datatype Config = Name(text: string) | Mapping(key: string, below: seq<Config>)

  datatype Tree = Node(address: string, children: seq<Tree>)

  datatype Edge = Edge(parent: string, child: string)

  datatype Role = Source | Destination
  datatype Kind = Request | Response

  /** A routing request; its URLs are a hash of sender, receiver, service and connection type. */
  datatype RoutingRequest = RoutingRequest(role: Role, sender: string, receiver: string, service: string, kind: Kind)

  /** `build_tree`. */
  function BuildTree(c: Config): Tree {
    if c.Name? then Node(c.text, []) else Node(c.key, BuildTrees(c.below))
  }

  function BuildTrees(cs: seq<Config>): (r: seq<Tree>)
    ensures |r| == |cs|
  {
    if |cs| == 0 then [] else [BuildTree(cs[0])] + BuildTrees(cs[1..])
  }

  // ----- Edges and addresses, in the order of the recursion -----

  function Edges(t: Tree): seq<Edge>
    decreases t
  {
    EdgesBelow(t.address, t.children)
  }

  function EdgesBelow(parent: string, children: seq<Tree>): seq<Edge>
    decreases children
  {
    if |children| == 0 then []
    else [Edge(parent, children[0].address)] + Edges(children[0]) + EdgesBelow(parent, children[1..])
  }

  function Addresses(t: Tree): seq<string> {
    [t.address] + AddressesOf(t.children)
  }

  function AddressesOf(ts: seq<Tree>): seq<string> {
    if |ts| == 0 then [] else Addresses(ts[0]) + AddressesOf(ts[1..])
  }

  function ConfigAddresses(c: Config): seq<string> {
    if c.Name? then [c.text] else [c.key] + ConfigAddressesOf(c.below)
  }

  function ConfigAddressesOf(cs: seq<Config>): seq<string> {
    if |cs| == 0 then [] else ConfigAddresses(cs[0]) + ConfigAddressesOf(cs[1..])
  }

  /** The tree has the names of the configuration, in order. */
  lemma {:induction false} TreeHasTheNames(c: Config)
    ensures Addresses(BuildTree(c)) == ConfigAddresses(c)
  {
    if c.Mapping? {
      TreesHaveTheNames(c.below);
    } else {
      assert AddressesOf([]) == [];
    }
  }

  lemma {:induction false} TreesHaveTheNames(cs: seq<Config>)
    ensures AddressesOf(BuildTrees(cs)) == ConfigAddressesOf(cs)
  {
    if |cs| > 0 {
      TreeHasTheNames(cs[0]);
      TreesHaveTheNames(cs[1..]);
      assert BuildTrees(cs)[1..] == BuildTrees(cs[1..]);
    }
  }

  function NameOf(c: Config): string {
    if c.Name? then c.text else c.key
  }

  /** The edges that a configuration describes: from the key of each mapping to the name of everything right below. */
  function ConfigEdges(c: Config): seq<Edge>
    decreases c
  {
    if c.Name? then [] else ConfigEdgesBelow(c.key, c.below)
  }

  function ConfigEdgesBelow(parent: string, cs: seq<Config>): seq<Edge>
    decreases cs
  {
    if |cs| == 0 then []
    else [Edge(parent, NameOf(cs[0]))] + ConfigEdges(cs[0]) + ConfigEdgesBelow(parent, cs[1..])
  }

  /** The tree has exactly the edges of the configuration, in the order in which it lists them. */
  lemma {:induction false} TreeHasTheEdges(c: Config)
    ensures BuildTree(c).address == NameOf(c) && Edges(BuildTree(c)) == ConfigEdges(c)
    decreases c
  {
    if c.Mapping? {
      TreesHaveTheEdges(c.key, c.below);
    }
  }

  lemma {:induction false} TreesHaveTheEdges(parent: string, cs: seq<Config>)
    ensures EdgesBelow(parent, BuildTrees(cs)) == ConfigEdgesBelow(parent, cs)
    decreases cs
  {
    if |cs| > 0 {
      TreeHasTheEdges(cs[0]);
      TreesHaveTheEdges(parent, cs[1..]);
      assert BuildTrees(cs)[1..] == BuildTrees(cs[1..]);
    }
  }

  // ----- The requests of one machine -----

  function KindText(k: Kind): string {
    if k == Request then "request" else "response"
  }

  /** A request about an edge: requests travel from parent to child and responses back. */
  function About(e: Edge, role: Role, kind: Kind, service: string): RoutingRequest {
    var session := e.parent + e.child;
    if kind == Request
    then RoutingRequest(role, "request" + e.parent + session, "request" + e.child + session, service, kind)
    else RoutingRequest(role, "response" + e.child + session, "response" + e.parent + session, service, kind)
  }

  function At(me: string, e: Edge, service: string): seq<RoutingRequest> {
    (if e.parent == me then [About(e, Source, Request, service), About(e, Destination, Response, service)] else []) +
    if e.child == me then [About(e, Destination, Request, service), About(e, Source, Response, service)] else []
  }

  function AtAll(me: string, es: seq<Edge>, service: string): seq<RoutingRequest> {
    if |es| == 0 then [] else At(me, es[0], service) + AtAll(me, es[1..], service)
  }

  /** What `construct_tree_by_sending_request_service` sends on machine `me`. */
  function Requests(me: string, t: Tree, service: string): seq<RoutingRequest>
    decreases t
  {
    RequestsBelow(me, t.address, t.children, service)
  }

  function RequestsBelow(me: string, parent: string, children: seq<Tree>, service: string): seq<RoutingRequest>
    decreases children
  {
    if |children| == 0 then []
    else At(me, Edge(parent, children[0].address), service) + Requests(me, children[0], service) +
         RequestsBelow(me, parent, children[1..], service)
  }

  /** The machine that is to set up one end of an edge. */
  function Issuer(e: Edge, role: Role, kind: Kind): string {
    if (role == Source) == (kind == Request) then e.parent else e.child
  }

  /** The four requests about an edge, as its two ends send them. */
  lemma EdgeRequests(parent: string, child: string, service: string)
    requires parent != child
    ensures var e, session := Edge(parent, child), parent + child;
            var down, downEnd := "request" + parent + session, "request" + child + session;
            var up, upEnd := "response" + child + session, "response" + parent + session;
            && At(parent, e, service) == [RoutingRequest(Source, down, downEnd, service, Request),
                                          RoutingRequest(Destination, up, upEnd, service, Response)]
            && At(child, e, service) == [RoutingRequest(Destination, down, downEnd, service, Request),
                                         RoutingRequest(Source, up, upEnd, service, Response)]
  {
  }

  // ----- A request tells its edge -----

  lemma SplitEnds(a: string, b: string, c: string, d: string)
    requires |a| == |c| && a + b == c + d
    ensures a == c && b == d
  {
    assert (a + b)[..|a|] == a && (c + d)[..|a|] == c;
    assert (a + b)[|a|..] == b && (c + d)[|a|..] == d;
  }

  /** The lengths of both URLs give the lengths of both addresses, so the URLs give the addresses. */
  lemma EndsAreTold(prefix: string, e: Edge, f: Edge)
    requires prefix + e.parent + (e.parent + e.child) == prefix + f.parent + (f.parent + f.child)
    requires prefix + e.child + (e.parent + e.child) == prefix + f.child + (f.parent + f.child)
    ensures e == f
  {
    var n, c, m, d := |e.parent|, |e.child|, |f.parent|, |f.child|;
    assert |prefix + e.parent + (e.parent + e.child)| == |prefix| + 2 * n + c;
    assert |prefix + f.parent + (f.parent + f.child)| == |prefix| + 2 * m + d;
    assert |prefix + e.child + (e.parent + e.child)| == |prefix| + 2 * c + n;
    assert |prefix + f.child + (f.parent + f.child)| == |prefix| + 2 * d + m;
    assert n == m && c == d;
    SplitEnds(prefix + e.parent, e.parent + e.child, prefix + f.parent, f.parent + f.child);
    SplitEnds(e.parent, e.child, f.parent, f.child);
  }

  lemma AboutIsInjective(e: Edge, role: Role, kind: Kind, f: Edge, role': Role, kind': Kind, service: string)
    requires About(e, role, kind, service) == About(f, role', kind', service)
    ensures e == f && role == role' && kind == kind'
  {
    EndsAreTold(KindText(kind), e, f);
  }

  // ----- All machines together -----

  lemma AtAllOfNext(me: string, es: seq<Edge>, fs: seq<Edge>, service: string)
    requires |es| > 0
    ensures AtAll(me, es + fs, service) == At(me, es[0], service) + AtAll(me, es[1..] + fs, service)
  {
    hide At;
    assert (es + fs)[0] == es[0] && (es + fs)[1..] == es[1..] + fs;
  }

  lemma {:induction false} AtAllConcat(me: string, es: seq<Edge>, fs: seq<Edge>, service: string)
    ensures AtAll(me, es + fs, service) == AtAll(me, es, service) + AtAll(me, fs, service)
  {
    if |es| == 0 {
      assert es + fs == fs;
    } else {
      AtAllConcat(me, es[1..], fs, service);
      AtAllOfNext(me, es, fs, service);
      ThreeParts(At(me, es[0], service), AtAll(me, es[1..], service), AtAll(me, fs, service));
      hide At;
    }
  }

  lemma {:induction false} RequestsFollowEdges(me: string, t: Tree, service: string)
    ensures Requests(me, t, service) == AtAll(me, Edges(t), service)
    decreases t
  {
    RequestsBelowFollowEdges(me, t.address, t.children, service);
  }

  lemma {:induction false} RequestsBelowFollowEdges(me: string, parent: string, children: seq<Tree>, service: string)
    ensures RequestsBelow(me, parent, children, service) == AtAll(me, EdgesBelow(parent, children), service)
    decreases children
  {
    if |children| > 0 {
      var e := Edge(parent, children[0].address);
      RequestsFollowEdges(me, children[0], service);
      RequestsBelowFollowEdges(me, parent, children[1..], service);
      AtAllConcat(me, [e], Edges(children[0]), service);
      AtAllConcat(me, [e] + Edges(children[0]), EdgesBelow(parent, children[1..]), service);
      assert AtAll(me, [e], service) == At(me, e, service);
    }
  }

  function Children(es: seq<Edge>): (r: seq<string>)
    ensures |r| == |es|
  {
    seq(|es|, i requires 0 <= i < |es| => es[i].child)
  }

  /** Every node but the root is the child of exactly one edge. */
  lemma {:induction false} EdgesReachAddresses(t: Tree)
    ensures Addresses(t) == [t.address] + Children(Edges(t))
    decreases t
  {
    EdgesBelowReachAddresses(t.address, t.children);
  }

  lemma {:induction false} EdgesBelowReachAddresses(parent: string, children: seq<Tree>)
    ensures AddressesOf(children) == Children(EdgesBelow(parent, children))
    decreases children
  {
    if |children| > 0 {
      EdgesReachAddresses(children[0]);
      EdgesBelowReachAddresses(parent, children[1..]);
    }
  }

  lemma DistinctEdges(t: Tree)
    requires NoDuplicates(Addresses(t))
    ensures NoDuplicates(Edges(t))
  {
    EdgesReachAddresses(t);
    var es, all := Edges(t), Addresses(t);
    forall i, j | 0 <= i < j < |es| ensures es[i] != es[j] {
      assert all[i + 1] == es[i].child && all[j + 1] == es[j].child;
    }
  }

  lemma CountAt(me: string, f: Edge, e: Edge, role: Role, kind: Kind, service: string)
    ensures multiset(At(me, f, service))[About(e, role, kind, service)] ==
            if e == f && me == Issuer(e, role, kind) then 1 else 0
  {
    var r := About(e, role, kind, service);
    if e != f {
      forall role', kind' ensures About(f, role', kind', service) != r {
        if About(f, role', kind', service) == r {
          AboutIsInjective(f, role', kind', e, role, kind, service);
        }
      }
      hide About;
      assert r !in At(me, f, service);
    } else {
      RolesAndKindsDiffer(e, service);
      hide About;
    }
  }

  lemma RolesAndKindsDiffer(e: Edge, service: string)
    ensures About(e, Source, Request, service) != About(e, Destination, Request, service)
    ensures About(e, Source, Response, service) != About(e, Destination, Response, service)
    ensures forall role, role' :: About(e, role, Request, service) != About(e, role', Response, service)
  {
  }

  lemma CountConcat<A>(s: seq<A>, t: seq<A>, a: A)
    ensures multiset(s + t)[a] == multiset(s)[a] + multiset(t)[a]
  {
  }

  lemma HeadIsNew<A>(s: seq<A>, a: A)
    requires |s| > 0 && NoDuplicates(s)
    ensures NoDuplicates(s[1..]) && s[0] !in s[1..]
    ensures a in s <==> a == s[0] || a in s[1..]
  {
    assert s == [s[0]] + s[1..];
  }

  /** How often one machine sends a request about an edge when the list visits the edge at most once. */
  lemma {:induction false} CountInEdges(me: string, es: seq<Edge>, e: Edge, role: Role, kind: Kind, service: string)
    requires NoDuplicates(es)
    ensures multiset(AtAll(me, es, service))[About(e, role, kind, service)] ==
            if e in es && me == Issuer(e, role, kind) then 1 else 0
  {
    if |es| > 0 {
      HeadIsNew(es, e);
      CountInEdges(me, es[1..], e, role, kind, service);
      CountAt(me, es[0], e, role, kind, service);
      CountConcat(At(me, es[0], service), AtAll(me, es[1..], service), About(e, role, kind, service));
      hide At, About, Issuer, NoDuplicates;
    }
  }

  /** For every topology with distinct addresses, each of the four requests about an edge is sent by exactly one
      machine, the end it is meant for, and there exactly once. */
  lemma EachEndIsSetUpOnce(me: string, t: Tree, e: Edge, role: Role, kind: Kind, service: string)
    requires NoDuplicates(Addresses(t))
    ensures multiset(Requests(me, t, service))[About(e, role, kind, service)] ==
            if e in Edges(t) && me == Issuer(e, role, kind) then 1 else 0
  {
    DistinctEdges(t);
    RequestsFollowEdges(me, t, service);
    CountInEdges(me, Edges(t), e, role, kind, service);
  }

  /** The same from the configuration: if its names are distinct, machine `me` sends a request about an edge once if the
      configuration has that edge and `me` is the end that the request is meant for, and never otherwise. */
  lemma ConfigurationIsSetUp(me: string, c: Config, e: Edge, role: Role, kind: Kind, service: string)
    requires NoDuplicates(ConfigAddresses(c))
    ensures multiset(Requests(me, BuildTree(c), service))[About(e, role, kind, service)] ==
            if e in ConfigEdges(c) &&
               me == (if (role == Source) == (kind == Request) then e.parent else e.child) then 1 else 0
  {
    TreeHasTheNames(c);
    TreeHasTheEdges(c);
    EachEndIsSetUpOnce(me, BuildTree(c), e, role, kind, service);
  }

  lemma {:induction false} OnlyAboutEdges(me: string, es: seq<Edge>, service: string, r: RoutingRequest)
    requires r in AtAll(me, es, service)
    ensures exists e, role, kind :: e in es && r == About(e, role, kind, service) && me == Issuer(e, role, kind)
  {
    if r in At(me, es[0], service) {
      assert es[0] in es;
      AtIsAbout(me, es[0], service, r);
    } else {
      OnlyAboutEdges(me, es[1..], service, r);
    }
  }

  lemma AtIsAbout(me: string, e: Edge, service: string, r: RoutingRequest)
    requires r in At(me, e, service)
    ensures exists role, kind :: r == About(e, role, kind, service) && me == Issuer(e, role, kind)
  {
    if r == About(e, Source, Request, service) && e.parent == me {
      assert Issuer(e, Source, Request) == me;
    } else if r == About(e, Destination, Response, service) && e.parent == me {
      assert Issuer(e, Destination, Response) == me;
    } else if r == About(e, Destination, Request, service) {
      assert Issuer(e, Destination, Request) == me;
    } else {
      assert Issuer(e, Source, Response) == me;
    }
  }

  /** Whatever a machine sends is about an edge at whose end it is: no machine sends requests for other machines. */
  lemma NothingElseIsSent(me: string, t: Tree, service: string, r: RoutingRequest)
    requires r in Requests(me, t, service)
    ensures exists e, role, kind :: e in Edges(t) && r == About(e, role, kind, service) && me == Issuer(e, role, kind)
  {
    RequestsFollowEdges(me, t, service);
    OnlyAboutEdges(me, Edges(t), service, r);
  }

  lemma PartsAreDistinct<A>(p: A, xs: seq<A>, ys: seq<A>)
    requires NoDuplicates([p] + (xs + ys))
    ensures NoDuplicates(xs) && NoDuplicates([p] + ys) && p !in xs
  {
    var all := [p] + (xs + ys);
    assert forall i :: 0 <= i < |xs| ==> all[i + 1] == xs[i];
    assert forall i :: 0 <= i < |ys| ==> all[i + 1 + |xs|] == ys[i];
    assert all[0] == p;
  }

  lemma {:induction false} EndsDiffer(t: Tree, e: Edge)
    requires NoDuplicates(Addresses(t)) && e in Edges(t)
    ensures e.parent != e.child
    decreases t
  {
    EndsDifferBelow(t.address, t.children, e);
  }

  lemma {:induction false} EndsDifferBelow(parent: string, children: seq<Tree>, e: Edge)
    requires NoDuplicates([parent] + AddressesOf(children)) && e in EdgesBelow(parent, children)
    ensures e.parent != e.child
    decreases children
  {
    PartsAreDistinct(parent, Addresses(children[0]), AddressesOf(children[1..]));
    assert Addresses(children[0])[0] == children[0].address;
    if e in Edges(children[0]) {
      EndsDiffer(children[0], e);
    } else if e in EdgesBelow(parent, children[1..]) {
      EndsDifferBelow(parent, children[1..], e);
    }
  }

  /** Each source at one end of an edge is matched by one destination with the same URLs at the other end. */
  lemma SourcesMeetDestinations(t: Tree, e: Edge, kind: Kind, service: string)
    requires NoDuplicates(Addresses(t)) && e in Edges(t)
    ensures var from, to := Issuer(e, Source, kind), Issuer(e, Destination, kind);
            && from != to && {from, to} == {e.parent, e.child}
            && About(e, Source, kind, service) in Requests(from, t, service)
            && About(e, Destination, kind, service) in Requests(to, t, service)
            && About(e, Destination, kind, service) == About(e, Source, kind, service).(role := Destination)
  {
    EndsDiffer(t, e);
    EachEndIsSetUpOnce(Issuer(e, Source, kind), t, e, Source, kind, service);
    EachEndIsSetUpOnce(Issuer(e, Destination, kind), t, e, Destination, kind, service);
  }

  lemma FourParts<A>(a: seq<A>, b: seq<A>, c: seq<A>, d: seq<A>)
    ensures ((a + b) + c) + d == a + (b + c + d)
  {
  }

  lemma RequestsOfNext(me: string, parent: string, children: seq<Tree>, i: nat, service: string)
    requires i < |children|
    ensures RequestsBelow(me, parent, children[i..], service) ==
              At(me, Edge(parent, children[i].address), service) + Requests(me, children[i], service) +
              RequestsBelow(me, parent, children[i + 1..], service)
  {
    hide At, Requests;
    assert children[i..][0] == children[i] && children[i..][1..] == children[i + 1..];
  }

  /** The machine that walks the tree, and the requests it has sent. */
  class Machine {
    const instanceIdentifier: string
    var sent: seq<RoutingRequest>

    constructor (instanceIdentifier: string)
      ensures this.instanceIdentifier == instanceIdentifier && sent == []
    {
      this.instanceIdentifier, sent := instanceIdentifier, [];
    }

    method SendRoutingRequest(role: Role, sender: string, receiver: string, service: string, kind: Kind)
      modifies this
      ensures sent == old(sent) + [RoutingRequest(role, sender, receiver, service, kind)]
    {
      sent := sent + [RoutingRequest(role, sender, receiver, service, kind)];
    }

    /** The requests about one edge. */
    method SetUpEdge(parent: string, child: string, service: string)
      modifies this
      ensures sent == old(sent) + At(instanceIdentifier, Edge(parent, child), service)
    {
      var sessionId := parent + child;
      if parent == instanceIdentifier {
        SendRoutingRequest(Source, "request" + parent + sessionId, "request" + child + sessionId, service, Request);
        SendRoutingRequest(
          Destination, "response" + child + sessionId, "response" + parent + sessionId, service, Response);
      }
      if child == instanceIdentifier {
        SendRoutingRequest(
          Destination, "request" + parent + sessionId, "request" + child + sessionId, service, Request);
        SendRoutingRequest(Source, "response" + child + sessionId, "response" + parent + sessionId, service, Response);
      }
    }

    method ConstructTree(node: Tree, service: string)
      modifies this
      ensures sent == old(sent) + Requests(instanceIdentifier, node, service)
      decreases node
    {
      for i := 0 to |node.children|
        invariant sent + RequestsBelow(instanceIdentifier, node.address, node.children[i..], service) ==
                  old(sent) + Requests(instanceIdentifier, node, service)
      {
        hide At, Requests, RequestsBelow;
        var child := node.children[i];
        ghost var before := sent;
        RequestsOfNext(instanceIdentifier, node.address, node.children, i, service);
        SetUpEdge(node.address, child.address, service);
        ConstructTree(child, service);
        FourParts(before, At(instanceIdentifier, Edge(node.address, child.address), service),
                  Requests(instanceIdentifier, child, service),
                  RequestsBelow(instanceIdentifier, node.address, node.children[i + 1..], service));
      }
    }
  }
}
