/** The graph of a Job's agents: edges from the manifest, from observed messages and from
    declared outbound links, with their counts and origins. */
module AgentGraphs {
  import opened OrderedDicts

  /** A message as an event shows it; an empty text is a missing field. */
  datatype Message = Message(source: string, target: string, kind: string)

  /** `payload`, `message` and `envelope` are there if they are dictionaries. */
  datatype Event = Event(kind: string, payload: Option<Message>, message: Option<Message>, envelope: Option<Message>,
                         agentId: string, timestamp: string)

  datatype ManifestEdge = ManifestEdge(source: string, target: string, kind: string, edgeId: string)

  datatype Agent = Agent(agentId: string, nodeId: string, outbound: seq<string>)

  datatype ManifestNode = ManifestNode(nodeId: string, agentId: string)

  datatype Key = Key(source: string, target: string, kind: string)

  /** source_event */
  datatype Label = FromManifest | ManifestAndEvents | FromEvents | FromOutbound

  datatype Edge = Edge(id: string, key: Key, count: nat, lastSeen: string, origin: Label)

  /** How a node came into the graph. */
  datatype Origin = Listed | Declared | Observed

  datatype Graph = Graph(edges: OrderedDict<Key, Edge>, agents: OrderedDict<string, Origin>)

  function Or(a: string, b: string): string { if a != "" then a else b }

  /** event_message_summary */
  function SummaryOf(e: Event): Option<Message> {
    if e.kind in {"agent_message_received", "backpressure_signal", "delivery_failed", "backpressure_rejected"} && e.payload.Some? then e.payload
    else if e.message.Some? then if e.envelope.Some? then e.envelope else e.message
    else None
  }

  /** The edge an event counts for, if its summary has both endpoints. */
  function KeyOf(e: Event): Option<Key> {
    match SummaryOf(e)
    case None => None
    case Some(m) =>
      var target := Or(m.target, e.agentId);
      if m.source == "" || target == "" then None else Some(Key(m.source, target, Or(Or(m.kind, e.kind), "message")))
  }

  function ManifestKey(e: ManifestEdge): Option<Key> {
    if e.source == "" || e.target == "" then None else Some(Key(e.source, e.target, Or(e.kind, "*")))
  }

  // ---- building -----------------------------------------------------------------------

  function WithAgent(agents: OrderedDict<string, Origin>, id: string, origin: Origin): OrderedDict<string, Origin> {
    if id in agents.vals then agents else agents.Put(id, origin)
  }

  /** _ensure_graph_edge: both endpoints and the edge are there afterwards; an edge that was
      there is unchanged. */
  function Ensured(g: Graph, k: Key, origin: Label, edgeId: string): Graph {
    Graph(if k in g.edges.vals then g.edges
          else g.edges.Put(k, Edge(Or(edgeId, k.source + "->" + k.target + ":" + k.kind), k, 0, "", origin)),
          WithAgent(WithAgent(g.agents, k.source, Observed), k.target, Observed))
  }

  function WithManifestEdge(g: Graph, e: ManifestEdge): Graph {
    match ManifestKey(e) case None => g case Some(k) => Ensured(g, k, FromManifest, e.edgeId)
  }

  function Counted(e: Edge, timestamp: string): Edge {
    Edge(e.id, e.key, e.count + 1, Or(timestamp, e.lastSeen), if e.origin == FromManifest then ManifestAndEvents else e.origin)
  }

  function WithEvent(g: Graph, e: Event): Graph {
    match KeyOf(e)
    case None => g
    case Some(k) =>
      var h := Ensured(g, k, FromEvents, "");
      h.(edges := h.edges.Put(k, Counted(h.edges.vals[k], e.timestamp)))
  }

  function WithOutbound(g: Graph, source: string, target: string): Graph {
    if source == "" || target == "" then g else Ensured(g, Key(source, target, "*"), FromOutbound, "")
  }

  function WithManifestEdges(g: Graph, edges: seq<ManifestEdge>): Graph {
    if edges == [] then g else WithManifestEdge(WithManifestEdges(g, edges[..|edges| - 1]), edges[|edges| - 1])
  }

  function WithEvents(g: Graph, events: seq<Event>): Graph {
    if events == [] then g else WithEvent(WithEvents(g, events[..|events| - 1]), events[|events| - 1])
  }

  /** The declared links of all agents, as pairs of ids. */
  function Links(agents: seq<Agent>): seq<(string, string)> {
    if agents == [] then [] else
      var a := agents[|agents| - 1];
      Links(agents[..|agents| - 1]) + seq(|a.outbound|, i requires 0 <= i < |a.outbound| => (Or(a.agentId, a.nodeId), a.outbound[i]))
  }

  function WithLinks(g: Graph, links: seq<(string, string)>): Graph {
    if links == [] then g
    else WithOutbound(WithLinks(g, links[..|links| - 1]), links[|links| - 1].0, links[|links| - 1].1)
  }

  function Collected(agents: seq<Agent>): OrderedDict<string, Origin> {
    if agents == [] then Empty() else
      var a := agents[|agents| - 1];
      var rest := Collected(agents[..|agents| - 1]);
      if Or(a.agentId, a.nodeId) == "" then rest else rest.Put(Or(a.agentId, a.nodeId), Listed)
  }

  function CollectedNodes(agents: OrderedDict<string, Origin>, nodes: seq<ManifestNode>): OrderedDict<string, Origin> {
    if nodes == [] then agents else
      var n := nodes[|nodes| - 1];
      var rest := CollectedNodes(agents, nodes[..|nodes| - 1]);
      if Or(n.nodeId, n.agentId) == "" then rest else WithAgent(rest, Or(n.nodeId, n.agentId), Declared)
  }

  // ---- what the graph says ----------------------------------------------------------------

  ghost predicate InManifest(edges: seq<ManifestEdge>, k: Key) { exists e :: e in edges && ManifestKey(e) == Some(k) }

  ghost predicate InLinks(links: seq<(string, string)>, k: Key) {
    k.kind == "*" && k.source != "" && k.target != "" && (k.source, k.target) in links
  }

  /** The number of events that count for an edge. */
  function CountOf(events: seq<Event>, k: Key): nat {
    if events == [] then 0 else CountOf(events[..|events| - 1], k) + if KeyOf(events[|events| - 1]) == Some(k) then 1 else 0
  }

  /** The number of events that count for any edge. */
  function Messages(events: seq<Event>): nat {
    if events == [] then 0 else Messages(events[..|events| - 1]) + if KeyOf(events[|events| - 1]).Some? then 1 else 0
  }

  /** The last timestamp given by an event of the edge. */
  function LastSeen(events: seq<Event>, k: Key): string {
    if events == [] then ""
    else if KeyOf(events[|events| - 1]) == Some(k) && events[|events| - 1].timestamp != "" then events[|events| - 1].timestamp
    else LastSeen(events[..|events| - 1], k)
  }

  /** Where an edge comes from: the manifest, events, both, or else an outbound link. */
  function LabelFor(manifest: bool, count: nat): Label {
    if manifest then if count > 0 then ManifestAndEvents else FromManifest
    else if count > 0 then FromEvents else FromOutbound
  }

  /** The edge is there if and only if it comes from somewhere, and says so; its ends are nodes. */
  ghost predicate EdgeSays(g: Graph, k: Key, manifest: bool, count: nat, lastSeen: string, linked: bool) {
    && (k in g.edges.vals <==> manifest || count > 0 || linked)
    && (k in g.edges.vals ==>
          && g.edges.vals[k].key == k && g.edges.vals[k].count == count
          && g.edges.vals[k].lastSeen == lastSeen && g.edges.vals[k].origin == LabelFor(manifest, count)
          && k.source in g.agents.vals && k.target in g.agents.vals)
  }

  ghost predicate Describes(g: Graph, edges: seq<ManifestEdge>, events: seq<Event>, links: seq<(string, string)>) {
    && g.edges.Valid() && g.agents.Valid()
    && forall k :: EdgeSays(g, k, InManifest(edges, k), CountOf(events, k), LastSeen(events, k), InLinks(links, k))
  }

  lemma EnsuredEffect(g: Graph, k: Key, origin: Label, edgeId: string)
    requires g.edges.Valid() && g.agents.Valid()
    ensures var h := Ensured(g, k, origin, edgeId);
      && h.edges.Valid() && h.agents.Valid()
      && k in h.edges.vals && (k !in g.edges.vals ==> h.edges.vals[k].key == k && h.edges.vals[k].count == 0
                                                      && h.edges.vals[k].lastSeen == "" && h.edges.vals[k].origin == origin)
      && (forall j | j in g.edges.vals :: j in h.edges.vals && h.edges.vals[j] == g.edges.vals[j])
      && (forall j | j in h.edges.vals && j != k :: j in g.edges.vals)
      && h.agents.vals.Keys == g.agents.vals.Keys + {k.source, k.target}
  {
    var edge := Edge(Or(edgeId, k.source + "->" + k.target + ":" + k.kind), k, 0, "", origin);
    PutValid(g.edges, k, edge);
    WithAgentValid(g.agents, k.source);
    WithAgentValid(WithAgent(g.agents, k.source, Observed), k.target);
    hide Distinct;
  }

  lemma WithAgentValid(agents: OrderedDict<string, Origin>, id: string)
    requires agents.Valid()
    ensures WithAgent(agents, id, Observed).Valid()
    ensures WithAgent(agents, id, Observed).vals.Keys == agents.vals.Keys + {id}
  {
    PutValid(agents, id, Observed);
  }

  /** What one more edge from the manifest or from a link does to an edge j. */
  lemma EnsuredSays(g: Graph, k: Key, origin: Label, edgeId: string, j: Key, manifest: bool, count: nat, lastSeen: string, linked: bool)
    requires g.edges.Valid() && g.agents.Valid() && EdgeSays(g, j, manifest, count, lastSeen, linked)
    requires count == 0 ==> lastSeen == ""
    ensures origin == FromManifest && count == 0 && !linked ==>
              EdgeSays(Ensured(g, k, origin, edgeId), j, manifest || j == k, count, lastSeen, linked)
    ensures origin == FromOutbound ==> EdgeSays(Ensured(g, k, origin, edgeId), j, manifest, count, lastSeen, linked || j == k)
  {
    EnsuredEffect(g, k, origin, edgeId);
    hide Ensured;
  }

  /** What one more event does to an edge j. */
  lemma EventSays(g: Graph, e: Event, j: Key, manifest: bool, count: nat, lastSeen: string)
    requires g.edges.Valid() && g.agents.Valid() && EdgeSays(g, j, manifest, count, lastSeen, false)
    requires count == 0 ==> lastSeen == ""
    ensures var mine := KeyOf(e) == Some(j); var h := WithEvent(g, e);
      && h.edges.Valid() && h.agents.Valid()
      && EdgeSays(h, j, manifest, if mine then count + 1 else count, if mine then Or(e.timestamp, lastSeen) else lastSeen, false)
  {
    hide KeyOf;
    if KeyOf(e).Some? {
      var k := KeyOf(e).value;
      EnsuredEffect(g, k, FromEvents, "");
      var h := Ensured(g, k, FromEvents, "");
      PutValid(h.edges, k, Counted(h.edges.vals[k], e.timestamp));
      hide Ensured;
    }
  }

  lemma {:induction false} UnseenHasNoTime(events: seq<Event>, k: Key)
    requires CountOf(events, k) == 0
    ensures LastSeen(events, k) == ""
    decreases |events|
  {
    if events != [] { UnseenHasNoTime(events[..|events| - 1], k); }
  }

  lemma {:induction false} ManifestDescribed(g: Graph, edges: seq<ManifestEdge>)
    requires g.edges == Empty() && g.agents.Valid()
    ensures Describes(WithManifestEdges(g, edges), edges, [], [])
    decreases |edges|
  {
    hide Ensured, EdgeSays, LastSeen, CountOf, ManifestKey;
    NoEvents();
    if edges == [] {
      NothingDescribed(g);
    } else {
      var init, e := edges[..|edges| - 1], edges[|edges| - 1];
      ManifestDescribed(g, init);
      assert edges == init + [e];
      var h := WithManifestEdges(g, init);
      if ManifestKey(e).Some? { EnsuredEffect(h, ManifestKey(e).value, FromManifest, e.edgeId); }
      forall j
        ensures EdgeSays(WithManifestEdges(g, edges), j, InManifest(edges, j), CountOf([], j), LastSeen([], j), InLinks([], j))
      {
        assert InManifest(edges, j) <==> InManifest(init, j) || ManifestKey(e) == Some(j);
        assert EdgeSays(h, j, InManifest(init, j), CountOf([], j), LastSeen([], j), InLinks([], j));
        if ManifestKey(e).Some? {
          EnsuredSays(h, ManifestKey(e).value, FromManifest, e.edgeId, j, InManifest(init, j), 0, "", false);
        }
      }
    }
  }

  lemma NoEvents()
    ensures forall k :: CountOf([], k) == 0 && LastSeen([], k) == ""
  {
  }

  lemma NothingDescribed(g: Graph)
    requires g.edges == Empty() && g.agents.Valid()
    ensures Describes(g, [], [], [])
  {
  }

  lemma {:induction false} EventsDescribed(g: Graph, edges: seq<ManifestEdge>, events: seq<Event>)
    requires Describes(g, edges, [], [])
    ensures Describes(WithEvents(g, events), edges, events, [])
    decreases |events|
  {
    hide EdgeSays, InManifest, KeyOf, WithEvent;
    if events != [] {
      var init, e := events[..|events| - 1], events[|events| - 1];
      EventsDescribed(g, edges, init);
      var h := WithEvents(g, init);
      EventKeepsValid(h, e);
      forall j
        ensures EdgeSays(WithEvents(g, events), j, InManifest(edges, j), CountOf(events, j), LastSeen(events, j), InLinks([], j))
      {
        assert EdgeSays(h, j, InManifest(edges, j), CountOf(init, j), LastSeen(init, j), InLinks([], j));
        if CountOf(init, j) == 0 { UnseenHasNoTime(init, j); }
        EventSays(h, e, j, InManifest(edges, j), CountOf(init, j), LastSeen(init, j));
      }
    }
  }

  lemma EventKeepsValid(g: Graph, e: Event)
    requires g.edges.Valid() && g.agents.Valid()
    ensures WithEvent(g, e).edges.Valid() && WithEvent(g, e).agents.Valid()
  {
    hide KeyOf;
    if KeyOf(e).Some? {
      var k := KeyOf(e).value;
      EnsuredEffect(g, k, FromEvents, "");
      var h := Ensured(g, k, FromEvents, "");
      PutValid(h.edges, k, Counted(h.edges.vals[k], e.timestamp));
      hide Ensured;
    }
  }

  lemma {:induction false} LinksDescribed(g: Graph, edges: seq<ManifestEdge>, events: seq<Event>, links: seq<(string, string)>)
    requires Describes(g, edges, events, [])
    ensures Describes(WithLinks(g, links), edges, events, links)
    decreases |links|
  {
    hide EdgeSays, InManifest, CountOf, LastSeen, Ensured;
    if links != [] {
      var init, l := links[..|links| - 1], links[|links| - 1];
      LinksDescribed(g, edges, events, init);
      assert links == init + [l];
      var h := WithLinks(g, init);
      var k := Key(l.0, l.1, "*");
      EnsuredEffect(h, k, FromOutbound, "");
      forall j
        ensures EdgeSays(WithLinks(g, links), j, InManifest(edges, j), CountOf(events, j), LastSeen(events, j), InLinks(links, j))
      {
        assert InLinks(links, j) <==> InLinks(init, j) || (l.0 != "" && l.1 != "" && j == k);
        assert EdgeSays(h, j, InManifest(edges, j), CountOf(events, j), LastSeen(events, j), InLinks(init, j));
        if CountOf(events, j) == 0 { UnseenHasNoTime(events, j); }
        EnsuredSays(h, k, FromOutbound, "", j, InManifest(edges, j), CountOf(events, j), LastSeen(events, j), InLinks(init, j));
      }
    }
  }

  // ---- the message count --------------------------------------------------------------------

  function Total(edges: OrderedDict<Key, Edge>, keys: seq<Key>): nat
    requires forall k | k in keys :: k in edges.vals
  {
    if keys == [] then 0 else Total(edges, keys[..|keys| - 1]) + edges.vals[keys[|keys| - 1]].count
  }

  function CountsOf(events: seq<Event>, keys: seq<Key>): nat {
    if keys == [] then 0 else CountsOf(events, keys[..|keys| - 1]) + CountOf(events, keys[|keys| - 1])
  }

  lemma {:induction false} OneMoreEvent(events: seq<Event>, e: Event, keys: seq<Key>)
    requires Distinct(keys)
    ensures CountsOf(events + [e], keys) == CountsOf(events, keys) + if KeyOf(e).Some? && KeyOf(e).value in keys then 1 else 0
    decreases |keys|
  {
    hide KeyOf;
    assert (events + [e])[..|events|] == events;
    if keys != [] {
      var init, k := keys[..|keys| - 1], keys[|keys| - 1];
      assert keys == init + [k];
      OneMoreEvent(events, e, init);
      assert forall x | x in init :: x != k;
      assert forall x :: x in keys <==> x in init || x == k;
    }
  }

  /** Summing over the edges counts every message once. */
  lemma {:induction false} CountsAreMessages(events: seq<Event>, keys: seq<Key>)
    requires Distinct(keys) && forall e | e in events && KeyOf(e).Some? :: KeyOf(e).value in keys
    ensures CountsOf(events, keys) == Messages(events)
    decreases |events|
  {
    hide KeyOf, Distinct;
    if events == [] {
      NoCounts(keys);
    } else {
      var init, e := events[..|events| - 1], events[|events| - 1];
      assert events == init + [e];
      CountsAreMessages(init, keys);
      OneMoreEvent(init, e, keys);
    }
  }

  lemma {:induction false} NoCounts(keys: seq<Key>)
    ensures CountsOf([], keys) == 0
    decreases |keys|
  {
    if keys != [] { NoCounts(keys[..|keys| - 1]); }
  }

  lemma {:induction false} CountedSomewhere(events: seq<Event>, e: Event)
    requires e in events && KeyOf(e).Some?
    ensures CountOf(events, KeyOf(e).value) > 0
    decreases |events|
  {
    hide KeyOf;
    if e != events[|events| - 1] {
      assert events == events[..|events| - 1] + [events[|events| - 1]];
      CountedSomewhere(events[..|events| - 1], e);
    }
  }

  lemma {:induction false} TotalIsCounts(edges: OrderedDict<Key, Edge>, events: seq<Event>, keys: seq<Key>)
    requires forall k | k in keys :: k in edges.vals && edges.vals[k].count == CountOf(events, k)
    ensures Total(edges, keys) == CountsOf(events, keys)
    decreases |keys|
  {
    if keys != [] { TotalIsCounts(edges, events, keys[..|keys| - 1]); }
  }

  // ---- the builder ------------------------------------------------------------------------------

  class GraphBuilder {
    var edges: OrderedDict<Key, Edge>
    var agents: OrderedDict<string, Origin>

    ghost function View(): Graph
      reads this
    {
      Graph(edges, agents)
    }

    /** _collect_graph_agents */
    constructor (listed: seq<Agent>, nodes: seq<ManifestNode>)
      ensures View() == Graph(Empty(), CollectedNodes(Collected(listed), nodes))
    {
      edges, agents := Empty(), Empty();
      new;
      for i := 0 to |listed|
        invariant agents == Collected(listed[..i]) && edges == Empty()
      {
        assert listed[..i + 1][..i] == listed[..i];
        var id := Or(listed[i].agentId, listed[i].nodeId);
        if id == "" { continue; }
        agents := agents.Put(id, Listed);
      }
      assert listed[..|listed|] == listed;
      for i := 0 to |nodes|
        invariant agents == CollectedNodes(Collected(listed), nodes[..i]) && edges == Empty()
      {
        assert nodes[..i + 1][..i] == nodes[..i];
        var id := Or(nodes[i].nodeId, nodes[i].agentId);
        if id == "" { continue; }
        if id !in agents.vals { agents := agents.Put(id, Declared); }
      }
      assert nodes[..|nodes|] == nodes;
    }

    method EnsureEdge(k: Key, origin: Label, edgeId: string)
      modifies this
      ensures View() == Ensured(old(View()), k, origin, edgeId)
    {
      if k.source !in agents.vals { agents := agents.Put(k.source, Observed); }
      if k.target !in agents.vals { agents := agents.Put(k.target, Observed); }
      if k !in edges.vals {
        edges := edges.Put(k, Edge(Or(edgeId, k.source + "->" + k.target + ":" + k.kind), k, 0, "", origin));
      }
    }

    method AddManifestEdges(manifest: seq<ManifestEdge>)
      modifies this
      ensures View() == WithManifestEdges(old(View()), manifest)
    {
      hide Ensured;
      for i := 0 to |manifest|
        invariant View() == WithManifestEdges(old(View()), manifest[..i])
      {
        assert manifest[..i + 1][..i] == manifest[..i];
        var e := manifest[i];
        if e.source != "" && e.target != "" {
          EnsureEdge(Key(e.source, e.target, Or(e.kind, "*")), FromManifest, e.edgeId);
        }
      }
      assert manifest[..|manifest|] == manifest;
    }

    method AddEventEdges(events: seq<Event>)
      modifies this
      ensures View() == WithEvents(old(View()), events)
    {
      hide Ensured, SummaryOf;
      for i := 0 to |events|
        invariant View() == WithEvents(old(View()), events[..i])
      {
        assert events[..i + 1][..i] == events[..i];
        var event := events[i];
        var message := SummaryOf(event);
        if message.None? { continue; }
        var source := message.value.source;
        var target := Or(message.value.target, event.agentId);
        if source == "" || target == "" { continue; }
        var k := Key(source, target, Or(Or(message.value.kind, event.kind), "message"));
        EdgeIsThere(View(), k);
        EnsureEdge(k, FromEvents, "");
        edges := edges.Put(k, Counted(edges.vals[k], event.timestamp));
      }
      assert events[..|events|] == events;
    }

    method AddOutboundEdges(listed: seq<Agent>)
      modifies this
      ensures View() == WithLinks(old(View()), Links(listed))
    {
      hide Ensured, Links;
      NoLinks();
      assert listed[..0] == [];
      for i := 0 to |listed|
        invariant View() == WithLinks(old(View()), Links(listed[..i]))
      {
        var a := listed[i];
        var source := Or(a.agentId, a.nodeId);
        ghost var before := Links(listed[..i]);
        ghost var all := Links(listed[..i + 1]);
        LinksOfOneMore(listed, i);
        assert all[..|before| + 0] == before;
        for j := 0 to |a.outbound|
          invariant View() == WithLinks(old(View()), all[..|before| + j])
        {
          ghost var n := |before| + j;
          OneMoreLink(old(View()), all, n);
          assert all[n] == (source, a.outbound[j]);
          if source != "" && a.outbound[j] != "" {
            EnsureEdge(Key(source, a.outbound[j], "*"), FromOutbound, "");
          }
          assert n + 1 == |before| + (j + 1) && View() == WithLinks(old(View()), all[..n + 1]);
        }
        assert all[..|before| + |a.outbound|] == all;
      }
      assert listed[..|listed|] == listed;
    }
  }

  lemma NoLinks()
    ensures Links([]) == []
  {
  }

  lemma LinksOfOneMore(listed: seq<Agent>, i: nat)
    requires i < |listed|
    ensures var before := Links(listed[..i]); var all := Links(listed[..i + 1]); var a := listed[i];
      && |all| == |before| + |a.outbound| && all[..|before|] == before
      && forall j | 0 <= j < |a.outbound| :: all[|before| + j] == (Or(a.agentId, a.nodeId), a.outbound[j])
  {
    assert listed[..i + 1][..i] == listed[..i];
  }

  lemma OneMoreLink(g: Graph, links: seq<(string, string)>, n: nat)
    requires n < |links|
    ensures WithLinks(g, links[..n + 1]) == WithOutbound(WithLinks(g, links[..n]), links[n].0, links[n].1)
  {
    assert links[..n + 1][..n] == links[..n];
    hide WithOutbound;
  }

  // ---- the nodes ----------------------------------------------------------------------------------

  function EndsOf(keys: set<Key>): set<string> { (set k | k in keys :: k.source) + (set k | k in keys :: k.target) }

  function Ends(g: Graph): set<string> { EndsOf(g.edges.vals.Keys) }

  lemma EndsOfMore(keys: set<Key>, k: Key)
    ensures EndsOf(keys + {k}) == EndsOf(keys) + {k.source, k.target}
  {
  }

  ghost predicate NodesFrom(g: Graph, collected: set<string>) {
    && g.edges.Valid() && g.agents.Valid() && g.agents.vals.Keys == collected + Ends(g)
  }

  lemma EnsuredNodes(g: Graph, k: Key, origin: Label, edgeId: string, collected: set<string>)
    requires NodesFrom(g, collected)
    ensures NodesFrom(Ensured(g, k, origin, edgeId), collected)
  {
    EnsuredEffect(g, k, origin, edgeId);
    hide Ensured, Distinct, EndsOf;
    assert Ensured(g, k, origin, edgeId).edges.vals.Keys == g.edges.vals.Keys + {k};
    EndsOfMore(g.edges.vals.Keys, k);
  }

  lemma EventNodes(g: Graph, e: Event, collected: set<string>)
    requires NodesFrom(g, collected)
    ensures NodesFrom(WithEvent(g, e), collected)
  {
    hide KeyOf;
    EventKeepsValid(g, e);
    if KeyOf(e).Some? {
      EnsuredNodes(g, KeyOf(e).value, FromEvents, "", collected);
      EdgeIsThere(g, KeyOf(e).value);
      hide Ensured;
      assert WithEvent(g, e).edges.vals.Keys == Ensured(g, KeyOf(e).value, FromEvents, "").edges.vals.Keys;
    }
  }

  lemma {:induction false} ManifestNodes(g: Graph, edges: seq<ManifestEdge>, collected: set<string>)
    requires NodesFrom(g, collected)
    ensures NodesFrom(WithManifestEdges(g, edges), collected)
    decreases |edges|
  {
    hide NodesFrom, Ensured;
    if edges != [] {
      var init, e := edges[..|edges| - 1], edges[|edges| - 1];
      ManifestNodes(g, init, collected);
      if ManifestKey(e).Some? { EnsuredNodes(WithManifestEdges(g, init), ManifestKey(e).value, FromManifest, e.edgeId, collected); }
    }
  }

  lemma {:induction false} EventsNodes(g: Graph, events: seq<Event>, collected: set<string>)
    requires NodesFrom(g, collected)
    ensures NodesFrom(WithEvents(g, events), collected)
    decreases |events|
  {
    hide NodesFrom, WithEvent;
    if events != [] {
      EventsNodes(g, events[..|events| - 1], collected);
      EventNodes(WithEvents(g, events[..|events| - 1]), events[|events| - 1], collected);
    }
  }

  lemma {:induction false} LinksNodes(g: Graph, links: seq<(string, string)>, collected: set<string>)
    requires NodesFrom(g, collected)
    ensures NodesFrom(WithLinks(g, links), collected)
    decreases |links|
  {
    hide NodesFrom, Ensured;
    if links != [] {
      var init, l := links[..|links| - 1], links[|links| - 1];
      LinksNodes(g, init, collected);
      EnsuredNodes(WithLinks(g, init), Key(l.0, l.1, "*"), FromOutbound, "", collected);
    }
  }

  /** The ids of the listed agents and of the manifest's nodes. */
  ghost predicate Known(listed: seq<Agent>, nodes: seq<ManifestNode>, id: string) {
    id != "" && ((exists a :: a in listed && Or(a.agentId, a.nodeId) == id) || (exists n :: n in nodes && Or(n.nodeId, n.agentId) == id))
  }

  lemma {:induction false} CollectedIsKnown(listed: seq<Agent>)
    ensures Collected(listed).Valid() && forall id :: id in Collected(listed).vals <==> Known(listed, [], id)
    decreases |listed|
  {
    if listed != [] {
      var init, a := listed[..|listed| - 1], listed[|listed| - 1];
      CollectedIsKnown(init);
      assert listed == init + [a];
      PutValid(Collected(init), Or(a.agentId, a.nodeId), Listed);
      forall id
        ensures Known(listed, [], id) <==> Known(init, [], id) || (id != "" && id == Or(a.agentId, a.nodeId))
      {
      }
      hide Known;
    }
  }

  lemma {:induction false} CollectedNodesAreKnown(listed: seq<Agent>, nodes: seq<ManifestNode>)
    ensures var d := CollectedNodes(Collected(listed), nodes);
      d.Valid() && forall id :: id in d.vals <==> Known(listed, nodes, id)
    decreases |nodes|
  {
    if nodes == [] {
      CollectedIsKnown(listed);
    } else {
      var init, n := nodes[..|nodes| - 1], nodes[|nodes| - 1];
      CollectedNodesAreKnown(listed, init);
      assert nodes == init + [n];
      PutValid(CollectedNodes(Collected(listed), init), Or(n.nodeId, n.agentId), Declared);
      forall id
        ensures Known(listed, nodes, id) <==> Known(listed, init, id) || (id != "" && id == Or(n.nodeId, n.agentId))
      {
      }
      hide Known;
    }
  }

  lemma EdgeIsThere(g: Graph, k: Key)
    ensures k in Ensured(g, k, FromEvents, "").edges.vals
  {
  }

  /** The finished graph. */
  function Built(listed: seq<Agent>, nodes: seq<ManifestNode>, manifest: seq<ManifestEdge>, events: seq<Event>): Graph {
    var g := Graph(Empty(), CollectedNodes(Collected(listed), nodes));
    WithLinks(WithEvents(WithManifestEdges(g, manifest), events), Links(listed))
  }

  /** An edge is there exactly if the manifest, an event or a declared link names it, with
      the count, time and origin these give it; and the nodes are exactly the listed agents,
      the manifest's nodes and the ends of edges. */
  lemma BuiltGraphIsExact(listed: seq<Agent>, nodes: seq<ManifestNode>, manifest: seq<ManifestEdge>, events: seq<Event>)
    ensures var g := Built(listed, nodes, manifest, events);
      && Describes(g, manifest, events, Links(listed))
      && forall id :: id in g.agents.vals <==> Known(listed, nodes, id) || id in Ends(g)
  {
    hide Collected, CollectedNodes, EdgeSays, Known, Links;
    var d := CollectedNodes(Collected(listed), nodes);
    CollectedNodesAreKnown(listed, nodes);
    var g := Graph(Empty(), d);
    assert NodesFrom(g, d.vals.Keys);
    hide NodesFrom, WithLinks, WithEvents, WithManifestEdges, Ends;
    ManifestDescribed(g, manifest);
    ManifestNodes(g, manifest, d.vals.Keys);
    var h := WithManifestEdges(g, manifest);
    EventsDescribed(h, manifest, events);
    EventsNodes(h, events, d.vals.Keys);
    var i := WithEvents(h, events);
    LinksDescribed(i, manifest, events, Links(listed));
    LinksNodes(i, Links(listed), d.vals.Keys);
    NodesAre(WithLinks(i, Links(listed)), d.vals.Keys);
  }

  lemma NodesAre(g: Graph, collected: set<string>)
    requires NodesFrom(g, collected)
    ensures forall id :: id in g.agents.vals <==> id in collected || id in Ends(g)
  {
  }

  /** What the origin of an edge says about its count. */
  lemma OriginsAreExact(listed: seq<Agent>, nodes: seq<ManifestNode>, manifest: seq<ManifestEdge>, events: seq<Event>, k: Key)
    requires k in Built(listed, nodes, manifest, events).edges.vals
    ensures var e := Built(listed, nodes, manifest, events).edges.vals[k];
      && (e.origin == FromManifest || e.origin == FromOutbound ==> e.count == 0)
      && (e.origin == ManifestAndEvents <==> InManifest(manifest, k) && e.count > 0)
      && e.count == CountOf(events, k)
  {
    BuiltGraphIsExact(listed, nodes, manifest, events);
    var g := Built(listed, nodes, manifest, events);
    hide Built;
    assert EdgeSays(g, k, InManifest(manifest, k), CountOf(events, k), LastSeen(events, k), InLinks(Links(listed), k));
  }

  /** The counts of all edges add up to the number of events that name both ends. */
  lemma TotalIsMessages(g: Graph, manifest: seq<ManifestEdge>, events: seq<Event>, links: seq<(string, string)>)
    requires Describes(g, manifest, events, links)
    ensures forall k | k in g.edges.keys :: k in g.edges.vals
    ensures Total(g.edges, g.edges.keys) == Messages(events)
  {
    forall k | k in g.edges.keys
      ensures k in g.edges.vals && g.edges.vals[k].count == CountOf(events, k)
    {
      assert EdgeSays(g, k, InManifest(manifest, k), CountOf(events, k), LastSeen(events, k), InLinks(links, k));
    }
    forall e | e in events && KeyOf(e).Some?
      ensures KeyOf(e).value in g.edges.keys
    {
      var k := KeyOf(e).value;
      CountedSomewhere(events, e);
      assert EdgeSays(g, k, InManifest(manifest, k), CountOf(events, k), LastSeen(events, k), InLinks(links, k));
    }
    hide KeyOf, InManifest, InLinks;
    TotalIsCounts(g.edges, events, g.edges.keys);
    CountsAreMessages(events, g.edges.keys);
  }

  /** build_agent_graph, with its message_count. */
  method BuildAgentGraph(listed: seq<Agent>, nodes: seq<ManifestNode>, manifest: seq<ManifestEdge>, events: seq<Event>)
    returns (edges: OrderedDict<Key, Edge>, agents: OrderedDict<string, Origin>, messageCount: nat)
    ensures Graph(edges, agents) == Built(listed, nodes, manifest, events)
    ensures Describes(Graph(edges, agents), manifest, events, Links(listed))
    ensures messageCount == Messages(events)
  {
    hide Describes, WithLinks, WithEvents, WithManifestEdges, CollectedNodes, Collected, Links;
    var b := new GraphBuilder(listed, nodes);
    b.AddManifestEdges(manifest);
    b.AddEventEdges(events);
    b.AddOutboundEdges(listed);
    edges, agents := b.edges, b.agents;
    BuiltGraphIsExact(listed, nodes, manifest, events);
    TotalIsMessages(Graph(edges, agents), manifest, events, Links(listed));
    messageCount := 0;
    for i := 0 to |edges.keys|
      invariant messageCount == Total(edges, edges.keys[..i])
    {
      assert edges.keys[..i + 1][..i] == edges.keys[..i];
      messageCount := messageCount + edges.vals[edges.keys[i]].count;
    }
    assert edges.keys[..|edges.keys|] == edges.keys;
  }
}
