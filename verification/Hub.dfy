/** The network the marketplace is deployed on: every worker's node is connected to the coordinator's and to
    no other. If connections are FIFO and lose nothing, flooding over them delivers on each connection
    exactly what was put on it, in order, whatever the caches evict; so it provides the queues of `Star`. */
module Hub {
  import opened Core
  import opened Lru
  import opened Gossip
  import opened Flood
  import Reach
  import Star

  /** Every node but the hub has one connection at most, to the hub, and the hub one to each. */
  ghost predicate StarShaped(nodes: map<PeerId, Node>, hub: PeerId) {
    && hub in nodes
    && (forall n, d :: n in nodes && n != hub && d in nodes[n].links ==> nodes[n].links[d].node == hub)
    && (forall n, d, e :: n in nodes && n != hub && d in nodes[n].links && e in nodes[n].links ==> d == e)
    && (forall d :: d in nodes[hub].links ==> nodes[hub].links[d].node != hub)
    && (forall d, e :: d in nodes[hub].links && e in nodes[hub].links && d != e ==>
          nodes[hub].links[d].node != nodes[hub].links[e].node)
  }

  lemma StaysStarShaped(nodes: map<PeerId, Node>, after: map<PeerId, Node>, hub: PeerId)
    requires StarShaped(nodes, hub) && SameWiring(nodes, after)
    ensures StarShaped(after, hub)
  {
  }

  // ----- nothing arrives twice ------------------------------------------------------------------

  ghost predicate NoneOf(q: seq<Copy>, m: MessageId) {
    forall j :: 0 <= j < |q| ==> q[j].env.id != m
  }

  ghost predicate KnownOnlyTo(nodes: map<PeerId, Node>, m: MessageId, o: PeerId) {
    forall n :: n in nodes && m in nodes[n].seen ==> n == o
  }

  /** Among the copies in flight, the one at i is news where it goes. A copy for the hub comes from its
      origin, which alone knows of it. */
  ghost predicate News(nodes: map<PeerId, Node>, q: seq<Copy>, hub: PeerId, i: nat)
    requires i < |q|
  {
    && q[i].to in nodes && q[i].env.id !in nodes[q[i].to].seen
    && (q[i].to == hub ==> q[i].route == [q[i].env.origin] && KnownOnlyTo(nodes, q[i].env.id, q[i].env.origin))
  }

  /** Two copies of a broadcast go to different workers. */
  ghost predicate Apart(c: Copy, d: Copy, hub: PeerId) {
    c.env.id == d.env.id ==> c.to != d.to && c.to != hub && d.to != hub
  }

  ghost predicate AllNews(nodes: map<PeerId, Node>, q: seq<Copy>, hub: PeerId) {
    && (forall i :: 0 <= i < |q| ==> News(nodes, q, hub, i))
    && (forall i, j :: 0 <= i < j < |q| ==> Apart(q[i], q[j], hub))
  }

  lemma RemovedAt(q: seq<Copy>, i: nat, j: nat)
    requires i < |q| && j < |q| - 1
    ensures Remove(q, i)[j] == q[if j < i then j else j + 1]
  {
  }

  lemma RemoveKeepsNews(nodes: map<PeerId, Node>, q: seq<Copy>, hub: PeerId, i: nat)
    requires AllNews(nodes, q, hub) && i < |q|
    ensures AllNews(nodes, Remove(q, i), hub)
    ensures forall j :: 0 <= j < |q| - 1 ==> Apart(q[i], Remove(q, i)[j], hub)
  {
    var r := Remove(q, i);
    forall j | 0 <= j < |r| ensures News(nodes, r, hub, j) && Apart(q[i], r[j], hub) {
      RemovedAt(q, i, j);
      assert News(nodes, q, hub, if j < i then j else j + 1);
    }
    forall j, k | 0 <= j < k < |r| ensures Apart(r[j], r[k], hub) {
      RemovedAt(q, i, j);
      RemovedAt(q, i, k);
    }
  }

  /** The caches of `after` hold what those of `nodes` held, but for m at n. */
  ghost predicate OnlyAdds(nodes: map<PeerId, Node>, after: map<PeerId, Node>, n: PeerId, m: MessageId) {
    && nodes.Keys == after.Keys
    && forall v, x :: v in nodes && x in after[v].seen ==> x in nodes[v].seen || (v == n && x == m)
  }

  lemma AccessAdds(cfg: Config, nodes: map<PeerId, Node>, n: PeerId, id: MessageId)
    requires n in nodes && cfg.capacity > 0
    ensures OnlyAdds(nodes, Access(cfg, nodes, n, id), n, id)
  {
    Reach.TouchMembers(nodes[n].seen, id, cfg.capacity);
  }

  /** Accessing m at n hurts no copy of m: none goes to n, and none to the hub. */
  lemma AccessKeepsNews(nodes: map<PeerId, Node>, after: map<PeerId, Node>, q: seq<Copy>, hub: PeerId, n: PeerId,
                        m: MessageId)
    requires AllNews(nodes, q, hub) && OnlyAdds(nodes, after, n, m)
    requires forall j :: 0 <= j < |q| && q[j].env.id == m ==> q[j].to != n && q[j].to != hub
    ensures AllNews(after, q, hub)
  {
    forall i | 0 <= i < |q| ensures News(after, q, hub, i) {
      assert News(nodes, q, hub, i);
    }
  }

  /** Copies of m sent to different nodes that do not know it are news. */
  ghost predicate Sendable(nodes: map<PeerId, Node>, added: seq<Copy>, hub: PeerId, m: MessageId) {
    && (forall j :: 0 <= j < |added| ==> added[j].env.id == m && News(nodes, added, hub, j))
    && (forall j, k :: 0 <= j < k < |added| ==> Apart(added[j], added[k], hub))
  }

  lemma AddKeepsNews(nodes: map<PeerId, Node>, q: seq<Copy>, added: seq<Copy>, hub: PeerId, m: MessageId)
    requires AllNews(nodes, q, hub) && NoneOf(q, m) && Sendable(nodes, added, hub, m)
    ensures AllNews(nodes, q + added, hub)
  {
    var all := q + added;
    forall i | 0 <= i < |all| ensures News(nodes, all, hub, i) {
      if i < |q| {
        assert News(nodes, q, hub, i);
      } else {
        assert News(nodes, added, hub, i - |q|);
      }
    }
    forall i, k | 0 <= i < k < |all| ensures Apart(all[i], all[k], hub) {
      if i >= |q| {
        assert Apart(added[i - |q|], added[k - |q|], hub);
      } else if k < |q| {
        assert Apart(q[i], q[k], hub);
      }
    }
  }

  // ----- a node's own broadcast -----------------------------------------------------------------

  lemma BroadcastAdded(cfg: Config, net: Net, step: Step)
    requires Enabled(cfg, net, step) && step.Broadcast?
    ensures Added(cfg, net, step) ==
            Copies(net.nodes[step.node].links, step.targets,
                   Original(cfg.crypto, net.nodes[step.node].key, cfg.maxTtl, step.id, step.payload), [step.node])
  {
  }

  /** Where a broadcast of n over connection d goes is another node, which cannot know it yet. */
  lemma BroadcastIsNews(cfg: Config, net: Net, step: Step, hub: PeerId, j: nat)
    requires Sane(cfg, net, hub) && Enabled(cfg, net, step) && step.Broadcast? && j < |Added(cfg, net, step)|
    ensures Added(cfg, net, step)[j].env.id == step.id
    ensures News(Access(cfg, net.nodes, step.node, step.id), Added(cfg, net, step), hub, j)
  {
    var n, m, d, added := step.node, step.id, step.targets[j], Added(cfg, net, step);
    BroadcastAdded(cfg, net, step);
    assert d in net.nodes[n].links;
    OtherEnd(cfg, net.nodes, hub, n, d);
    KnownToSender(cfg, net, n, m);
    assert added[j].to == net.nodes[n].links[d].node && added[j].route == [n] && added[j].env.origin == n;
  }

  lemma OtherEnd(cfg: Config, nodes: map<PeerId, Node>, hub: PeerId, n: PeerId, d: ConnectionId)
    requires StarShaped(nodes, hub) && Wired(cfg, nodes) && n in nodes && d in nodes[n].links
    ensures nodes[n].links[d].node in nodes && nodes[n].links[d].node != n
    ensures n == hub || nodes[n].links[d].node == hub
  {
  }

  lemma KnownToSender(cfg: Config, net: Net, n: PeerId, m: MessageId)
    requires Reach.CachesOk(cfg, net) && n in net.nodes && m !in net.origins
    ensures KnownOnlyTo(Access(cfg, net.nodes, n, m), m, n)
  {
    AccessAdds(cfg, net.nodes, n, m);
  }

  lemma BroadcastsApart(cfg: Config, net: Net, step: Step, hub: PeerId, j: nat, k: nat)
    requires Sane(cfg, net, hub) && Enabled(cfg, net, step) && step.Broadcast? && j < k < |Added(cfg, net, step)|
    ensures Apart(Added(cfg, net, step)[j], Added(cfg, net, step)[k], hub)
  {
    var links := net.nodes[step.node].links;
    assert step.targets[j] in links && step.targets[k] in links && step.targets[j] != step.targets[k];
    assert step.node == hub;
  }

  /** The copies of a new broadcast are sendable. */
  lemma BroadcastSendable(cfg: Config, net: Net, step: Step, hub: PeerId)
    requires Sane(cfg, net, hub) && Enabled(cfg, net, step) && step.Broadcast?
    ensures Sendable(Access(cfg, net.nodes, step.node, step.id), Added(cfg, net, step), hub, step.id)
  {
    var nodes, added := Access(cfg, net.nodes, step.node, step.id), Added(cfg, net, step);
    forall j | 0 <= j < |added| ensures added[j].env.id == step.id && News(nodes, added, hub, j) {
      BroadcastIsNews(cfg, net, step, hub, j);
    }
    forall j, k | 0 <= j < k < |added| ensures Apart(added[j], added[k], hub) {
      BroadcastsApart(cfg, net, step, hub, j, k);
    }
  }

  lemma FlyingIsOld(cfg: Config, net: Net, m: MessageId)
    requires Traced(cfg, net) && m !in net.origins
    ensures NoneOf(net.flying, m)
  {
    forall j | 0 <= j < |net.flying| ensures net.flying[j].env.id != m {
      assert net.flying[j] in net.flying && Lineage(cfg, net, net.flying[j]);
    }
  }

  lemma BroadcastKeepsNews(cfg: Config, net: Net, step: Step, hub: PeerId)
    requires Sane(cfg, net, hub) && Enabled(cfg, net, step) && step.Broadcast?
    ensures AllNews(Next(cfg, net, step).nodes, Next(cfg, net, step).flying, hub)
  {
    var nodes := Access(cfg, net.nodes, step.node, step.id);
    AccessAdds(cfg, net.nodes, step.node, step.id);
    FlyingIsOld(cfg, net, step.id);
    AccessKeepsNews(net.nodes, nodes, net.flying, hub, step.node, step.id);
    BroadcastSendable(cfg, net, step, hub);
    AddKeepsNews(nodes, net.flying, Added(cfg, net, step), hub, step.id);
    AddedByBroadcast(cfg, net, step, step.id);
  }

  // ----- a copy is handled ----------------------------------------------------------------------

  /** News is delivered. */
  lemma NewsIsPublished(cfg: Config, net: Net, hub: PeerId, i: nat)
    requires Sane(cfg, net, hub) && i < |net.flying|
    ensures net.flying[i].to in net.nodes && Publishes(cfg, net, net.flying[i])
  {
    assert News(net.nodes, net.flying, hub, i);
    assert net.flying[i] in net.flying && Lineage(cfg, net, net.flying[i]);
  }

  /** A worker's node has nobody to pass a copy on to. */
  lemma LeafSendsNothing(cfg: Config, net: Net, step: Step, hub: PeerId)
    requires Traced(cfg, net) && StarShaped(net.nodes, hub) && Enabled(cfg, net, step) && step.Process?
    requires net.flying[step.i].to != hub
    ensures Added(cfg, net, step) == []
  {
    var c := net.flying[step.i];
    assert c in net.flying && Lineage(cfg, net, c);
    assert Eligible(net.nodes[c.to].links.Keys, Some(c.via)) == {};
    assert step.targets == [];
  }

  /** A copy that is passed on goes over a picked connection. */
  lemma PassedOnCopy(cfg: Config, net: Net, step: Step, j: nat)
    requires Enabled(cfg, net, step) && step.Process? && j < |Added(cfg, net, step)|
    ensures var c, d := net.flying[step.i], Added(cfg, net, step)[j];
            && j < |step.targets| && step.targets[j] in Eligible(net.nodes[c.to].links.Keys, Some(c.via))
            && d.to == net.nodes[c.to].links[step.targets[j]].node
            && d.env.id == c.env.id && d.env.origin == c.env.origin
  {
  }

  /** The other connections of the hub lead to other workers. */
  lemma OtherWorker(cfg: Config, nodes: map<PeerId, Node>, hub: PeerId, via: ConnectionId, d: ConnectionId)
    requires StarShaped(nodes, hub) && Wired(cfg, nodes) && via in nodes[hub].links
    requires d in Eligible(nodes[hub].links.Keys, Some(via))
    ensures var w := nodes[hub].links[d].node; w in nodes && w != hub && w != nodes[hub].links[via].node
  {
  }

  /** A copy the hub passes on goes to a worker other than the origin. */
  lemma HubPassesOn(cfg: Config, net: Net, step: Step, hub: PeerId, j: nat)
    requires Sane(cfg, net, hub) && Enabled(cfg, net, step) && step.Process?
    requires net.flying[step.i].to == hub && j < |Added(cfg, net, step)|
    ensures var c, d := net.flying[step.i], Added(cfg, net, step)[j];
            && j < |step.targets| && step.targets[j] in net.nodes[hub].links
            && d.to == net.nodes[hub].links[step.targets[j]].node && d.to in net.nodes && d.to != hub
            && d.to != c.env.origin && d.env.id == c.env.id && d.env.origin == c.env.origin
  {
    var c := net.flying[step.i];
    assert c.via in net.nodes[hub].links && net.nodes[hub].links[c.via].node == c.env.origin by {
      assert News(net.nodes, net.flying, hub, step.i);
      assert c in net.flying && Lineage(cfg, net, c);
    }
    PassedOnCopy(cfg, net, step, j);
    OtherWorker(cfg, net.nodes, hub, c.via, step.targets[j]);
  }

  lemma PassedOnSendable(cfg: Config, net: Net, step: Step, hub: PeerId)
    requires Sane(cfg, net, hub) && Enabled(cfg, net, step) && step.Process?
    requires net.flying[step.i].to == hub
    ensures Sendable(Access(cfg, net.nodes, hub, net.flying[step.i].env.id), Added(cfg, net, step), hub,
                     net.flying[step.i].env.id)
  {
    var c, added := net.flying[step.i], Added(cfg, net, step);
    var nodes := Access(cfg, net.nodes, hub, c.env.id);
    AccessAdds(cfg, net.nodes, hub, c.env.id);
    assert News(net.nodes, net.flying, hub, step.i);
    forall j | 0 <= j < |added| ensures added[j].env.id == c.env.id && News(nodes, added, hub, j) {
      HubPassesOn(cfg, net, step, hub, j);
    }
    forall j, k | 0 <= j < k < |added| ensures Apart(added[j], added[k], hub) {
      HubPassesOn(cfg, net, step, hub, j);
      HubPassesOn(cfg, net, step, hub, k);
      assert step.targets[j] != step.targets[k];
    }
  }

  lemma ProcessedNet(cfg: Config, net: Net, step: Step, hub: PeerId)
    requires Sane(cfg, net, hub) && Enabled(cfg, net, step) && step.Process?
    ensures var c, after := net.flying[step.i], Next(cfg, net, step);
            && c.to in net.nodes && after.nodes == Access(cfg, net.nodes, c.to, c.env.id)
            && after.flying == Remove(net.flying, step.i) + Added(cfg, net, step)
            && after.published == net.published + [c] && after.sent == net.sent + Added(cfg, net, step)
  {
    NewsIsPublished(cfg, net, hub, step.i);
    AddedWeight(cfg, net, step, net.flying[step.i].env.id);
  }

  lemma ProcessKeepsNews(cfg: Config, net: Net, step: Step, hub: PeerId)
    requires Sane(cfg, net, hub) && Enabled(cfg, net, step) && step.Process?
    ensures AllNews(Next(cfg, net, step).nodes, Next(cfg, net, step).flying, hub)
  {
    var c, rest, added := net.flying[step.i], Remove(net.flying, step.i), Added(cfg, net, step);
    ProcessedNet(cfg, net, step, hub);
    var nodes := Access(cfg, net.nodes, c.to, c.env.id);
    RemoveKeepsNews(net.nodes, net.flying, hub, step.i);
    AccessAdds(cfg, net.nodes, c.to, c.env.id);
    AccessKeepsNews(net.nodes, nodes, rest, hub, c.to, c.env.id);
    if c.to == hub {
      assert NoneOf(rest, c.env.id);
      PassedOnSendable(cfg, net, step, hub);
      AddKeepsNews(nodes, rest, added, hub, c.env.id);
    } else {
      LeafSendsNothing(cfg, net, step, hub);
      assert rest + added == rest;
    }
  }

  /** What every state of a star-shaped network satisfies. */
  ghost predicate Sane(cfg: Config, net: Net, hub: PeerId) {
    && Traced(cfg, net) && Reach.CachesOk(cfg, net)
    && StarShaped(net.nodes, hub) && AllNews(net.nodes, net.flying, hub)
  }

  lemma StepSane(cfg: Config, net: Net, step: Step, hub: PeerId)
    requires Sane(cfg, net, hub) && Enabled(cfg, net, step)
    ensures Sane(cfg, Next(cfg, net, step), hub)
  {
    StepTraced(cfg, net, step);
    Reach.StepCaches(cfg, net, step);
    WiringKept(cfg, net, step);
    StaysStarShaped(net.nodes, Next(cfg, net, step).nodes, hub);
    match step
    case Broadcast(_, _, _, _) => BroadcastKeepsNews(cfg, net, step, hub);
    case Process(_, _) => ProcessKeepsNews(cfg, net, step, hub);
    case Lose(i) => RemoveKeepsNews(net.nodes, net.flying, hub, i);
  }

  lemma {:induction false} RunSane(cfg: Config, nets: seq<Net>, steps: seq<Step>, k: nat, hub: PeerId)
    requires IsRun(cfg, nets, steps) && StarShaped(nets[0].nodes, hub) && k <= |steps|
    ensures Sane(cfg, nets[k], hub)
  {
    if k == 0 {
    } else {
      RunSane(cfg, nets, steps, k - 1, hub);
      StepSane(cfg, nets[k - 1], steps[k - 1], hub);
    }
  }

  // ----- connections are queues -----------------------------------------------------------------

  /** The copies that go to node n over its connection d, in order. */
  function Channel(q: seq<Copy>, n: PeerId, d: ConnectionId): seq<Copy> {
    if q == [] then []
    else
      var last := q[|q| - 1];
      Channel(q[..|q| - 1], n, d) + if last.to == n && last.via == d then [last] else []
  }

  /** No copy is lost, and each connection delivers its copies in order. */
  ghost predicate Fifo(net: Net, step: Step) {
    && !step.Lose?
    && (step.Process? && step.i < |net.flying| ==>
          forall j :: 0 <= j < step.i ==>
            net.flying[j].to != net.flying[step.i].to || net.flying[j].via != net.flying[step.i].via)
  }

  lemma {:induction false} ChannelConcat(p: seq<Copy>, q: seq<Copy>, n: PeerId, d: ConnectionId)
    ensures Channel(p + q, n, d) == Channel(p, n, d) + Channel(q, n, d)
  {
    if q == [] {
      assert p + q == p;
    } else {
      assert (p + q)[..|p + q| - 1] == p + q[..|q| - 1];
      ChannelConcat(p, q[..|q| - 1], n, d);
    }
  }

  lemma {:induction false} ChannelEmpty(q: seq<Copy>, n: PeerId, d: ConnectionId)
    requires forall j :: 0 <= j < |q| ==> q[j].to != n || q[j].via != d
    ensures Channel(q, n, d) == []
  {
    if q == [] {
    } else {
      ChannelEmpty(q[..|q| - 1], n, d);
    }
  }

  lemma ChannelOne(c: Copy, n: PeerId, d: ConnectionId)
    ensures Channel([c], n, d) == if c.to == n && c.via == d then [c] else []
  {
    assert [c][..0] == [];
  }

  /** If one of the first two parts is empty, they may be exchanged. */
  lemma Exchange<T>(all: seq<T>, front: seq<T>, one: seq<T>, tail: seq<T>, rest: seq<T>, others: seq<T>)
    requires all == front + tail && tail == one + rest && others == front + rest && (front == [] || one == [])
    ensures all == one + others
  {
  }

  lemma ChannelParts(front: seq<Copy>, c: Copy, rest: seq<Copy>, n: PeerId, d: ConnectionId)
    ensures Channel(front + ([c] + rest), n, d) == Channel(front, n, d) + Channel([c] + rest, n, d)
    ensures Channel([c] + rest, n, d) == Channel([c], n, d) + Channel(rest, n, d)
    ensures Channel(front + rest, n, d) == Channel(front, n, d) + Channel(rest, n, d)
  {
    ChannelConcat(front, [c] + rest, n, d);
    ChannelConcat([c], rest, n, d);
    ChannelConcat(front, rest, n, d);
  }

  lemma ChannelCut(front: seq<Copy>, c: Copy, rest: seq<Copy>, n: PeerId, d: ConnectionId)
    requires Channel(front, n, d) == [] || Channel([c], n, d) == []
    ensures Channel(front + ([c] + rest), n, d) == Channel([c], n, d) + Channel(front + rest, n, d)
  {
    ChannelParts(front, c, rest, n, d);
    Exchange(Channel(front + ([c] + rest), n, d), Channel(front, n, d), Channel([c], n, d), Channel([c] + rest, n, d),
             Channel(rest, n, d), Channel(front + rest, n, d));
  }

  lemma Cut(q: seq<Copy>, i: nat)
    requires i < |q|
    ensures q == q[..i] + ([q[i]] + q[i + 1..]) && Remove(q, i) == q[..i] + q[i + 1..]
  {
  }

  /** Taking the first copy of its connection takes it off the front, and leaves other connections alone. */
  lemma ChannelRemove(q: seq<Copy>, i: nat, n: PeerId, d: ConnectionId)
    requires i < |q| && forall j :: 0 <= j < i ==> q[j].to != q[i].to || q[j].via != q[i].via
    ensures Channel(q, n, d) == Channel([q[i]], n, d) + Channel(Remove(q, i), n, d)
  {
    var front, c, rest := q[..i], q[i], q[i + 1..];
    Cut(q, i);
    ChannelOne(c, n, d);
    if c.to == n && c.via == d {
      ChannelEmpty(front, n, d);
    }
    ChannelCut(front, c, rest, n, d);
  }

  ghost predicate Delivers(net: Net, n: PeerId, d: ConnectionId) {
    Channel(net.published, n, d) + Channel(net.flying, n, d) == Channel(net.sent, n, d)
  }

  lemma SentDelivers(net: Net, after: Net, added: seq<Copy>, n: PeerId, d: ConnectionId)
    requires Delivers(net, n, d) && after.published == net.published
    requires after.flying == net.flying + added && after.sent == net.sent + added
    ensures Delivers(after, n, d)
  {
    ChannelConcat(net.flying, added, n, d);
    ChannelConcat(net.sent, added, n, d);
  }

  lemma HandledDelivers(net: Net, after: Net, i: nat, n: PeerId, d: ConnectionId)
    requires Delivers(net, n, d) && i < |net.flying| && after.published == net.published + [net.flying[i]]
    requires after.flying == Remove(net.flying, i) && after.sent == net.sent
    requires forall j :: 0 <= j < i ==>
               net.flying[j].to != net.flying[i].to || net.flying[j].via != net.flying[i].via
    ensures Delivers(after, n, d)
  {
    ChannelRemove(net.flying, i, n, d);
    ChannelConcat(net.published, [net.flying[i]], n, d);
  }

  lemma StepDelivers(cfg: Config, net: Net, step: Step, after: Net, hub: PeerId, n: PeerId, d: ConnectionId)
    requires Sane(cfg, net, hub) && Enabled(cfg, net, step) && after == Next(cfg, net, step)
    requires Fifo(net, step) && Delivers(net, n, d)
    ensures Delivers(after, n, d)
  {
    var added := Added(cfg, net, step);
    if step.Broadcast? {
      AddedByBroadcast(cfg, net, step, step.id);
      SentDelivers(net, after, added, n, d);
    } else {
      ProcessedNet(cfg, net, step, hub);
      var between := net.(published := after.published, flying := Remove(net.flying, step.i));
      HandledDelivers(net, between, step.i, n, d);
      SentDelivers(between, after, added, n, d);
    }
  }

  lemma RunGoes(cfg: Config, nets: seq<Net>, steps: seq<Step>, k: nat)
    requires IsRun(cfg, nets, steps) && k < |steps|
    ensures Enabled(cfg, nets[k], steps[k]) && nets[k + 1] == Next(cfg, nets[k], steps[k])
  {
  }

  lemma StartDelivers(cfg: Config, net: Net, n: PeerId, d: ConnectionId)
    requires Flood.Start(cfg, net)
    ensures Delivers(net, n, d)
  {
  }

  lemma NextDelivers(cfg: Config, nets: seq<Net>, steps: seq<Step>, k: nat, hub: PeerId, n: PeerId, d: ConnectionId)
    requires IsRun(cfg, nets, steps) && StarShaped(nets[0].nodes, hub) && k < |steps| && Fifo(nets[k], steps[k])
    requires Delivers(nets[k], n, d)
    ensures Delivers(nets[k + 1], n, d)
  {
    RunSane(cfg, nets, steps, k, hub);
    RunGoes(cfg, nets, steps, k);
    StepDelivers(cfg, nets[k], steps[k], nets[k + 1], hub, n, d);
  }

  /** Every connection of the star is a queue: what it has delivered and what is still on it is, at any
      time, exactly what was put on it, in order. Nothing is dropped as a duplicate, whatever the size of
      the caches. */
  lemma {:induction false} StarDelivers(cfg: Config, nets: seq<Net>, steps: seq<Step>, k: nat, hub: PeerId,
                                        n: PeerId, d: ConnectionId)
    requires IsRun(cfg, nets, steps) && StarShaped(nets[0].nodes, hub) && k <= |steps|
    requires forall i :: 0 <= i < |steps| ==> Fifo(nets[i], steps[i])
    ensures Delivers(nets[k], n, d)
  {
    if k == 0 {
      StartDelivers(cfg, nets[0], n, d);
    } else {
      StarDelivers(cfg, nets, steps, k - 1, hub, n, d);
      NextDelivers(cfg, nets, steps, k - 1, hub, n, d);
    }
  }

  // ----- the queues of the claim protocol -------------------------------------------------------

  /** What the hub has broadcast and is still on its way to w. */
  function QueueTo(q: seq<Copy>, hub: PeerId, w: PeerId): seq<GossipMessage> {
    if q == [] then []
    else
      var last := q[|q| - 1];
      QueueTo(q[..|q| - 1], hub, w) + if last.to == w && last.env.origin == hub then [last.env.payload] else []
  }

  /** The claims on their way to the hub. */
  function ClaimsTo(q: seq<Copy>, hub: PeerId): Star.Claims {
    if q == [] then multiset{}
    else
      var last := q[|q| - 1];
      ClaimsTo(q[..|q| - 1], hub) + if last.to == hub then Star.ClaimsOf([last.env.payload]) else multiset{}
  }

  ghost function Queues(net: Net, hub: PeerId): Star.Queues {
    map w | w in net.nodes.Keys - {hub} :: QueueTo(net.flying, hub, w)
  }

  /** The message is put on one connection after the other, as the steps of `Star` do. */
  function EnqueueAll(down: Star.Queues, order: seq<PeerId>, msg: GossipMessage): Star.Queues {
    if order == [] then down
    else Star.Enqueue(EnqueueAll(down, order[..|order| - 1], msg), order[|order| - 1], msg)
  }

  /** The nodes behind the picked connections. */
  function Behind(links: map<ConnectionId, End>, targets: seq<ConnectionId>): seq<PeerId>
    requires forall i :: 0 <= i < |targets| ==> targets[i] in links
  {
    seq(|targets|, i requires 0 <= i < |targets| => links[targets[i]].node)
  }

  lemma {:induction false} QueueConcat(p: seq<Copy>, q: seq<Copy>, hub: PeerId, w: PeerId)
    ensures QueueTo(p + q, hub, w) == QueueTo(p, hub, w) + QueueTo(q, hub, w)
    ensures ClaimsTo(p + q, hub) == ClaimsTo(p, hub) + ClaimsTo(q, hub)
  {
    if q == [] {
      assert p + q == p;
    } else {
      assert (p + q)[..|p + q| - 1] == p + q[..|q| - 1];
      QueueConcat(p, q[..|q| - 1], hub, w);
    }
  }

  lemma {:induction false} QueueEmpty(q: seq<Copy>, hub: PeerId, w: PeerId)
    requires forall j :: 0 <= j < |q| ==> q[j].to != w || q[j].env.origin != hub
    ensures QueueTo(q, hub, w) == []
  {
    if q == [] {
    } else {
      QueueEmpty(q[..|q| - 1], hub, w);
    }
  }

  lemma {:induction false} NoClaimsTo(q: seq<Copy>, hub: PeerId)
    requires forall j :: 0 <= j < |q| ==> q[j].to != hub
    ensures ClaimsTo(q, hub) == multiset{}
  {
    if q == [] {
    } else {
      NoClaimsTo(q[..|q| - 1], hub);
    }
  }

  lemma QueueOne(c: Copy, hub: PeerId, w: PeerId)
    ensures QueueTo([c], hub, w) == if c.to == w && c.env.origin == hub then [c.env.payload] else []
    ensures ClaimsTo([c], hub) == if c.to == hub then Star.ClaimsOf([c.env.payload]) else multiset{}
  {
    assert [c][..0] == [];
  }

  lemma QueueParts(front: seq<Copy>, c: Copy, rest: seq<Copy>, hub: PeerId, w: PeerId)
    ensures QueueTo(front + ([c] + rest), hub, w) == QueueTo(front, hub, w) + QueueTo([c] + rest, hub, w)
    ensures QueueTo([c] + rest, hub, w) == QueueTo([c], hub, w) + QueueTo(rest, hub, w)
    ensures QueueTo(front + rest, hub, w) == QueueTo(front, hub, w) + QueueTo(rest, hub, w)
  {
    QueueConcat(front, [c] + rest, hub, w);
    QueueConcat([c], rest, hub, w);
    QueueConcat(front, rest, hub, w);
  }

  lemma QueueCut(front: seq<Copy>, c: Copy, rest: seq<Copy>, hub: PeerId, w: PeerId)
    requires QueueTo(front, hub, w) == [] || QueueTo([c], hub, w) == []
    ensures QueueTo(front + ([c] + rest), hub, w) == QueueTo([c], hub, w) + QueueTo(front + rest, hub, w)
  {
    QueueParts(front, c, rest, hub, w);
    Exchange(QueueTo(front + ([c] + rest), hub, w), QueueTo(front, hub, w), QueueTo([c], hub, w),
             QueueTo([c] + rest, hub, w), QueueTo(rest, hub, w), QueueTo(front + rest, hub, w));
  }

  lemma ClaimsCut(front: seq<Copy>, c: Copy, rest: seq<Copy>, hub: PeerId)
    ensures ClaimsTo(front + ([c] + rest), hub) == ClaimsTo([c], hub) + ClaimsTo(front + rest, hub)
  {
    QueueConcat(front, [c] + rest, hub, hub);
    QueueConcat([c], rest, hub, hub);
    QueueConcat(front, rest, hub, hub);
  }

  lemma QueueRemove(q: seq<Copy>, i: nat, hub: PeerId, w: PeerId)
    requires i < |q| && (q[i].to == w ==> forall j :: 0 <= j < i ==> q[j].to != w)
    ensures QueueTo(q, hub, w) == QueueTo([q[i]], hub, w) + QueueTo(Remove(q, i), hub, w)
  {
    var front, c, rest := q[..i], q[i], q[i + 1..];
    Cut(q, i);
    QueueOne(c, hub, w);
    if c.to == w {
      QueueEmpty(front, hub, w);
    }
    QueueCut(front, c, rest, hub, w);
  }

  lemma ClaimsRemove(q: seq<Copy>, i: nat, hub: PeerId)
    requires i < |q|
    ensures ClaimsTo(q, hub) == ClaimsTo([q[i]], hub) + ClaimsTo(Remove(q, i), hub)
  {
    var front, c, rest := q[..i], q[i], q[i + 1..];
    Cut(q, i);
    ClaimsCut(front, c, rest, hub);
  }

  lemma {:induction false} CopiesEnqueued(down: Star.Queues, links: map<ConnectionId, End>, targets: seq<ConnectionId>,
                                          env: Envelope, route: seq<PeerId>, hub: PeerId, w: PeerId)
    requires (forall i :: 0 <= i < |targets| ==> targets[i] in links) && env.origin == hub && w in down
    ensures EnqueueAll(down, Behind(links, targets), env.payload).Keys == down.Keys
    ensures EnqueueAll(down, Behind(links, targets), env.payload)[w] ==
            down[w] + QueueTo(Copies(links, targets, env, route), hub, w)
  {
    if targets == [] {
    } else {
      var front := targets[..|targets| - 1];
      CopiesEnqueued(down, links, front, env, route, hub, w);
      var order, copies := Behind(links, targets), Copies(links, targets, env, route);
      assert order[..|order| - 1] == Behind(links, front);
      assert copies[..|copies| - 1] == Copies(links, front, env, route);
      var to, before := order[|order| - 1], EnqueueAll(down, Behind(links, front), env.payload);
      assert EnqueueAll(down, order, env.payload) == Star.Enqueue(before, to, env.payload);
      assert QueueTo(copies, hub, w) == QueueTo(Copies(links, front, env, route), hub, w) +
                                        if to == w then [env.payload] else [];
    }
  }

  /** The queues and claims in the network, as `Star` has them. */
  ghost predicate Carries(net: Net, hub: PeerId, down: Star.Queues, claims: Star.Claims) {
    Queues(net, hub) == down && ClaimsTo(net.flying, hub) == claims
  }

  lemma QueuesAre(net: Net, nodes: map<PeerId, Node>, hub: PeerId, down: Star.Queues)
    requires net.nodes.Keys == nodes.Keys && down.Keys == nodes.Keys - {hub}
    requires forall w :: w in down ==> QueueTo(net.flying, hub, w) == down[w]
    ensures Queues(net, hub) == down
  {
  }

  lemma QueuesSame(net: Net, after: Net, hub: PeerId)
    requires after.nodes.Keys == net.nodes.Keys
    requires forall w :: w in net.nodes && w != hub ==> QueueTo(after.flying, hub, w) == QueueTo(net.flying, hub, w)
    ensures Queues(after, hub) == Queues(net, hub)
  {
  }

  /** The queues once the head of one has been taken. */
  lemma QueueTaken(net: Net, after: Net, hub: PeerId, to: PeerId, msg: GossipMessage)
    requires after.nodes.Keys == net.nodes.Keys && to in net.nodes && to != hub
    requires QueueTo(net.flying, hub, to) == [msg] + QueueTo(after.flying, hub, to)
    requires forall w :: w in net.nodes && w != hub && w != to ==>
               QueueTo(after.flying, hub, w) == QueueTo(net.flying, hub, w)
    ensures var down := Queues(net, hub);
            to in down && down[to] != [] && down[to][0] == msg && Queues(after, hub) == down[to := down[to][1..]]
  {
    var down := Queues(net, hub);
    var taken := down[to := down[to][1..]];
    assert down[to][1..] == QueueTo(after.flying, hub, to);
    assert taken.Keys == down.Keys == after.nodes.Keys - {hub};
    QueuesAre(after, after.nodes, hub, taken);
  }

  lemma HubBroadcastQueue(cfg: Config, net: Net, step: Step, hub: PeerId, w: PeerId)
    requires Sane(cfg, net, hub) && Enabled(cfg, net, step) && step.Broadcast? && step.node == hub
    requires w in net.nodes && w != hub
    ensures var down := EnqueueAll(Queues(net, hub), Behind(net.nodes[hub].links, step.targets), step.payload);
            w in down && QueueTo(net.flying + Added(cfg, net, step), hub, w) == down[w]
  {
    var env := Original(cfg.crypto, net.nodes[hub].key, cfg.maxTtl, step.id, step.payload);
    var added := Copies(net.nodes[hub].links, step.targets, env, [hub]);
    assert Added(cfg, net, step) == added;
    CopiesEnqueued(Queues(net, hub), net.nodes[hub].links, step.targets, env, [hub], hub, w);
    QueueConcat(net.flying, added, hub, w);
  }

  lemma HubBroadcastClaims(cfg: Config, net: Net, step: Step, hub: PeerId)
    requires Sane(cfg, net, hub) && Enabled(cfg, net, step) && step.Broadcast? && step.node == hub
    ensures ClaimsTo(net.flying + Added(cfg, net, step), hub) == ClaimsTo(net.flying, hub)
  {
    var added := Added(cfg, net, step);
    forall j | 0 <= j < |added| ensures added[j].to != hub {
      assert step.targets[j] in net.nodes[hub].links;
    }
    NoClaimsTo(added, hub);
    QueueConcat(net.flying, added, hub, hub);
  }

  lemma BroadcastNet(cfg: Config, net: Net, step: Step)
    requires Enabled(cfg, net, step) && step.Broadcast? && Wired(cfg, net.nodes)
    ensures Next(cfg, net, step).flying == net.flying + Added(cfg, net, step)
    ensures Next(cfg, net, step).nodes.Keys == net.nodes.Keys && Next(cfg, net, step).published == net.published
  {
    AddedByBroadcast(cfg, net, step, step.id);
    WiringKept(cfg, net, step);
  }

  /** The hub broadcasts: its message is put on the picked connections, one after the other. */
  lemma HubBroadcasts(cfg: Config, net: Net, step: Step, hub: PeerId)
    requires Sane(cfg, net, hub) && Enabled(cfg, net, step) && step.Broadcast? && step.node == hub
    ensures Carries(Next(cfg, net, step), hub,
                    EnqueueAll(Queues(net, hub), Behind(net.nodes[hub].links, step.targets), step.payload),
                    ClaimsTo(net.flying, hub))
  {
    var after := Next(cfg, net, step);
    var down := EnqueueAll(Queues(net, hub), Behind(net.nodes[hub].links, step.targets), step.payload);
    BroadcastNet(cfg, net, step);
    HubBroadcastClaims(cfg, net, step, hub);
    EnqueueKeys(Queues(net, hub), Behind(net.nodes[hub].links, step.targets), step.payload);
    forall w | w in down ensures QueueTo(after.flying, hub, w) == down[w] {
      HubBroadcastQueue(cfg, net, step, hub, w);
    }
    QueuesAre(after, net.nodes, hub, down);
  }

  lemma {:induction false} EnqueueKeys(down: Star.Queues, order: seq<PeerId>, msg: GossipMessage)
    ensures EnqueueAll(down, order, msg).Keys == down.Keys
  {
    if order == [] {
    } else {
      EnqueueKeys(down, order[..|order| - 1], msg);
    }
  }

  /** A worker's node broadcasts: no queue changes, and a claim is on its way if there is a connection. */
  lemma LeafBroadcasts(cfg: Config, net: Net, step: Step, hub: PeerId)
    requires Sane(cfg, net, hub) && Enabled(cfg, net, step) && step.Broadcast? && step.node != hub
    ensures Carries(Next(cfg, net, step), hub, Queues(net, hub),
                    ClaimsTo(net.flying, hub) +
                    if step.targets == [] then multiset{} else Star.ClaimsOf([step.payload]))
  {
    var after := Next(cfg, net, step);
    BroadcastNet(cfg, net, step);
    LeafBroadcastClaims(cfg, net, step, hub);
    forall w | w in net.nodes && w != hub ensures QueueTo(after.flying, hub, w) == QueueTo(net.flying, hub, w) {
      LeafBroadcastQueue(cfg, net, step, hub, w);
    }
    QueuesSame(net, after, hub);
  }

  lemma LeafBroadcastQueue(cfg: Config, net: Net, step: Step, hub: PeerId, w: PeerId)
    requires Sane(cfg, net, hub) && Enabled(cfg, net, step) && step.Broadcast? && step.node != hub
    ensures QueueTo(net.flying + Added(cfg, net, step), hub, w) == QueueTo(net.flying, hub, w)
  {
    LeafSendsOne(cfg, net, step, hub);
    QueueConcat(net.flying, Added(cfg, net, step), hub, w);
    QueueEmpty(Added(cfg, net, step), hub, w);
  }

  lemma LeafBroadcastClaims(cfg: Config, net: Net, step: Step, hub: PeerId)
    requires Sane(cfg, net, hub) && Enabled(cfg, net, step) && step.Broadcast? && step.node != hub
    ensures ClaimsTo(net.flying + Added(cfg, net, step), hub) ==
            ClaimsTo(net.flying, hub) + if step.targets == [] then multiset{} else Star.ClaimsOf([step.payload])
  {
    var added := Added(cfg, net, step);
    LeafSendsOne(cfg, net, step, hub);
    QueueConcat(net.flying, added, hub, hub);
    if added != [] {
      QueueOne(added[0], hub, hub);
    }
  }

  lemma LeafHasOneTarget(cfg: Config, net: Net, step: Step, hub: PeerId)
    requires Sane(cfg, net, hub) && Enabled(cfg, net, step) && step.Broadcast? && step.node != hub
    ensures |step.targets| <= 1
    ensures step.targets != [] ==>
              step.targets[0] in net.nodes[step.node].links && net.nodes[step.node].links[step.targets[0]].node == hub
  {
    var links := net.nodes[step.node].links;
    assert forall j :: 0 <= j < |step.targets| ==> step.targets[j] in links;
    if |step.targets| >= 2 {
      OneConnection(net.nodes, hub, step.node, step.targets[0], step.targets[1]);
    }
  }

  lemma OneConnection(nodes: map<PeerId, Node>, hub: PeerId, n: PeerId, d: ConnectionId, e: ConnectionId)
    requires StarShaped(nodes, hub) && n in nodes && n != hub && d in nodes[n].links && e in nodes[n].links
    ensures d == e
  {
  }

  lemma LeafSendsOne(cfg: Config, net: Net, step: Step, hub: PeerId)
    requires Sane(cfg, net, hub) && Enabled(cfg, net, step) && step.Broadcast? && step.node != hub
    ensures var added := Added(cfg, net, step);
            && (step.targets == [] <==> added == []) && |added| <= 1
            && (added != [] ==> added == [added[0]] && added[0].to == hub && added[0].env.payload == step.payload)
            && (forall j :: 0 <= j < |added| ==> added[j].env.origin != hub)
  {
    LeafHasOneTarget(cfg, net, step, hub);
    BroadcastAdded(cfg, net, step);
    var added := Added(cfg, net, step);
    assert |added| == |step.targets|;
    assert added != [] ==> added == [added[0]];
  }

  /** A worker's connections are one, so what comes first on it comes first to the worker. */
  lemma FirstToWorker(cfg: Config, net: Net, step: Step, hub: PeerId)
    requires Sane(cfg, net, hub) && Enabled(cfg, net, step) && step.Process? && Fifo(net, step)
    requires net.flying[step.i].to != hub
    ensures forall j :: 0 <= j < step.i ==> net.flying[j].to != net.flying[step.i].to
  {
    var c := net.flying[step.i];
    assert c in net.flying && Lineage(cfg, net, c);
    forall j | 0 <= j < step.i ensures net.flying[j].to != c.to {
      assert net.flying[j] in net.flying && Lineage(cfg, net, net.flying[j]);
    }
  }

  lemma LeafHandlesQueue(cfg: Config, net: Net, step: Step, hub: PeerId, w: PeerId)
    requires Sane(cfg, net, hub) && Enabled(cfg, net, step) && step.Process? && Fifo(net, step)
    requires net.flying[step.i].to != hub
    ensures var c := net.flying[step.i];
            QueueTo(net.flying, hub, w) ==
            (if w == c.to && c.env.origin == hub then [c.env.payload] else []) +
            QueueTo(Remove(net.flying, step.i), hub, w)
  {
    FirstToWorker(cfg, net, step, hub);
    QueueRemove(net.flying, step.i, hub, w);
    QueueOne(net.flying[step.i], hub, w);
  }

  lemma LeafHandled(cfg: Config, net: Net, step: Step, hub: PeerId)
    requires Sane(cfg, net, hub) && Enabled(cfg, net, step) && step.Process? && net.flying[step.i].to != hub
    ensures var after := Next(cfg, net, step);
            && after.published == net.published + [net.flying[step.i]] && net.flying[step.i].to in net.nodes
            && after.flying == Remove(net.flying, step.i) && after.nodes.Keys == net.nodes.Keys
            && ClaimsTo(after.flying, hub) == ClaimsTo(net.flying, hub)
  {
    HandledNet(cfg, net, step, hub);
    NewsIsPublished(cfg, net, hub, step.i);
    LeafSendsNothing(cfg, net, step, hub);
    var rest := Remove(net.flying, step.i);
    assert rest + [] == rest;
    ClaimsRemove(net.flying, step.i, hub);
    QueueOne(net.flying[step.i], hub, hub);
  }

  /** A worker's node handles a copy of a broadcast of the hub: it was the head of the worker's queue, which
      it leaves, and it is delivered. */
  lemma LeafTakes(cfg: Config, net: Net, step: Step, hub: PeerId)
    requires Sane(cfg, net, hub) && Enabled(cfg, net, step) && step.Process? && Fifo(net, step)
    requires net.flying[step.i].to != hub && net.flying[step.i].env.origin == hub
    ensures var c, after, down := net.flying[step.i], Next(cfg, net, step), Queues(net, hub);
            && after.published == net.published + [c]
            && c.to in down && down[c.to] != [] && down[c.to][0] == c.env.payload
            && Carries(after, hub, down[c.to := down[c.to][1..]], ClaimsTo(net.flying, hub))
  {
    var c, after := net.flying[step.i], Next(cfg, net, step);
    LeafHandled(cfg, net, step, hub);
    forall w | w in net.nodes && w != hub
      ensures QueueTo(net.flying, hub, w) == (if w == c.to then [c.env.payload] else []) + QueueTo(after.flying, hub, w)
    {
      LeafHandlesQueue(cfg, net, step, hub, w);
    }
    QueueTaken(net, after, hub, c.to, c.env.payload);
  }

  /** Any other copy it handles is delivered too, and no queue changes. */
  lemma LeafHears(cfg: Config, net: Net, step: Step, hub: PeerId)
    requires Sane(cfg, net, hub) && Enabled(cfg, net, step) && step.Process? && Fifo(net, step)
    requires net.flying[step.i].to != hub && net.flying[step.i].env.origin != hub
    ensures Next(cfg, net, step).published == net.published + [net.flying[step.i]]
    ensures Carries(Next(cfg, net, step), hub, Queues(net, hub), ClaimsTo(net.flying, hub))
  {
    var after := Next(cfg, net, step);
    LeafHandled(cfg, net, step, hub);
    forall w | w in net.nodes && w != hub ensures QueueTo(after.flying, hub, w) == QueueTo(net.flying, hub, w) {
      LeafHandlesQueue(cfg, net, step, hub, w);
    }
    QueuesSame(net, after, hub);
  }

  lemma PassedOnElsewhere(cfg: Config, net: Net, step: Step, hub: PeerId, w: PeerId)
    requires Sane(cfg, net, hub) && Enabled(cfg, net, step) && step.Process? && net.flying[step.i].to == hub
    ensures QueueTo(Added(cfg, net, step), hub, w) == [] && ClaimsTo(Added(cfg, net, step), hub) == multiset{}
  {
    var added := Added(cfg, net, step);
    OriginIsLeaf(cfg, net, step.i, hub);
    forall j | 0 <= j < |added| ensures added[j].to != hub && added[j].env.origin != hub {
      HubPassesOn(cfg, net, step, hub, j);
    }
    QueueEmpty(added, hub, w);
    NoClaimsTo(added, hub);
  }

  lemma HubHandlesQueue(cfg: Config, net: Net, step: Step, hub: PeerId, w: PeerId)
    requires Sane(cfg, net, hub) && Enabled(cfg, net, step) && step.Process? && net.flying[step.i].to == hub
    requires w != hub
    ensures QueueTo(Remove(net.flying, step.i) + Added(cfg, net, step), hub, w) == QueueTo(net.flying, hub, w)
  {
    PassedOnElsewhere(cfg, net, step, hub, w);
    QueueConcat(Remove(net.flying, step.i), Added(cfg, net, step), hub, w);
    QueueRemove(net.flying, step.i, hub, w);
    QueueOne(net.flying[step.i], hub, w);
  }

  lemma HubHandlesClaims(cfg: Config, net: Net, step: Step, hub: PeerId)
    requires Sane(cfg, net, hub) && Enabled(cfg, net, step) && step.Process? && net.flying[step.i].to == hub
    ensures ClaimsTo(net.flying, hub) ==
            ClaimsTo(Remove(net.flying, step.i) + Added(cfg, net, step), hub) +
            Star.ClaimsOf([net.flying[step.i].env.payload])
  {
    PassedOnElsewhere(cfg, net, step, hub, hub);
    QueueConcat(Remove(net.flying, step.i), Added(cfg, net, step), hub, hub);
    ClaimsRemove(net.flying, step.i, hub);
    QueueOne(net.flying[step.i], hub, hub);
  }

  /** The hub handles a copy: it is delivered, a claim is off its way, and no queue changes, though the
      copy is passed on. */
  lemma HubHandles(cfg: Config, net: Net, step: Step, hub: PeerId)
    requires Sane(cfg, net, hub) && Enabled(cfg, net, step) && step.Process?
    requires net.flying[step.i].to == hub
    ensures var c, after := net.flying[step.i], Next(cfg, net, step);
            && after.published == net.published + [c]
            && Queues(after, hub) == Queues(net, hub)
            && ClaimsTo(net.flying, hub) == ClaimsTo(after.flying, hub) + Star.ClaimsOf([c.env.payload])
  {
    var after := Next(cfg, net, step);
    HandledNet(cfg, net, step, hub);
    HubHandlesClaims(cfg, net, step, hub);
    forall w | w in net.nodes && w != hub ensures QueueTo(after.flying, hub, w) == QueueTo(net.flying, hub, w) {
      HubHandlesQueue(cfg, net, step, hub, w);
    }
    QueuesSame(net, after, hub);
  }

  lemma HandledNet(cfg: Config, net: Net, step: Step, hub: PeerId)
    requires Sane(cfg, net, hub) && Enabled(cfg, net, step) && step.Process?
    ensures var after := Next(cfg, net, step);
            && after.published == net.published + [net.flying[step.i]] && after.nodes.Keys == net.nodes.Keys
            && after.flying == Remove(net.flying, step.i) + Added(cfg, net, step)
  {
    ProcessedNet(cfg, net, step, hub);
    WiringKept(cfg, net, step);
  }

  lemma OriginIsLeaf(cfg: Config, net: Net, i: nat, hub: PeerId)
    requires Sane(cfg, net, hub) && i < |net.flying| && net.flying[i].to == hub
    ensures net.flying[i].env.origin != hub
  {
    var c := net.flying[i];
    assert c in net.flying && Lineage(cfg, net, c);
    assert News(net.nodes, net.flying, hub, i);
    assert net.nodes[hub].links[c.via].node == c.env.origin;
  }

  // ----- the flood is the star protocol's network -----------------------------------------------

  /** What a step of the network does to the queues and claims of `Star`. */
  ghost predicate QueueStep(cfg: Config, net: Net, step: Step, hub: PeerId, after: Net)
    requires Enabled(cfg, net, step) && hub in net.nodes
  {
    var down, claims := Queues(net, hub), ClaimsTo(net.flying, hub);
    match step
    case Broadcast(node, _, payload, targets) =>
      if node == hub then
        Carries(after, hub, EnqueueAll(down, Behind(net.nodes[hub].links, targets), payload), claims)
      else
        Carries(after, hub, down, claims + if targets == [] then multiset{} else Star.ClaimsOf([payload]))
    case Process(i, _) =>
      var c := net.flying[i];
      && after.published == net.published + [c]
      && if c.to == hub then
           Queues(after, hub) == down && claims == ClaimsTo(after.flying, hub) + Star.ClaimsOf([c.env.payload])
         else if c.env.origin == hub then
           && c.to in down && down[c.to] != [] && down[c.to][0] == c.env.payload
           && Carries(after, hub, down[c.to := down[c.to][1..]], claims)
         else
           Carries(after, hub, down, claims)
    case Lose(_) => false
  }

  lemma StepIsQueueStep(cfg: Config, net: Net, step: Step, hub: PeerId)
    requires Sane(cfg, net, hub) && Enabled(cfg, net, step) && Fifo(net, step)
    ensures QueueStep(cfg, net, step, hub, Next(cfg, net, step))
  {
    match step
    case Broadcast(node, _, _, _) =>
      if node == hub {
        HubBroadcasts(cfg, net, step, hub);
      } else {
        LeafBroadcasts(cfg, net, step, hub);
      }
    case Process(i, _) =>
      if net.flying[i].to == hub {
        HubHandles(cfg, net, step, hub);
      } else if net.flying[i].env.origin == hub {
        LeafTakes(cfg, net, step, hub);
      } else {
        LeafHears(cfg, net, step, hub);
      }
  }

  /** Flooding over a star of FIFO connections is the network of `Star`. In every step of every run: the
      hub's broadcasts are put at the end of the queues to the workers behind the picked connections; a
      worker is only ever handed the head of its queue, which then leaves it; what workers broadcast is on
      its way to the hub until the hub is handed it; nothing else changes, and nothing handed over is
      dropped, whatever the caches evict. At the start all queues are empty. */
  lemma FloodCarriesStar(cfg: Config, nets: seq<Net>, steps: seq<Step>, k: nat, hub: PeerId)
    requires IsRun(cfg, nets, steps) && StarShaped(nets[0].nodes, hub) && k < |steps|
    requires forall i :: 0 <= i < |steps| ==> Fifo(nets[i], steps[i])
    ensures Enabled(cfg, nets[k], steps[k]) && hub in nets[k].nodes
    ensures QueueStep(cfg, nets[k], steps[k], hub, nets[k + 1])
    ensures ClaimsTo(nets[0].flying, hub) == multiset{} && forall w :: w in Queues(nets[0], hub) ==>
              Queues(nets[0], hub)[w] == []
  {
    RunSane(cfg, nets, steps, k, hub);
    RunGoes(cfg, nets, steps, k);
    StepIsQueueStep(cfg, nets[k], steps[k], hub);
  }
}
