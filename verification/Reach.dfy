/** Where a broadcast gets to when no cache ever evicts its id: how often it is sent and published, and,
    when its copies are processed in order of hops, that it reaches exactly the nodes within max_ttl hops. */
module Reach {
  import opened Core
  import opened Lru
  import opened Gossip
  import opened Flood

  /** The nodes that have accessed m. */
  ghost function Reached(net: Net, m: MessageId): set<PeerId> {
    set n | n in net.nodes && m in net.nodes[n].seen
  }

  // ----- a broadcast that is never evicted ------------------------------------------------------

  /** Caches only hold ids that have been broadcast. */
  ghost predicate CachesOk(cfg: Config, net: Net) {
    cfg.capacity > 0 && forall n :: n in net.nodes ==> forall id :: id in net.nodes[n].seen ==> id in net.origins
  }

  /** No cache evicts m in this step. */
  ghost predicate Keeps(cfg: Config, net: Net, step: Step, m: MessageId)
    requires Enabled(cfg, net, step)
  {
    Reached(net, m) <= Reached(Next(cfg, net, step), m)
  }

  /** No cache ever evicts m, whatever becomes of other ids. */
  ghost predicate NeverEvicted(nets: seq<Net>, m: MessageId) {
    forall k :: 0 <= k < |nets| - 1 ==> Reached(nets[k], m) <= Reached(nets[k + 1], m)
  }

  lemma TouchMembers(q: seq<MessageId>, id: MessageId, capacity: nat)
    requires capacity > 0
    ensures id in Touch(q, id, capacity)
    ensures forall x :: x in Touch(q, id, capacity) ==> x == id || x in q
  {
    assert Touch(q, id, capacity)[0] == id;
  }

  /** The node whose cache a step accesses for m, if any. */
  ghost function Accessed(cfg: Config, net: Net, step: Step, m: MessageId): set<PeerId> {
    match step
    case Broadcast(node, id, _, _) => if id == m then {node} else {}
    case Process(i, _) =>
      if i < |net.flying| && net.flying[i].env.id == m && net.flying[i].env.Verify(cfg.crypto) then
        {net.flying[i].to}
      else {}
    case Lose(_) => {}
  }

  lemma StepCaches(cfg: Config, net: Net, step: Step)
    requires Traced(cfg, net) && CachesOk(cfg, net) && Enabled(cfg, net, step)
    ensures CachesOk(cfg, Next(cfg, net, step))
  {
    match step
    case Broadcast(node, id, _, _) => TouchMembers(net.nodes[node].seen, id, cfg.capacity);
    case Process(i, _) =>
      var c := net.flying[i];
      assert c in net.flying && Lineage(cfg, net, c);
      TouchMembers(net.nodes[c.to].seen, c.env.id, cfg.capacity);
    case Lose(_) =>
  }

  /** As long as m is not evicted, it has reached the nodes that have accessed it. */
  lemma StepReaches(cfg: Config, net: Net, step: Step, m: MessageId)
    requires Enabled(cfg, net, step) && cfg.capacity > 0 && Keeps(cfg, net, step, m)
    ensures Reached(Next(cfg, net, step), m) == Reached(net, m) + Accessed(cfg, net, step, m)
  {
    var before, after := Reached(net, m), Reached(Next(cfg, net, step), m);
    match step
    case Broadcast(node, id, _, _) => TouchMembers(net.nodes[node].seen, id, cfg.capacity);
    case Process(i, _) =>
      var c := net.flying[i];
      TouchMembers(net.nodes[c.to].seen, c.env.id, cfg.capacity);
    case Lose(_) =>
  }

  lemma {:induction false} RunCaches(cfg: Config, nets: seq<Net>, steps: seq<Step>, k: nat)
    requires IsRun(cfg, nets, steps) && k <= |steps|
    ensures CachesOk(cfg, nets[k])
  {
    if k == 0 {
    } else {
      RunCaches(cfg, nets, steps, k - 1);
      RunTraced(cfg, nets, steps, k - 1);
      StepCaches(cfg, nets[k - 1], steps[k - 1]);
    }
  }

  lemma RunKeeps(cfg: Config, nets: seq<Net>, steps: seq<Step>, k: nat, m: MessageId)
    requires IsRun(cfg, nets, steps) && NeverEvicted(nets, m) && k < |steps|
    ensures Keeps(cfg, nets[k], steps[k], m)
  {
    assert nets[k + 1] == Next(cfg, nets[k], steps[k]);
  }

  // ----- each node publishes and sends once -----------------------------------------------------

  function Publications(q: seq<Copy>, n: PeerId, m: MessageId): nat {
    if q == [] then 0
    else Publications(q[..|q| - 1], n, m) + if q[|q| - 1].to == n && q[|q| - 1].env.id == m then 1 else 0
  }

  /** How often n should have published m by now. */
  ghost function Due(net: Net, n: PeerId, m: MessageId): nat {
    if m in net.origins && n in Reached(net, m) && n != net.origins[m].origin then 1 else 0
  }

  ghost predicate PublishedOnce(net: Net, m: MessageId) {
    forall n: PeerId :: Publications(net.published, n, m) == Due(net, n, m)
  }

  /** A broadcast has reached its origin, and nobody before it is made. */
  ghost predicate OriginReached(net: Net, m: MessageId) {
    if m in net.origins then net.origins[m].origin in Reached(net, m) else Reached(net, m) == {}
  }

  lemma BroadcastOrigin(cfg: Config, net: Net, step: Step, m: MessageId)
    requires Wired(cfg, net.nodes) && Enabled(cfg, net, step) && step.Broadcast? && cfg.capacity > 0
    requires OriginReached(net, m) && Keeps(cfg, net, step, m)
    ensures OriginReached(Next(cfg, net, step), m)
    ensures forall n: PeerId :: Due(Next(cfg, net, step), n, m) == Due(net, n, m)
  {
    StepReaches(cfg, net, step, m);
    var after := Next(cfg, net, step);
    if step.id == m {
      assert Reached(after, m) == {step.node};
      assert after.origins[m].origin == step.node;
    } else {
      assert Reached(after, m) == Reached(net, m);
    }
  }

  lemma ProcessOrigin(cfg: Config, net: Net, step: Step, m: MessageId)
    requires Traced(cfg, net) && Enabled(cfg, net, step) && step.Process? && cfg.capacity > 0
    requires OriginReached(net, m) && Keeps(cfg, net, step, m)
    ensures OriginReached(Next(cfg, net, step), m)
    ensures Handles(net, step, m) ==> m in net.origins
  {
    StepReaches(cfg, net, step, m);
    assert net.flying[step.i] in net.flying && Lineage(cfg, net, net.flying[step.i]);
  }

  ghost predicate PublishesOf(cfg: Config, net: Net, step: Step, m: MessageId)
    requires Enabled(cfg, net, step) && step.Process?
  {
    net.flying[step.i].env.id == m && Publishes(cfg, net, net.flying[step.i])
  }

  /** A node publishes a copy of m exactly when m has not reached it. */
  lemma PublishesFirst(cfg: Config, net: Net, step: Step, m: MessageId)
    requires Traced(cfg, net) && Enabled(cfg, net, step) && step.Process?
    ensures PublishesOf(cfg, net, step, m) <==> Handles(net, step, m) && net.flying[step.i].to !in Reached(net, m)
    ensures Accessed(cfg, net, step, m) == if Handles(net, step, m) then {net.flying[step.i].to} else {}
  {
    assert net.flying[step.i] in net.flying && Lineage(cfg, net, net.flying[step.i]);
  }

  lemma ProcessPublications(cfg: Config, net: Net, step: Step, n: PeerId, m: MessageId)
    requires Enabled(cfg, net, step) && step.Process?
    ensures Publications(Next(cfg, net, step).published, n, m) == Publications(net.published, n, m) +
              if PublishesOf(cfg, net, step, m) && n == net.flying[step.i].to then 1 else 0
  {
    var published, c := Next(cfg, net, step).published, net.flying[step.i];
    if Publishes(cfg, net, c) {
      assert published == net.published + [c];
      assert published[..|published| - 1] == net.published;
    }
  }

  lemma ProcessDue(cfg: Config, net: Net, step: Step, n: PeerId, m: MessageId)
    requires Traced(cfg, net) && Enabled(cfg, net, step) && step.Process? && cfg.capacity > 0
    requires OriginReached(net, m) && Keeps(cfg, net, step, m)
    ensures Due(Next(cfg, net, step), n, m) == Due(net, n, m) +
              if PublishesOf(cfg, net, step, m) && n == net.flying[step.i].to then 1 else 0
  {
    StepReaches(cfg, net, step, m);
    PublishesFirst(cfg, net, step, m);
    ProcessOrigin(cfg, net, step, m);
  }

  lemma StepPublishedOnce(cfg: Config, net: Net, step: Step, m: MessageId)
    requires Traced(cfg, net) && Enabled(cfg, net, step) && cfg.capacity > 0
    requires OriginReached(net, m) && Keeps(cfg, net, step, m) && PublishedOnce(net, m)
    ensures OriginReached(Next(cfg, net, step), m) && PublishedOnce(Next(cfg, net, step), m)
  {
    match step
    case Broadcast(_, _, _, _) => BroadcastOrigin(cfg, net, step, m);
    case Process(_, _) =>
      ProcessOrigin(cfg, net, step, m);
      forall n: PeerId
        ensures Publications(Next(cfg, net, step).published, n, m) == Due(Next(cfg, net, step), n, m)
      {
        ProcessPublications(cfg, net, step, n, m);
        ProcessDue(cfg, net, step, n, m);
      }
    case Lose(_) => StepReaches(cfg, net, step, m);
  }

  lemma {:induction false} RunPublishedOnce(cfg: Config, nets: seq<Net>, steps: seq<Step>, k: nat, m: MessageId)
    requires IsRun(cfg, nets, steps) && NeverEvicted(nets, m) && k <= |steps|
    ensures OriginReached(nets[k], m) && PublishedOnce(nets[k], m)
  {
    if k == 0 {
      assert Reached(nets[0], m) == {};
    } else {
      RunPublishedOnce(cfg, nets, steps, k - 1, m);
      RunTraced(cfg, nets, steps, k - 1);
      RunKeeps(cfg, nets, steps, k - 1, m);
      StepPublishedOnce(cfg, nets[k - 1], steps[k - 1], m);
    }
  }

  /** How many copies a step sends of m. */
  ghost function SentBy(cfg: Config, net: Net, step: Step, m: MessageId): nat
    requires Enabled(cfg, net, step)
  {
    if step.Lose? then 0 else Count(Added(cfg, net, step), m)
  }

  lemma SilentUnlessPublished(cfg: Config, net: Net, step: Step)
    requires Enabled(cfg, net, step) && step.Process? && !Publishes(cfg, net, net.flying[step.i])
    ensures Added(cfg, net, step) == []
  {
  }

  lemma BroadcastSends(cfg: Config, net: Net, step: Step, m: MessageId)
    requires Enabled(cfg, net, step) && cfg.capacity > 0 && step.Broadcast?
    requires OriginReached(net, m) && Keeps(cfg, net, step, m)
    ensures |Reached(Next(cfg, net, step), m)| == |Reached(net, m)| + if step.id == m then 1 else 0
    ensures SentBy(cfg, net, step, m) <= if step.id == m then cfg.fanout else 0
  {
    assert Reached(Next(cfg, net, step), m) == Reached(net, m) + if step.id == m then {step.node} else {} by {
      StepReaches(cfg, net, step, m);
    }
    AddedByBroadcast(cfg, net, step, m);
  }

  lemma ProcessReaches(cfg: Config, net: Net, step: Step, m: MessageId)
    requires Traced(cfg, net) && Enabled(cfg, net, step) && cfg.capacity > 0 && step.Process?
    requires Keeps(cfg, net, step, m)
    ensures |Reached(Next(cfg, net, step), m)| == |Reached(net, m)| + if PublishesOf(cfg, net, step, m) then 1 else 0
  {
    var before, to := Reached(net, m), net.flying[step.i].to;
    StepReaches(cfg, net, step, m);
    PublishesFirst(cfg, net, step, m);
    if !PublishesOf(cfg, net, step, m) {
      assert before + Accessed(cfg, net, step, m) == before;
    }
  }

  lemma ProcessSends(cfg: Config, net: Net, step: Step, m: MessageId)
    requires Enabled(cfg, net, step) && step.Process?
    ensures SentBy(cfg, net, step, m) <= if PublishesOf(cfg, net, step, m) then cfg.fanout else 0
  {
    AddedWeight(cfg, net, step, m);
    if !Publishes(cfg, net, net.flying[step.i]) {
      SilentUnlessPublished(cfg, net, step);
    }
  }

  /** Only a node newly reached sends copies of m, and at most `fanout` of them. */
  lemma SendsWhenReached(cfg: Config, net: Net, step: Step, m: MessageId)
    requires Traced(cfg, net) && Enabled(cfg, net, step) && cfg.capacity > 0
    requires OriginReached(net, m) && Keeps(cfg, net, step, m)
    ensures var more := |Reached(Next(cfg, net, step), m)| - |Reached(net, m)|;
            (more == 0 && SentBy(cfg, net, step, m) == 0) || (more == 1 && SentBy(cfg, net, step, m) <= cfg.fanout)
  {
    match step
    case Broadcast(_, _, _, _) => BroadcastSends(cfg, net, step, m);
    case Process(_, _) =>
      ProcessReaches(cfg, net, step, m);
      ProcessSends(cfg, net, step, m);
    case Lose(_) => assert Reached(Next(cfg, net, step), m) == Reached(net, m);
  }

  lemma SentGrows(cfg: Config, net: Net, step: Step, m: MessageId)
    requires Enabled(cfg, net, step)
    ensures Count(Next(cfg, net, step).sent, m) == Count(net.sent, m) + SentBy(cfg, net, step, m)
  {
    match step
    case Lose(_) =>
    case _ =>
      assert Next(cfg, net, step).sent == net.sent + Added(cfg, net, step);
      TotalConcat(net.sent, Added(cfg, net, step), m, cfg.fanout);
  }

  lemma OneMoreNode(count: nat, added: nat, f: nat, r: nat, r': nat)
    requires count <= f * r
    requires (r' == r && added == 0) || (r' == r + 1 && added <= f)
    ensures count + added <= f * r'
  {
    Distribute(f, r, 1);
  }

  lemma {:induction false} RunSentOnce(cfg: Config, nets: seq<Net>, steps: seq<Step>, k: nat, m: MessageId)
    requires IsRun(cfg, nets, steps) && NeverEvicted(nets, m) && k <= |steps|
    ensures Count(nets[k].sent, m) <= cfg.fanout * |Reached(nets[k], m)|
  {
    if k == 0 {
      assert Reached(nets[0], m) == {};
    } else {
      RunSentOnce(cfg, nets, steps, k - 1, m);
      RunTraced(cfg, nets, steps, k - 1);
      RunPublishedOnce(cfg, nets, steps, k - 1, m);
      RunKeeps(cfg, nets, steps, k - 1, m);
      StepSentOnce(cfg, nets[k - 1], steps[k - 1], m);
    }
  }

  lemma StepSentOnce(cfg: Config, net: Net, step: Step, m: MessageId)
    requires Traced(cfg, net) && Enabled(cfg, net, step) && cfg.capacity > 0
    requires OriginReached(net, m) && Keeps(cfg, net, step, m)
    requires Count(net.sent, m) <= cfg.fanout * |Reached(net, m)|
    ensures Count(Next(cfg, net, step).sent, m) <= cfg.fanout * |Reached(Next(cfg, net, step), m)|
  {
    SendsWhenReached(cfg, net, step, m);
    OneMoreNode(Count(net.sent, m), SentBy(cfg, net, step, m), cfg.fanout, |Reached(net, m)|,
                |Reached(Next(cfg, net, step), m)|);
    SentGrows(cfg, net, step, m);
  }

  lemma Scale(f: nat, r: nat, n: nat)
    requires r <= n
    ensures f * r <= f * n
  {
    Distribute(f, r, n - r);
  }

  /** No node sends a broadcast more than once, nor publishes it more than once: if its id is never
      evicted, a broadcast is sent at most fanout times the number of nodes, and is published once by
      each node it reaches except its origin, which never publishes it. */
  lemma OncePerNodeBound(cfg: Config, nets: seq<Net>, steps: seq<Step>, k: nat, m: MessageId)
    requires IsRun(cfg, nets, steps) && NeverEvicted(nets, m) && k <= |steps| && m in nets[k].origins
    ensures Count(nets[k].sent, m) <= cfg.fanout * |nets[k].nodes.Keys|
    ensures forall n: PeerId :: Publications(nets[k].published, n, m) ==
              if n in Reached(nets[k], m) && n != nets[k].origins[m].origin then 1 else 0
  {
    var reached := |Reached(nets[k], m)|;
    assert reached <= |nets[k].nodes.Keys| by {
      SubsetSize(Reached(nets[k], m), nets[k].nodes.Keys);
    }
    Scale(cfg.fanout, reached, |nets[k].nodes.Keys|);
    RunSentOnce(cfg, nets, steps, k, m);
    RunPublishedOnce(cfg, nets, steps, k, m);
  }

  // ----- when m is evicted ----------------------------------------------------------------------

  lemma {:induction false} AccessedIsReached(cfg: Config, nets: seq<Net>, steps: seq<Step>, k: nat, m: MessageId,
                                             n: PeerId)
    requires IsRun(cfg, nets, steps) && NeverEvicted(nets, m) && k <= |steps| && n in nets[k].nodes
    requires m in Accesses(cfg, nets, steps, k, n)
    ensures n in Reached(nets[k], m)
  {
    if k == 0 {
    } else {
      var net, step := nets[k - 1], steps[k - 1];
      NodeWasThere(cfg, nets, steps, k - 1, n);
      var now := AccessBy(cfg, net, step, n);
      if m in now {
        CacheStep(cfg, net, step, n);
        TouchMembers(net.nodes[n].seen, m, cfg.capacity);
      } else {
        AccessedIsReached(cfg, nets, steps, k - 1, m, n);
      }
    }
  }

  lemma ReachedIff(cfg: Config, nets: seq<Net>, steps: seq<Step>, k: nat, m: MessageId, n: PeerId)
    requires IsRun(cfg, nets, steps) && k <= |steps| && n in nets[k].nodes
    ensures var h := Accesses(cfg, nets, steps, k, n);
            n in Reached(nets[k], m) <==> m in h && |Since(h, m)| < cfg.capacity
  {
    CacheFollowsAccesses(cfg, nets, steps, k, n);
    CachedIff(Accesses(cfg, nets, steps, k, n), m, cfg.capacity);
  }

  /** Unless m is evicted by step k, its reach only grows there. */
  lemma StaysReached(cfg: Config, nets: seq<Net>, steps: seq<Step>, k: nat, m: MessageId, n: PeerId)
    requires IsRun(cfg, nets, steps) && k < |steps| && n in Reached(nets[k], m)
    requires n in nets[k + 1].nodes && m in Accesses(cfg, nets, steps, k + 1, n) ==>
               |Since(Accesses(cfg, nets, steps, k + 1, n), m)| < cfg.capacity
    ensures n in Reached(nets[k + 1], m)
  {
    assert n in nets[k + 1].nodes by {
      RunTraced(cfg, nets, steps, k);
      WiringKept(cfg, nets[k], steps[k]);
    }
    ReachedIff(cfg, nets, steps, k, m, n);
    ReachedIff(cfg, nets, steps, k + 1, m, n);
    assert m in Accesses(cfg, nets, steps, k + 1, n);
  }

  /** No node ever accesses `capacity` distinct other ids after its last access to m. */
  ghost predicate AccessesStayClose(cfg: Config, nets: seq<Net>, steps: seq<Step>, m: MessageId)
    requires |nets| == |steps| + 1
  {
    forall k: nat, n :: k <= |steps| && n in nets[k].nodes && m in Accesses(cfg, nets, steps, k, n) ==>
      |Since(Accesses(cfg, nets, steps, k, n), m)| < cfg.capacity
  }

  /** An id is never evicted exactly when no node ever accesses `capacity` distinct other ids after its
      last access to it. */
  lemma NeverEvictedIff(cfg: Config, nets: seq<Net>, steps: seq<Step>, m: MessageId)
    requires IsRun(cfg, nets, steps)
    ensures NeverEvicted(nets, m) <==> AccessesStayClose(cfg, nets, steps, m)
  {
    if NeverEvicted(nets, m) {
      forall k: nat, n | k <= |steps| && n in nets[k].nodes && m in Accesses(cfg, nets, steps, k, n)
        ensures |Since(Accesses(cfg, nets, steps, k, n), m)| < cfg.capacity
      {
        AccessedIsReached(cfg, nets, steps, k, m, n);
        ReachedIff(cfg, nets, steps, k, m, n);
      }
    }
    if AccessesStayClose(cfg, nets, steps, m) {
      forall k | 0 <= k < |nets| - 1 ensures Reached(nets[k], m) <= Reached(nets[k + 1], m) {
        forall n | n in Reached(nets[k], m) ensures n in Reached(nets[k + 1], m) {
          StaysReached(cfg, nets, steps, k, m, n);
        }
      }
    }
  }

  // ----- the ball -------------------------------------------------------------------------------

  type Edges = set<(PeerId, PeerId)>

  /** Who is connected to whom. */
  ghost function EdgesOf(nodes: map<PeerId, Node>): Edges {
    set n, d | n in nodes && d in nodes[n].links :: (n, nodes[n].links[d].node)
  }

  lemma LinkedIsEdge(nodes: map<PeerId, Node>, u: PeerId, v: PeerId)
    ensures Linked(nodes, u, v) <==> (u, v) in EdgesOf(nodes)
  {
  }

  lemma EdgesKept(nodes: map<PeerId, Node>, after: map<PeerId, Node>)
    requires SameWiring(nodes, after)
    ensures EdgesOf(nodes) == EdgesOf(after)
  {
  }

  ghost function Neighbours(edges: Edges, from: set<PeerId>): set<PeerId> {
    set e | e in edges && e.0 in from :: e.1
  }

  /** The nodes at most k connections away from o. */
  ghost function Ball(edges: Edges, o: PeerId, k: nat): set<PeerId> {
    if k == 0 then {o} else Ball(edges, o, k - 1) + Neighbours(edges, Ball(edges, o, k - 1))
  }

  lemma OneStepOut(edges: Edges, o: PeerId, k: nat, u: PeerId, v: PeerId)
    requires u in Ball(edges, o, k) && (u, v) in edges
    ensures v in Ball(edges, o, k + 1)
  {
    assert (u, v).0 in Ball(edges, o, k) && (u, v).1 in Neighbours(edges, Ball(edges, o, k));
  }

  lemma {:induction false} BallGrows(edges: Edges, o: PeerId, k: nat, n: nat)
    requires k <= n
    ensures Ball(edges, o, k) <= Ball(edges, o, n)
  {
    if k == n {
    } else {
      BallGrows(edges, o, k, n - 1);
    }
  }

  lemma {:induction false} PathInBall(nodes: map<PeerId, Node>, path: seq<PeerId>, i: nat)
    requires IsPath(nodes, path) && i < |path|
    ensures path[i] in Ball(EdgesOf(nodes), path[0], i)
  {
    if i == 0 {
    } else {
      PathInBall(nodes, path, i - 1);
      assert Linked(nodes, path[i - 1], path[i]);
      LinkedIsEdge(nodes, path[i - 1], path[i]);
      OneStepOut(EdgesOf(nodes), path[0], i - 1, path[i - 1], path[i]);
    }
  }

  /** In any run whatsoever, a broadcast is only published within max_ttl hops of its origin. */
  lemma PublishedWithinBall(cfg: Config, nets: seq<Net>, steps: seq<Step>, k: nat, c: Copy)
    requires IsRun(cfg, nets, steps) && k <= |steps| && c in nets[k].published
    ensures c.to in Ball(EdgesOf(nets[0].nodes), c.env.origin, MaxHops(cfg))
  {
    RunTraced(cfg, nets, steps, k);
    RunWiring(cfg, nets, steps, k);
    EdgesKept(nets[0].nodes, nets[k].nodes);
    PathInBall(nets[k].nodes, c.route + [c.to], |c.route|);
    BallGrows(EdgesOf(nets[k].nodes), c.env.origin, |c.route|, MaxHops(cfg));
  }

  lemma WiringTransitive(nodes: map<PeerId, Node>, between: map<PeerId, Node>, after: map<PeerId, Node>)
    requires SameWiring(nodes, between) && SameWiring(between, after)
    ensures SameWiring(nodes, after)
  {
  }

  lemma {:induction false} RunWiring(cfg: Config, nets: seq<Net>, steps: seq<Step>, k: nat)
    requires IsRun(cfg, nets, steps) && k <= |steps|
    ensures SameWiring(nets[0].nodes, nets[k].nodes)
  {
    if k == 0 {
    } else {
      RunWiring(cfg, nets, steps, k - 1);
      RunTraced(cfg, nets, steps, k - 1);
      WiringKept(cfg, nets[k - 1], steps[k - 1]);
      WiringTransitive(nets[0].nodes, nets[k - 1].nodes, nets[k].nodes);
    }
  }

  // ----- the front of a flood -------------------------------------------------------------------

  predicate IsFlying(net: Net, m: MessageId, c: Copy) {
    c in net.flying && c.env.id == m
  }

  /** A copy of m is on its way to v, sent h times so far. */
  ghost predicate Aimed(net: Net, m: MessageId, v: PeerId, h: nat) {
    exists c :: IsFlying(net, m, c) && c.to == v && |c.route| == h
  }

  ghost predicate LastSenderReached(net: Net, m: MessageId, c: Copy) {
    c.route != [] && c.route[|c.route| - 1] in Reached(net, m)
  }

  ghost predicate CopyNear(edges: Edges, net: Net, m: MessageId, o: PeerId, L: nat, c: Copy) {
    L <= |c.route| <= L + 1 && c.to in Ball(edges, o, |c.route|) && LastSenderReached(net, m, c)
  }

  /** Copies in flight have been sent L or L + 1 times, and are that close to o. */
  ghost predicate FlyingNear(edges: Edges, net: Net, m: MessageId, o: PeerId, L: nat) {
    forall c :: IsFlying(net, m, c) ==> CopyNear(edges, net, m, o, L, c)
  }

  /** A copy is on its way to every node at distance L that has not been reached. */
  ghost predicate AimedAll(edges: Edges, net: Net, m: MessageId, o: PeerId, L: nat) {
    forall v :: v in Ball(edges, o, L) && v !in Reached(net, m) ==> Aimed(net, m, v, L)
  }

  /** The nodes reached at distance L have sent copies on to all their neighbours. */
  ghost predicate SentOn(edges: Edges, net: Net, m: MessageId, o: PeerId, L: nat)
    requires L >= 1
  {
    forall u, v :: u in Reached(net, m) && u !in Ball(edges, o, L - 1) && (u, v) in edges ==>
      v in Reached(net, m) || Aimed(net, m, v, L + 1)
  }

  /** The flood is at distance L. */
  ghost predicate Frontier(cfg: Config, edges: Edges, net: Net, m: MessageId, o: PeerId, L: nat) {
    && 1 <= L <= MaxHops(cfg)
    && Ball(edges, o, L - 1) <= Reached(net, m) <= Ball(edges, o, L)
    && FlyingNear(edges, net, m, o, L)
    && AimedAll(edges, net, m, o, L)
    && (L < MaxHops(cfg) ==> SentOn(edges, net, m, o, L))
  }

  /** Once no copy at distance L is left, the flood is at distance L + 1. */
  lemma FrontierAdvances(cfg: Config, edges: Edges, net: Net, m: MessageId, o: PeerId, L: nat)
    requires Frontier(cfg, edges, net, m, o, L) && L < MaxHops(cfg)
    requires forall c :: IsFlying(net, m, c) ==> |c.route| != L
    ensures Frontier(cfg, edges, net, m, o, L + 1)
  {
    assert forall v :: !Aimed(net, m, v, L);
    assert Ball(edges, o, L) == Reached(net, m);
    forall v | v in Ball(edges, o, L + 1) && v !in Reached(net, m) ensures Aimed(net, m, v, L + 1) {
      var u :| u in Ball(edges, o, L) && (u, v) in edges;
      assert u in Ball(edges, o, L - 1) ==> v in Ball(edges, o, L);
    }
  }

  lemma {:induction false} FrontierEnds(cfg: Config, edges: Edges, net: Net, m: MessageId, o: PeerId,
                                        L: nat)
    requires Frontier(cfg, edges, net, m, o, L)
    requires forall c :: !IsFlying(net, m, c)
    ensures Reached(net, m) == Ball(edges, o, MaxHops(cfg))
    decreases MaxHops(cfg) - L
  {
    if L == MaxHops(cfg) {
      assert forall v :: !Aimed(net, m, v, L);
    } else {
      FrontierAdvances(cfg, edges, net, m, o, L);
      FrontierEnds(cfg, edges, net, m, o, L + 1);
    }
  }

  // ----- the flood begins -----------------------------------------------------------------------

  /** Copies of m to all neighbours of n but the one behind connection `except`. */
  lemma CopiesReachNeighbours(net: Net, n: PeerId, targets: seq<ConnectionId>, fanout: nat,
                              except: Option<ConnectionId>, env: Envelope, route: seq<PeerId>, v: PeerId)
    returns (c: Copy)
    requires n in net.nodes && |Eligible(net.nodes[n].links.Keys, except)| <= fanout
    requires Picked(Eligible(net.nodes[n].links.Keys, except), fanout, targets)
    requires Linked(net.nodes, n, v)
    requires except.Some? && except.value in net.nodes[n].links ==> net.nodes[n].links[except.value].node != v
    ensures c in Copies(net.nodes[n].links, targets, env, route) && c.to == v && c.env == env && c.route == route
  {
    var links := net.nodes[n].links;
    var d :| d in links && links[d].node == v;
    PickedAll(Eligible(links.Keys, except), fanout, targets);
    assert d in Eligible(links.Keys, except);
    var k :| 0 <= k < |targets| && targets[k] == d;
    c := Copies(links, targets, env, route)[k];
  }

  /** Every node has at most `fanout` connections besides the one a copy comes from. */
  ghost predicate SmallDegrees(cfg: Config, nodes: map<PeerId, Node>) {
    forall n :: n in nodes ==> |nodes[n].links.Keys| <= cfg.fanout + 1
  }

  /** The origin of a broadcast has at most `fanout` connections. */
  ghost predicate SmallOrigin(cfg: Config, nodes: map<PeerId, Node>, o: PeerId) {
    o in nodes ==> |nodes[o].links.Keys| <= cfg.fanout
  }

  lemma OneLessEligible(connections: set<ConnectionId>, via: ConnectionId)
    requires via in connections
    ensures |Eligible(connections, Some(via))| == |connections| - 1
  {
    assert Eligible(connections, Some(via)) == connections - {via};
  }

  lemma BroadcastReaches(cfg: Config, net: Net, step: Step)
    requires CachesOk(cfg, net) && Enabled(cfg, net, step) && step.Broadcast?
    ensures Reached(Next(cfg, net, step), step.id) == {step.node}
  {
    assert Reached(net, step.id) == {};
    StepReaches(cfg, net, step, step.id);
  }

  /** A copy came over a connection from its last sender. */
  lemma LastHop(cfg: Config, net: Net, c: Copy)
    requires Lineage(cfg, net, c)
    ensures (c.route[|c.route| - 1], c.to) in EdgesOf(net.nodes)
  {
    var path := c.route + [c.to];
    assert Linked(net.nodes, path[|path| - 2], path[|path| - 1]);
    LinkedIsEdge(net.nodes, path[|path| - 2], path[|path| - 1]);
  }

  lemma BroadcastFlies(cfg: Config, net: Net, step: Step, c: Copy)
    requires Traced(cfg, net) && Enabled(cfg, net, step) && step.Broadcast?
    requires IsFlying(Next(cfg, net, step), step.id, c)
    ensures c.route == [step.node] && c.to in Ball(EdgesOf(net.nodes), step.node, 1)
  {
    assert c !in net.flying by {
      assert forall d :: d in net.flying ==> Lineage(cfg, net, d);
    }
    BroadcastTraced(cfg, net, step, c);
    assert c.route == [step.node];
    assert (step.node, c.to) in EdgesOf(net.nodes) by {
      WiringKept(cfg, net, step);
      LastHop(cfg, Next(cfg, net, step), c);
      EdgesKept(net.nodes, Next(cfg, net, step).nodes);
    }
    OneStepOut(EdgesOf(net.nodes), step.node, 0, step.node, c.to);
  }

  lemma BroadcastAims(cfg: Config, net: Net, step: Step, v: PeerId)
    requires Traced(cfg, net) && Enabled(cfg, net, step) && step.Broadcast? && SmallOrigin(cfg, net.nodes, step.node)
    requires Linked(net.nodes, step.node, v)
    ensures Aimed(Next(cfg, net, step), step.id, v, 1)
  {
    var links := net.nodes[step.node].links;
    var env := Original(cfg.crypto, net.nodes[step.node].key, cfg.maxTtl, step.id, step.payload);
    assert Eligible(links.Keys, None) == links.Keys;
    var c := CopiesReachNeighbours(net, step.node, step.targets, cfg.fanout, None, env, [step.node], v);
    assert IsFlying(Next(cfg, net, step), step.id, c);
  }

  /** What a broadcast sets going: copies from its origin to all neighbours. */
  lemma FrontierStarts(cfg: Config, edges: Edges, net: Net, m: MessageId, o: PeerId)
    requires Reached(net, m) == {o}
    requires forall c :: IsFlying(net, m, c) ==> c.route == [o] && c.to in Ball(edges, o, 1)
    requires forall v :: (o, v) in edges ==> Aimed(net, m, v, 1)
    ensures Frontier(cfg, edges, net, m, o, 1)
  {
    assert Ball(edges, o, 0) == {o};
    forall v | v in Ball(edges, o, 1) && v != o ensures Aimed(net, m, v, 1) {
      assert (o, v) in edges;
    }
  }

  lemma FrontierBegins(cfg: Config, edges: Edges, net: Net, step: Step)
    requires Traced(cfg, net) && CachesOk(cfg, net) && edges == EdgesOf(net.nodes)
    requires Enabled(cfg, net, step) && step.Broadcast? && SmallOrigin(cfg, net.nodes, step.node)
    ensures Next(cfg, net, step).origins[step.id].origin == step.node
    ensures Frontier(cfg, edges, Next(cfg, net, step), step.id, step.node, 1)
  {
    var after, m, o := Next(cfg, net, step), step.id, step.node;
    BroadcastReaches(cfg, net, step);
    forall c | IsFlying(after, m, c) ensures c.route == [o] && c.to in Ball(edges, o, 1) {
      BroadcastFlies(cfg, net, step, c);
    }
    forall v | (o, v) in edges ensures Aimed(after, m, v, 1) {
      LinkedIsEdge(net.nodes, o, v);
      BroadcastAims(cfg, net, step, v);
    }
    FrontierStarts(cfg, edges, after, m, o);
  }

  // ----- a copy is processed --------------------------------------------------------------------

  /** All copies of m but c are still flying. */
  ghost predicate OthersFly(net: Net, after: Net, m: MessageId, c: Copy) {
    forall d :: IsFlying(net, m, d) && d != c ==> IsFlying(after, m, d)
  }

  /** A new copy of m is c passed on. */
  ghost predicate OnlyPassedOn(cfg: Config, net: Net, after: Net, m: MessageId, c: Copy) {
    forall d :: IsFlying(after, m, d) && !IsFlying(net, m, d) ==>
      d.route == c.route + [c.to] && (c.to, d.to) in EdgesOf(net.nodes) && |c.route| < MaxHops(cfg)
  }

  /** If c is the first copy of m at its node, copies are on their way to all neighbours not yet reached. */
  ghost predicate PassedOn(cfg: Config, net: Net, after: Net, m: MessageId, c: Copy) {
    c.to !in Reached(net, m) && |c.route| < MaxHops(cfg) ==>
      forall v :: (c.to, v) in EdgesOf(net.nodes) ==> v in Reached(after, m) || Aimed(after, m, v, |c.route| + 1)
  }

  /** What processing copy c of m does to the flood. */
  ghost predicate Passes(cfg: Config, net: Net, after: Net, m: MessageId, c: Copy) {
    && Reached(after, m) == Reached(net, m) + {c.to}
    && OthersFly(net, after, m, c)
    && OnlyPassedOn(cfg, net, after, m, c)
    && PassedOn(cfg, net, after, m, c)
  }

  lemma RemovedOnlyOne(q: seq<Copy>, i: nat, d: Copy)
    requires i < |q|
    ensures d in Remove(q, i) ==> d in q
    ensures d in q && d != q[i] ==> d in Remove(q, i)
  {
  }

  lemma ProcessLeavesOthers(cfg: Config, net: Net, step: Step, m: MessageId)
    requires Enabled(cfg, net, step) && step.Process?
    ensures OthersFly(net, Next(cfg, net, step), m, net.flying[step.i])
  {
    var after := Next(cfg, net, step);
    AddedWeight(cfg, net, step, m);
    forall d | IsFlying(net, m, d) && d != net.flying[step.i] ensures IsFlying(after, m, d) {
      RemovedOnlyOne(net.flying, step.i, d);
    }
  }

  lemma PassedOnRoute(cfg: Config, net: Net, step: Step, d: Copy)
    requires Enabled(cfg, net, step) && step.Process? && d in Added(cfg, net, step)
    ensures d.route == net.flying[step.i].route + [net.flying[step.i].to]
  {
  }

  lemma ProcessAdds(cfg: Config, net: Net, step: Step, d: Copy)
    requires Traced(cfg, net) && Enabled(cfg, net, step) && step.Process?
    requires d in Added(cfg, net, step)
    ensures var c := net.flying[step.i];
            && d.route == c.route + [c.to] && (c.to, d.to) in EdgesOf(net.nodes)
            && |c.route| < MaxHops(cfg)
  {
    var after := Next(cfg, net, step);
    PassedOnRoute(cfg, net, step, d);
    ProcessTraced(cfg, net, step, d);
    LastHop(cfg, after, d);
    assert EdgesOf(net.nodes) == EdgesOf(after.nodes) by {
      WiringKept(cfg, net, step);
      EdgesKept(net.nodes, after.nodes);
    }
  }

  lemma ProcessOnlyPassesOn(cfg: Config, net: Net, step: Step, m: MessageId)
    requires Traced(cfg, net) && Enabled(cfg, net, step) && step.Process?
    ensures OnlyPassedOn(cfg, net, Next(cfg, net, step), m, net.flying[step.i])
  {
    var c, after := net.flying[step.i], Next(cfg, net, step);
    AddedWeight(cfg, net, step, m);
    forall d | IsFlying(after, m, d) && !IsFlying(net, m, d)
      ensures d.route == c.route + [c.to] && (c.to, d.to) in EdgesOf(net.nodes)
      ensures |c.route| < MaxHops(cfg)
    {
      RemovedOnlyOne(net.flying, step.i, d);
      ProcessAdds(cfg, net, step, d);
    }
  }

  /** What a node passes on of a copy with hops left. */
  lemma PassedCopies(cfg: Config, net: Net, step: Step)
    requires Enabled(cfg, net, step) && step.Process?
    requires Publishes(cfg, net, net.flying[step.i]) && net.flying[step.i].env.ttl > 1
    ensures var c := net.flying[step.i];
            forall d :: d in Copies(net.nodes[c.to].links, step.targets, c.env.(ttl := c.env.ttl - 1), c.route + [c.to])
              ==> d in Next(cfg, net, step).flying
  {
  }

  /** A copy that may travel on came over a connection to its last sender. */
  lemma CameOver(cfg: Config, net: Net, c: Copy)
    requires Traced(cfg, net) && c in net.flying && 0 < |c.route| < MaxHops(cfg)
    ensures c.to in net.nodes && c.via in net.nodes[c.to].links && c.env.ttl > 1
    ensures net.nodes[c.to].links[c.via].node == c.route[|c.route| - 1]
  {
    assert Lineage(cfg, net, c);
  }

  lemma ProcessAims(cfg: Config, net: Net, step: Step, v: PeerId)
    requires Traced(cfg, net) && SmallDegrees(cfg, net.nodes) && Enabled(cfg, net, step) && step.Process?
    requires var c := net.flying[step.i];
             && Publishes(cfg, net, c) && 0 < |c.route| < MaxHops(cfg)
             && Linked(net.nodes, c.to, v) && v != c.route[|c.route| - 1]
    ensures Aimed(Next(cfg, net, step), net.flying[step.i].env.id, v, |net.flying[step.i].route| + 1)
  {
    var c := net.flying[step.i];
    CameOver(cfg, net, c);
    OneLessEligible(net.nodes[c.to].links.Keys, c.via);
    var env, route := c.env.(ttl := c.env.ttl - 1), c.route + [c.to];
    var d := CopiesReachNeighbours(net, c.to, step.targets, cfg.fanout, Some(c.via), env, route, v);
    PassedCopies(cfg, net, step);
    assert IsFlying(Next(cfg, net, step), c.env.id, d);
  }

  lemma ProcessPassesOn(cfg: Config, net: Net, step: Step, m: MessageId)
    requires Traced(cfg, net) && SmallDegrees(cfg, net.nodes) && Enabled(cfg, net, step) && step.Process?
    requires Handles(net, step, m) && LastSenderReached(net, m, net.flying[step.i])
    requires Reached(net, m) <= Reached(Next(cfg, net, step), m)
    ensures PassedOn(cfg, net, Next(cfg, net, step), m, net.flying[step.i])
  {
    var c, after := net.flying[step.i], Next(cfg, net, step);
    PublishesFirst(cfg, net, step, m);
    if c.to !in Reached(net, m) && |c.route| < MaxHops(cfg) {
      forall v | (c.to, v) in EdgesOf(net.nodes) ensures v in Reached(after, m) || Aimed(after, m, v, |c.route| + 1) {
        if v != c.route[|c.route| - 1] {
          LinkedIsEdge(net.nodes, c.to, v);
          ProcessAims(cfg, net, step, v);
        }
      }
    }
  }

  lemma ProcessPasses(cfg: Config, net: Net, step: Step, m: MessageId)
    requires Traced(cfg, net) && CachesOk(cfg, net) && SmallDegrees(cfg, net.nodes)
    requires Enabled(cfg, net, step) && step.Process? && Keeps(cfg, net, step, m)
    requires Handles(net, step, m) && LastSenderReached(net, m, net.flying[step.i])
    ensures Passes(cfg, net, Next(cfg, net, step), m, net.flying[step.i])
  {
    assert Reached(Next(cfg, net, step), m) == Reached(net, m) + {net.flying[step.i].to} by {
      StepReaches(cfg, net, step, m);
      PublishesFirst(cfg, net, step, m);
    }
    ProcessLeavesOthers(cfg, net, step, m);
    ProcessOnlyPassesOn(cfg, net, step, m);
    ProcessPassesOn(cfg, net, step, m);
  }

  // ----- and the front stays a front ------------------------------------------------------------

  lemma AimsKept(net: Net, after: Net, m: MessageId, c: Copy, v: PeerId, h: nat)
    requires OthersFly(net, after, m, c) && v != c.to && Aimed(net, m, v, h)
    ensures Aimed(after, m, v, h)
  {
    var d :| IsFlying(net, m, d) && d.to == v && |d.route| == h;
    assert IsFlying(after, m, d);
  }

  lemma NewCopyNear(edges: Edges, after: Net, m: MessageId, o: PeerId, c: Copy, d: Copy)
    requires c.to in Ball(edges, o, |c.route|) && c.to in Reached(after, m)
    requires d.route == c.route + [c.to] && (c.to, d.to) in edges
    ensures CopyNear(edges, after, m, o, |c.route|, d)
  {
    OneStepOut(edges, o, |c.route|, c.to, d.to);
  }

  lemma PassesNear(cfg: Config, edges: Edges, net: Net, after: Net, m: MessageId, o: PeerId, c: Copy)
    requires FlyingNear(edges, net, m, o, |c.route|) && IsFlying(net, m, c) && edges == EdgesOf(net.nodes)
    requires Reached(after, m) == Reached(net, m) + {c.to} && OnlyPassedOn(cfg, net, after, m, c)
    ensures FlyingNear(edges, after, m, o, |c.route|)
  {
    forall d | IsFlying(after, m, d) ensures CopyNear(edges, after, m, o, |c.route|, d) {
      if IsFlying(net, m, d) {
        assert CopyNear(edges, net, m, o, |c.route|, d);
      } else {
        assert CopyNear(edges, net, m, o, |c.route|, c);
        NewCopyNear(edges, after, m, o, c, d);
      }
    }
  }

  lemma PassesAimed(edges: Edges, net: Net, after: Net, m: MessageId, o: PeerId, c: Copy, L: nat)
    requires AimedAll(edges, net, m, o, L)
    requires Reached(after, m) == Reached(net, m) + {c.to} && OthersFly(net, after, m, c)
    ensures AimedAll(edges, after, m, o, L)
  {
    forall v | v in Ball(edges, o, L) && v !in Reached(after, m) ensures Aimed(after, m, v, L) {
      AimsKept(net, after, m, c, v, L);
    }
  }

  lemma PassesSentOn(cfg: Config, edges: Edges, net: Net, after: Net, m: MessageId, o: PeerId, c: Copy)
    requires 1 <= |c.route| < MaxHops(cfg) && SentOn(edges, net, m, o, |c.route|) && edges == EdgesOf(net.nodes)
    requires Passes(cfg, net, after, m, c)
    ensures SentOn(edges, after, m, o, |c.route|)
  {
    var L := |c.route|;
    forall u, v | u in Reached(after, m) && u !in Ball(edges, o, L - 1) && (u, v) in edges
      ensures v in Reached(after, m) || Aimed(after, m, v, L + 1)
    {
      if u in Reached(net, m) && v !in Reached(after, m) {
        AimsKept(net, after, m, c, v, L + 1);
      }
    }
  }

  lemma FrontierPasses(cfg: Config, edges: Edges, net: Net, after: Net, m: MessageId, o: PeerId, c: Copy)
    requires Frontier(cfg, edges, net, m, o, |c.route|) && Passes(cfg, net, after, m, c)
    requires edges == EdgesOf(net.nodes) && IsFlying(net, m, c)
    ensures Frontier(cfg, edges, after, m, o, |c.route|)
  {
    PassesNear(cfg, edges, net, after, m, o, c);
    PassesAimed(edges, net, after, m, o, c, |c.route|);
    if |c.route| < MaxHops(cfg) {
      PassesSentOn(cfg, edges, net, after, m, o, c);
    }
  }

  // ----- whole runs -----------------------------------------------------------------------------

  /** Copies of m are not lost, and are processed in non-decreasing order of hops. */
  ghost predicate InOrder(net: Net, step: Step, m: MessageId) {
    Handles(net, step, m) ==>
      step.Process? && forall c :: IsFlying(net, m, c) ==> |net.flying[step.i].route| <= |c.route|
  }

  lemma SameFlying(cfg: Config, net: Net, step: Step, m: MessageId, d: Copy)
    requires Enabled(cfg, net, step) && !Handles(net, step, m) && !(step.Broadcast? && step.id == m)
    ensures IsFlying(Next(cfg, net, step), m, d) <==> IsFlying(net, m, d)
  {
    match step
    case Broadcast(_, _, _, _) =>
    case Process(i, _) => RemovedOnlyOne(net.flying, i, d);
    case Lose(i) => RemovedOnlyOne(net.flying, i, d);
  }

  lemma FrontierSame(cfg: Config, edges: Edges, net: Net, after: Net, m: MessageId, o: PeerId, L: nat)
    requires Frontier(cfg, edges, net, m, o, L) && Reached(after, m) == Reached(net, m)
    requires forall d :: IsFlying(after, m, d) <==> IsFlying(net, m, d)
    ensures Frontier(cfg, edges, after, m, o, L)
  {
    forall v, h ensures Aimed(after, m, v, h) <==> Aimed(net, m, v, h) {
    }
    forall c ensures LastSenderReached(after, m, c) <==> LastSenderReached(net, m, c) {
    }
  }

  /** Steps on other broadcasts do not disturb the flood of m. */
  lemma FrontierUndisturbed(cfg: Config, edges: Edges, net: Net, step: Step, m: MessageId, o: PeerId,
                            L: nat)
    requires Enabled(cfg, net, step) && Frontier(cfg, edges, net, m, o, L)
    requires cfg.capacity > 0 && Keeps(cfg, net, step, m)
    requires !Handles(net, step, m) && !(step.Broadcast? && step.id == m)
    ensures Frontier(cfg, edges, Next(cfg, net, step), m, o, L)
  {
    var after := Next(cfg, net, step);
    assert Reached(after, m) == Reached(net, m) by {
      StepReaches(cfg, net, step, m);
    }
    forall d ensures IsFlying(after, m, d) <==> IsFlying(net, m, d) {
      SameFlying(cfg, net, step, m, d);
    }
    FrontierSame(cfg, edges, net, after, m, o, L);
  }

  /** The flood is at the distance of the copy that is processed next. */
  lemma FrontierAtHop(cfg: Config, edges: Edges, net: Net, m: MessageId, o: PeerId, L: nat, c: Copy)
    requires Frontier(cfg, edges, net, m, o, L) && IsFlying(net, m, c) && |c.route| <= MaxHops(cfg)
    requires forall d :: IsFlying(net, m, d) ==> |c.route| <= |d.route|
    ensures Frontier(cfg, edges, net, m, o, |c.route|)
  {
    if |c.route| != L {
      FrontierAdvances(cfg, edges, net, m, o, L);
    }
  }

  /** What every state of a run with small degrees satisfies. */
  ghost predicate Ready(cfg: Config, edges: Edges, net: Net) {
    Traced(cfg, net) && CachesOk(cfg, net) && SmallDegrees(cfg, net.nodes) && edges == EdgesOf(net.nodes)
  }

  lemma FrontierProcess(cfg: Config, edges: Edges, net: Net, step: Step, m: MessageId, o: PeerId)
    requires Ready(cfg, edges, net) && Enabled(cfg, net, step) && step.Process? && Keeps(cfg, net, step, m)
    requires Handles(net, step, m) && Frontier(cfg, edges, net, m, o, |net.flying[step.i].route|)
    ensures Frontier(cfg, edges, Next(cfg, net, step), m, o, |net.flying[step.i].route|)
  {
    var c := net.flying[step.i];
    assert IsFlying(net, m, c);
    assert Passes(cfg, net, Next(cfg, net, step), m, c) by {
      ProcessPasses(cfg, net, step, m);
    }
    FrontierPasses(cfg, edges, net, Next(cfg, net, step), m, o, c);
  }

  /** A step keeps a flood that is under way under way. */
  lemma FrontierStep(cfg: Config, edges: Edges, net: Net, step: Step, m: MessageId, o: PeerId, L: nat)
    returns (next: nat)
    requires Ready(cfg, edges, net) && Enabled(cfg, net, step) && Keeps(cfg, net, step, m)
    requires Frontier(cfg, edges, net, m, o, L) && InOrder(net, step, m) && m in net.origins
    ensures Frontier(cfg, edges, Next(cfg, net, step), m, o, next)
  {
    next := L;
    if Handles(net, step, m) {
      var c := net.flying[step.i];
      assert IsFlying(net, m, c) && |c.route| <= MaxHops(cfg) by {
        assert Lineage(cfg, net, c);
      }
      FrontierAtHop(cfg, edges, net, m, o, L, c);
      next := |c.route|;
      FrontierProcess(cfg, edges, net, step, m, o);
    } else {
      FrontierUndisturbed(cfg, edges, net, step, m, o, L);
    }
  }

  lemma RunReady(cfg: Config, nets: seq<Net>, steps: seq<Step>, k: nat)
    requires IsRun(cfg, nets, steps) && SmallDegrees(cfg, nets[0].nodes) && k <= |steps|
    ensures Ready(cfg, EdgesOf(nets[0].nodes), nets[k])
  {
    RunTraced(cfg, nets, steps, k);
    RunCaches(cfg, nets, steps, k);
    RunWiring(cfg, nets, steps, k);
    EdgesKept(nets[0].nodes, nets[k].nodes);
  }

  /** Since its broadcast, the flood of m is at distance L. */
  ghost predicate Flooding(cfg: Config, edges: Edges, net: Net, m: MessageId, L: nat) {
    m in net.origins ==> Frontier(cfg, edges, net, m, net.origins[m].origin, L)
  }

  lemma OriginKept(cfg: Config, net: Net, step: Step, m: MessageId)
    requires Enabled(cfg, net, step) && !(step.Broadcast? && step.id == m)
    ensures m in Next(cfg, net, step).origins <==> m in net.origins
    ensures m in net.origins ==> Next(cfg, net, step).origins[m] == net.origins[m]
  {
  }

  lemma FloodingStep(cfg: Config, edges: Edges, net: Net, step: Step, m: MessageId, L: nat)
    returns (next: nat)
    requires Ready(cfg, edges, net) && Enabled(cfg, net, step) && Keeps(cfg, net, step, m)
    requires InOrder(net, step, m) && Flooding(cfg, edges, net, m, L)
    requires step.Broadcast? && step.id == m ==> SmallOrigin(cfg, net.nodes, step.node)
    ensures Flooding(cfg, edges, Next(cfg, net, step), m, next)
  {
    next := 1;
    if step.Broadcast? && step.id == m {
      FrontierBegins(cfg, edges, net, step);
    } else {
      OriginKept(cfg, net, step, m);
      if m in net.origins {
        next := FrontierStep(cfg, edges, net, step, m, net.origins[m].origin, L);
      }
    }
  }

  /** Only the origin of m broadcasts it. */
  lemma BroadcastByOrigin(cfg: Config, nets: seq<Net>, steps: seq<Step>, i: nat, m: MessageId)
    requires IsRun(cfg, nets, steps) && i < |steps| && steps[i].Broadcast? && steps[i].id == m
    requires m in nets[|steps|].origins && SmallOrigin(cfg, nets[0].nodes, nets[|steps|].origins[m].origin)
    ensures SmallOrigin(cfg, nets[i].nodes, steps[i].node)
  {
    assert Enabled(cfg, nets[i], steps[i]) && nets[i + 1] == Next(cfg, nets[i], steps[i]);
    RunTraced(cfg, nets, steps, i);
    OriginStays(cfg, nets, steps, i + 1, |steps|, m);
    RunWiring(cfg, nets, steps, i);
  }

  lemma {:induction false} RunFlooding(cfg: Config, nets: seq<Net>, steps: seq<Step>, k: nat, m: MessageId)
    returns (L: nat)
    requires IsRun(cfg, nets, steps) && NeverEvicted(nets, m) && SmallDegrees(cfg, nets[0].nodes) && k <= |steps|
    requires m in nets[|steps|].origins && SmallOrigin(cfg, nets[0].nodes, nets[|steps|].origins[m].origin)
    requires forall i :: 0 <= i < |steps| ==> InOrder(nets[i], steps[i], m)
    ensures Flooding(cfg, EdgesOf(nets[0].nodes), nets[k], m, L)
  {
    if k == 0 {
      L := 1;
    } else {
      var before := RunFlooding(cfg, nets, steps, k - 1, m);
      RunReady(cfg, nets, steps, k - 1);
      RunKeeps(cfg, nets, steps, k - 1, m);
      assert Enabled(cfg, nets[k - 1], steps[k - 1]) && nets[k] == Next(cfg, nets[k - 1], steps[k - 1]);
      if steps[k - 1].Broadcast? && steps[k - 1].id == m {
        BroadcastByOrigin(cfg, nets, steps, k - 1, m);
      }
      L := FloodingStep(cfg, EdgesOf(nets[0].nodes), nets[k - 1], steps[k - 1], m, before);
    }
  }

  /** Gossip reach is exactly a ball: in a run in which the id of a broadcast is never evicted and its
      copies are neither lost nor processed out of hop order, with a fanout that suffices for all the
      origin's connections, and elsewhere for all but the one a copy came over, once none is left in
      flight the broadcast has been published by exactly the nodes at distance 1..max_ttl from its
      origin, once by each. */
  lemma ReachIsABall(cfg: Config, nets: seq<Net>, steps: seq<Step>, m: MessageId)
    requires IsRun(cfg, nets, steps) && NeverEvicted(nets, m)
    requires m in nets[|steps|].origins && forall c :: !IsFlying(nets[|steps|], m, c)
    requires SmallDegrees(cfg, nets[0].nodes) && SmallOrigin(cfg, nets[0].nodes, nets[|steps|].origins[m].origin)
    requires forall i :: 0 <= i < |steps| ==> InOrder(nets[i], steps[i], m)
    ensures var last := nets[|steps|];
            var o := last.origins[m].origin;
            forall n: PeerId :: Publications(last.published, n, m) ==
              if n in Ball(EdgesOf(nets[0].nodes), o, MaxHops(cfg)) && n != o then 1 else 0
  {
    var L := RunFlooding(cfg, nets, steps, |steps|, m);
    var last := nets[|steps|];
    FrontierEnds(cfg, EdgesOf(nets[0].nodes), last, m, last.origins[m].origin, L);
    OncePerNodeBound(cfg, nets, steps, |steps|, m);
  }
}
