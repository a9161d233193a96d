/** A network of gossip nodes: copies of envelopes in flight between them, processed in any order and
    possibly lost, with any number of broadcasts at the same time. */
module Flood {
  import opened Core
  import opened Lru
  import opened Gossip

  /** One end of a connection: a node and its own number for the connection. */
  datatype End = End(node: PeerId, conn: ConnectionId)

  /** A node: its cache, most recent first, and for each of its connections the other end. */
  datatype Node = Node(key: Key, seen: seq<MessageId>, links: map<ConnectionId, End>)

  /** A copy of an envelope on its way to a node, over that node's connection `via`. `route` lists the
      nodes that have sent it, the origin first. */
  datatype Copy = Copy(to: PeerId, via: ConnectionId, env: Envelope, route: seq<PeerId>)

  datatype Config = Config(crypto: Crypto, fanout: nat, maxTtl: nat, capacity: nat)

  /** `sent` and `published` record all copies ever sent and all deliveries to subscribers; `origins`
      the envelopes as they were first signed. */
  datatype Net = Net(
    nodes: map<PeerId, Node>,
    flying: seq<Copy>,
    origins: map<MessageId, Envelope>,
    sent: seq<Copy>,
    published: seq<Copy>)

  datatype Step =
    | Broadcast(node: PeerId, id: MessageId, payload: GossipMessage, targets: seq<ConnectionId>)
    | Process(i: nat, targets: seq<ConnectionId>)
    | Lose(i: nat)

  /** Whether a node publishes a copy that reaches it. */
  predicate Publishes(cfg: Config, net: Net, c: Copy)
    requires c.to in net.nodes
  {
    Accepts(cfg.crypto, net.nodes[c.to].seen, c.env)
  }

  /** Message ids are fresh, and connections are picked as the node picks them. */
  ghost predicate Enabled(cfg: Config, net: Net, step: Step) {
    match step
    case Broadcast(node, id, _, targets) =>
      node in net.nodes && id !in net.origins && Picked(net.nodes[node].links.Keys, cfg.fanout, targets)
    case Process(i, targets) =>
      i < |net.flying| && net.flying[i].to in net.nodes &&
      Picked(Eligible(net.nodes[net.flying[i].to].links.Keys, Some(net.flying[i].via)), cfg.fanout, targets)
    case Lose(i) => i < |net.flying|
  }

  function Remove(q: seq<Copy>, i: nat): seq<Copy>
    requires i < |q|
  {
    q[..i] + q[i + 1..]
  }

  /** The copies a node sends over the picked connections. */
  function Copies(links: map<ConnectionId, End>, targets: seq<ConnectionId>, env: Envelope, route: seq<PeerId>)
    : seq<Copy>
    requires forall i :: 0 <= i < |targets| ==> targets[i] in links
  {
    seq(|targets|, i requires 0 <= i < |targets| => Copy(links[targets[i]].node, links[targets[i]].conn, env, route))
  }

  /** Where a copy among those a node sends comes from. */
  lemma CopyOf(links: map<ConnectionId, End>, targets: seq<ConnectionId>, env: Envelope, route: seq<PeerId>, c: Copy)
    returns (d: ConnectionId)
    requires (forall i :: 0 <= i < |targets| ==> targets[i] in links) && c in Copies(links, targets, env, route)
    ensures d in links && c == Copy(links[d].node, links[d].conn, env, route)
  {
    var k :| 0 <= k < |targets| && c == Copies(links, targets, env, route)[k];
    d := targets[k];
  }

  function Access(cfg: Config, nodes: map<PeerId, Node>, n: PeerId, id: MessageId): map<PeerId, Node>
    requires n in nodes
  {
    nodes[n := nodes[n].(seen := Touch(nodes[n].seen, id, cfg.capacity))]
  }

  ghost function Next(cfg: Config, net: Net, step: Step): Net
    requires Enabled(cfg, net, step)
  {
    match step
    case Broadcast(node, id, payload, targets) =>
      var env := Original(cfg.crypto, net.nodes[node].key, cfg.maxTtl, id, payload);
      var copies := Copies(net.nodes[node].links, targets, env, [node]);
      net.(nodes := Access(cfg, net.nodes, node, id), flying := net.flying + copies,
           origins := net.origins[id := env], sent := net.sent + copies)
    case Process(i, targets) =>
      var c := net.flying[i];
      var rest := net.(flying := Remove(net.flying, i));
      if !c.env.Verify(cfg.crypto) then rest
      else if !Publishes(cfg, net, c) then rest.(nodes := Access(cfg, net.nodes, c.to, c.env.id))
      else
        var copies := if c.env.ttl > 1 then
                        Copies(net.nodes[c.to].links, targets, c.env.(ttl := c.env.ttl - 1), c.route + [c.to])
                      else [];
        rest.(nodes := Access(cfg, net.nodes, c.to, c.env.id), flying := rest.flying + copies,
              sent := net.sent + copies, published := net.published + [c])
    case Lose(i) => net.(flying := Remove(net.flying, i))
  }

  /** The copies that step adds to the network. */
  ghost function Added(cfg: Config, net: Net, step: Step): seq<Copy>
    requires Enabled(cfg, net, step)
  {
    Next(cfg, net, step).sent[|net.sent|..]
  }

  /** What a node puts on its connections, as copies on their way. */
  function Carried(links: map<ConnectionId, End>, out: seq<(ConnectionId, Envelope)>, route: seq<PeerId>): seq<Copy>
    requires forall i :: 0 <= i < |out| ==> out[i].0 in links
  {
    seq(|out|, i requires 0 <= i < |out| => Copy(links[out[i].0].node, links[out[i].0].conn, out[i].1, route))
  }

  /** The network runs the nodes: a broadcast step does to its node what `GossipNode.Broadcast` does. */
  lemma BroadcastRunsNode(cfg: Config, net: Net, step: Step)
    requires Enabled(cfg, net, step) && step.Broadcast?
    ensures var n := net.nodes[step.node];
            var out := Stamped(step.targets, Original(cfg.crypto, n.key, cfg.maxTtl, step.id, step.payload));
            var after := Next(cfg, net, step);
            && after.nodes == net.nodes[step.node := n.(seen := Touch(n.seen, step.id, cfg.capacity))]
            && after.published == net.published
            && after.sent == net.sent + Carried(n.links, out, [step.node])
            && after.flying == net.flying + Carried(n.links, out, [step.node])
  {
    var n := net.nodes[step.node];
    var env := Original(cfg.crypto, n.key, cfg.maxTtl, step.id, step.payload);
    assert Carried(n.links, Stamped(step.targets, env), [step.node]) == Copies(n.links, step.targets, env, [step.node]);
  }

  /** And handling a copy does to the node it reaches what `GossipNode.ProcessIncoming` does. */
  lemma ProcessRunsNode(cfg: Config, net: Net, step: Step)
    requires Enabled(cfg, net, step) && step.Process?
    ensures var c := net.flying[step.i];
            var n := net.nodes[c.to];
            var out := Forwards(cfg.crypto, n.seen, c.env, step.targets);
            var after := Next(cfg, net, step);
            && after.nodes == net.nodes[c.to := n.(seen := SeenAfter(cfg.crypto, n.seen, c.env, cfg.capacity))]
            && after.published == net.published + (if Accepts(cfg.crypto, n.seen, c.env) then [c] else [])
            && after.sent == net.sent + Carried(n.links, out, c.route + [c.to])
            && after.flying == Remove(net.flying, step.i) + Carried(n.links, out, c.route + [c.to])
  {
    var c := net.flying[step.i];
    var n := net.nodes[c.to];
    var after, route := Next(cfg, net, step), c.route + [c.to];
    if Publishes(cfg, net, c) && c.env.ttl > 1 {
      var env := c.env.(ttl := c.env.ttl - 1);
      assert Carried(n.links, Stamped(step.targets, env), route) == Copies(n.links, step.targets, env, route);
    } else {
      assert Carried(n.links, [], route) == [];
    }
  }

  /** Every connection leads to a node of the network and back; a node's name is its public key. */
  ghost predicate Wired(cfg: Config, nodes: map<PeerId, Node>) {
    && (forall n :: n in nodes ==> cfg.crypto.publicKey(nodes[n].key) == n)
    && (forall n, d :: n in nodes && d in nodes[n].links ==>
          var e := nodes[n].links[d];
          e.node in nodes && e.conn in nodes[e.node].links && nodes[e.node].links[e.conn] == End(n, d))
  }

  ghost predicate Start(cfg: Config, net: Net) {
    && Sound(cfg.crypto) && cfg.capacity > 0 && Wired(cfg, net.nodes)
    && (forall n :: n in net.nodes ==> net.nodes[n].seen == [])
    && net.flying == [] && net.origins == map[] && net.sent == [] && net.published == []
  }

  /** A run is its states, one more than its steps. */
  ghost predicate IsRun(cfg: Config, nets: seq<Net>, steps: seq<Step>) {
    && |nets| == |steps| + 1 && Start(cfg, nets[0])
    && (forall k :: 0 <= k < |steps| ==> Enabled(cfg, nets[k], steps[k]) && nets[k + 1] == Next(cfg, nets[k], steps[k]))
  }

  // ----- counting copies of one broadcast -------------------------------------------------------

  function Count(q: seq<Copy>, m: MessageId): nat {
    if q == [] then 0 else (if q[0].env.id == m then 1 else 0) + Count(q[1..], m)
  }

  /** The number of copies a copy with hop budget t can still give rise to, itself included. */
  function Weight(t: nat, fanout: nat): nat {
    if t <= 1 then 1 else 1 + fanout * Weight(t - 1, fanout)
  }

  function Total(q: seq<Copy>, m: MessageId, fanout: nat): nat {
    if q == [] then 0 else (if q[0].env.id == m then Weight(q[0].env.ttl, fanout) else 0) + Total(q[1..], m, fanout)
  }

  lemma {:induction false} TotalConcat(p: seq<Copy>, q: seq<Copy>, m: MessageId, fanout: nat)
    ensures Total(p + q, m, fanout) == Total(p, m, fanout) + Total(q, m, fanout)
    ensures Count(p + q, m) == Count(p, m) + Count(q, m)
  {
    if p == [] {
      assert p + q == q;
    } else {
      assert (p + q)[1..] == p[1..] + q;
      TotalConcat(p[1..], q, m, fanout);
    }
  }

  lemma TotalRemove(q: seq<Copy>, i: nat, m: MessageId, fanout: nat)
    requires i < |q|
    ensures Total(q, m, fanout) == Total(Remove(q, i), m, fanout) +
              if q[i].env.id == m then Weight(q[i].env.ttl, fanout) else 0
    ensures Count(q, m) == Count(Remove(q, i), m) + if q[i].env.id == m then 1 else 0
  {
    assert q == q[..i] + q[i..];
    TotalConcat(q[..i], q[i..], m, fanout);
    TotalConcat(q[..i], q[i + 1..], m, fanout);
  }

  lemma {:induction false} TotalUniform(q: seq<Copy>, env: Envelope, m: MessageId, fanout: nat)
    requires forall k :: 0 <= k < |q| ==> q[k].env == env
    ensures Count(q, m) == if env.id == m then |q| else 0
    ensures Total(q, m, fanout) == if env.id == m then |q| * Weight(env.ttl, fanout) else 0
  {
    if q == [] {
    } else {
      TotalUniform(q[1..], env, m, fanout);
      var w := Weight(env.ttl, fanout);
      assert env.id == m ==> |q| * w == w + |q[1..]| * w;
    }
  }

  lemma MulMono(a: nat, b: nat, w: nat)
    requires a <= b
    ensures a * w <= b * w
  {
    assert b * w == a * w + (b - a) * w;
  }

  /** What processing a copy adds weighs less than the copy. */
  lemma AddedWeight(cfg: Config, net: Net, step: Step, m: MessageId)
    requires Enabled(cfg, net, step) && step.Process?
    ensures var c, added := net.flying[step.i], Added(cfg, net, step);
            && Next(cfg, net, step).flying == Remove(net.flying, step.i) + added
            && Next(cfg, net, step).sent == net.sent + added
            && |added| <= cfg.fanout
            && (c.env.id != m ==> Total(added, m, cfg.fanout) == Count(added, m) == 0)
            && (c.env.id == m ==>
                  Count(added, m) == |added| && 1 + Total(added, m, cfg.fanout) <= Weight(c.env.ttl, cfg.fanout))
  {
    var c, added := net.flying[step.i], Added(cfg, net, step);
    var env := c.env.(ttl := if c.env.ttl > 1 then c.env.ttl - 1 else 0);
    assert Next(cfg, net, step).flying == Remove(net.flying, step.i) + added;
    assert forall k :: 0 <= k < |added| ==> added[k].env == env;
    TotalUniform(added, env, m, cfg.fanout);
    if added != [] {
      MulMono(|added|, cfg.fanout, Weight(env.ttl, cfg.fanout));
    }
  }

  // ----- flooding terminates --------------------------------------------------------------------

  predicate Handles(net: Net, step: Step, m: MessageId) {
    (step.Process? || step.Lose?) && step.i < |net.flying| && net.flying[step.i].env.id == m
  }

  /** Every step that handles a copy of a broadcast strictly decreases its weight in flight, whatever
      the caches hold; steps on other broadcasts leave it alone. */
  lemma WeightDecreases(cfg: Config, net: Net, step: Step, m: MessageId)
    requires Enabled(cfg, net, step) && !(step.Broadcast? && step.id == m)
    ensures var after := Total(Next(cfg, net, step).flying, m, cfg.fanout);
            if Handles(net, step, m) then after < Total(net.flying, m, cfg.fanout)
            else after == Total(net.flying, m, cfg.fanout)
  {
    match step
    case Broadcast(_, id, _, _) =>
      TotalConcat(net.flying, Added(cfg, net, step), m, cfg.fanout);
      AddedByBroadcast(cfg, net, step, m);
    case Process(i, _) =>
      TotalRemove(net.flying, i, m, cfg.fanout);
      AddedWeight(cfg, net, step, m);
      TotalConcat(Remove(net.flying, i), Added(cfg, net, step), m, cfg.fanout);
    case Lose(i) => TotalRemove(net.flying, i, m, cfg.fanout);
  }

  lemma AddedByBroadcast(cfg: Config, net: Net, step: Step, m: MessageId)
    requires Enabled(cfg, net, step) && step.Broadcast?
    ensures var added := Added(cfg, net, step);
            && Next(cfg, net, step).flying == net.flying + added
            && Next(cfg, net, step).sent == net.sent + added
            && |added| <= cfg.fanout
            && (step.id != m ==> Total(added, m, cfg.fanout) == Count(added, m) == 0)
            && (step.id == m ==> Count(added, m) == |added|)
            && (step.id == m ==> Total(added, m, cfg.fanout) == |added| * Weight(cfg.maxTtl, cfg.fanout))
  {
    var added := Added(cfg, net, step);
    var env := Next(cfg, net, step).origins[step.id];
    assert Next(cfg, net, step).flying == net.flying + added;
    assert forall k :: 0 <= k < |added| ==> added[k].env == env;
    TotalUniform(added, env, m, cfg.fanout);
  }

  /** How many of the first k steps handle a copy of m. */
  ghost function Handled(nets: seq<Net>, steps: seq<Step>, k: nat, m: MessageId): nat
    requires k <= |steps| < |nets|
  {
    if k == 0 then 0 else Handled(nets, steps, k - 1, m) + if Handles(nets[k - 1], steps[k - 1], m) then 1 else 0
  }

  /** Copies sent, copies in flight and the weight they carry, within the budget of one broadcast. */
  ghost predicate WithinBudget(cfg: Config, net: Net, m: MessageId, handled: nat, budget: nat) {
    && Count(net.sent, m) == handled + Count(net.flying, m)
    && Count(net.sent, m) + Total(net.flying, m, cfg.fanout) <= budget + Count(net.flying, m)
    && (m !in net.origins ==> Count(net.sent, m) == Total(net.flying, m, cfg.fanout) == 0)
  }

  lemma BroadcastWithinBudget(cfg: Config, net: Net, step: Step, m: MessageId, handled: nat, budget: nat)
    requires Enabled(cfg, net, step) && step.Broadcast? && WithinBudget(cfg, net, m, handled, budget)
    requires budget >= cfg.fanout * Weight(cfg.maxTtl, cfg.fanout)
    ensures WithinBudget(cfg, Next(cfg, net, step), m, handled, budget)
  {
    var added := Added(cfg, net, step);
    AddedByBroadcast(cfg, net, step, m);
    TotalConcat(net.flying, added, m, cfg.fanout);
    TotalConcat(net.sent, added, m, cfg.fanout);
    MulMono(|added|, cfg.fanout, Weight(cfg.maxTtl, cfg.fanout));
  }

  lemma ProcessWithinBudget(cfg: Config, net: Net, step: Step, m: MessageId, handled: nat, budget: nat)
    requires Enabled(cfg, net, step) && step.Process? && WithinBudget(cfg, net, m, handled, budget)
    requires net.flying[step.i].env.id in net.origins
    ensures WithinBudget(cfg, Next(cfg, net, step), m, handled + if Handles(net, step, m) then 1 else 0, budget)
  {
    var added, rest := Added(cfg, net, step), Remove(net.flying, step.i);
    AddedWeight(cfg, net, step, m);
    TotalRemove(net.flying, step.i, m, cfg.fanout);
    TotalConcat(rest, added, m, cfg.fanout);
    TotalConcat(net.sent, added, m, cfg.fanout);
  }

  lemma LoseWithinBudget(cfg: Config, net: Net, step: Step, m: MessageId, handled: nat, budget: nat)
    requires Enabled(cfg, net, step) && step.Lose? && WithinBudget(cfg, net, m, handled, budget)
    requires net.flying[step.i].env.id in net.origins
    ensures WithinBudget(cfg, Next(cfg, net, step), m, handled + if Handles(net, step, m) then 1 else 0, budget)
  {
    TotalRemove(net.flying, step.i, m, cfg.fanout);
  }

  lemma {:induction false} WeightAtLeastCount(q: seq<Copy>, m: MessageId, fanout: nat)
    ensures Count(q, m) <= Total(q, m, fanout)
  {
    if q == [] {
    } else {
      WeightAtLeastCount(q[1..], m, fanout);
    }
  }

  function Power(b: nat, e: nat): nat {
    if e == 0 then 1 else b * Power(b, e - 1)
  }

  /** b + b^2 + ... + b^n */
  function PowerSum(b: nat, n: nat): nat {
    if n == 0 then 0 else PowerSum(b, n - 1) + Power(b, n)
  }

  lemma Distribute(f: nat, x: nat, y: nat)
    ensures f * (x + y) == f * x + f * y
  {
  }

  lemma {:induction false} PowerSumShift(b: nat, n: nat)
    ensures PowerSum(b, n + 1) == b + b * PowerSum(b, n)
  {
    if n == 0 {
      assert Power(b, 1) == b * Power(b, 0) == b;
    } else {
      PowerSumShift(b, n - 1);
      Distribute(b, PowerSum(b, n - 1), Power(b, n));
    }
  }

  lemma {:induction false} WeightIsGeometric(t: nat, fanout: nat)
    ensures fanout * Weight(t, fanout) == PowerSum(fanout, if t == 0 then 1 else t)
  {
    if t <= 1 {
      PowerSumShift(fanout, 0);
      assert fanout * Weight(t, fanout) == fanout;
    } else {
      WeightIsGeometric(t - 1, fanout);
      PowerSumShift(fanout, t - 1);
      var sum := PowerSum(fanout, t - 1);
      assert Weight(t, fanout) == 1 + sum;
      Distribute(fanout, 1, sum);
    }
  }

  // ----- lineage --------------------------------------------------------------------------------

  /** u has a connection to v. */
  ghost predicate Linked(nodes: map<PeerId, Node>, u: PeerId, v: PeerId) {
    u in nodes && exists d :: d in nodes[u].links && nodes[u].links[d].node == v
  }

  ghost predicate IsPath(nodes: map<PeerId, Node>, path: seq<PeerId>) {
    forall i :: 0 <= i < |path| - 1 ==> Linked(nodes, path[i], path[i + 1])
  }

  /** The longest route a copy can have. */
  function MaxHops(cfg: Config): nat {
    if cfg.maxTtl == 0 then 1 else cfg.maxTtl
  }

  /** A copy after h = |route| hops: the envelope as signed at the origin, but for a hop budget of
      maxTtl - h + 1; it travelled along connections, arrives over one that leads back to its last
      sender, and still verifies. */
  ghost predicate Lineage(cfg: Config, net: Net, c: Copy) {
    && c.env.id in net.origins
    && c.env == net.origins[c.env.id].(ttl := c.env.ttl)
    && c.env.Verify(cfg.crypto)
    && 1 <= |c.route| <= MaxHops(cfg)
    && c.env.ttl + |c.route| == cfg.maxTtl + 1
    && c.route[0] == c.env.origin
    && IsPath(net.nodes, c.route + [c.to])
    && c.to in net.nodes && c.via in net.nodes[c.to].links
    && net.nodes[c.to].links[c.via].node == c.route[|c.route| - 1]
  }

  /** The nodes' connections and keys, which never change. */
  ghost predicate SameWiring(nodes: map<PeerId, Node>, after: map<PeerId, Node>) {
    nodes.Keys == after.Keys &&
    forall n :: n in nodes ==> after[n].links == nodes[n].links && after[n].key == nodes[n].key
  }

  ghost predicate Traced(cfg: Config, net: Net) {
    && Sound(cfg.crypto) && Wired(cfg, net.nodes)
    && (forall c :: c in net.sent ==> Lineage(cfg, net, c))
    && (forall c :: c in net.flying ==> c in net.sent)
    && (forall c :: c in net.published ==> c in net.sent)
  }

  lemma LineageKept(cfg: Config, net: Net, after: Net, c: Copy)
    requires Lineage(cfg, net, c) && SameWiring(net.nodes, after.nodes)
    requires forall m :: m in net.origins ==> m in after.origins && after.origins[m] == net.origins[m]
    ensures Lineage(cfg, after, c)
  {
    var path := c.route + [c.to];
    forall i | 0 <= i < |path| - 1 ensures Linked(after.nodes, path[i], path[i + 1]) {
      assert Linked(net.nodes, path[i], path[i + 1]);
    }
  }

  lemma AccessKeepsWiring(cfg: Config, nodes: map<PeerId, Node>, n: PeerId, id: MessageId)
    requires n in nodes && Wired(cfg, nodes)
    ensures SameWiring(nodes, Access(cfg, nodes, n, id)) && Wired(cfg, Access(cfg, nodes, n, id))
  {
  }

  lemma WiringKept(cfg: Config, net: Net, step: Step)
    requires Enabled(cfg, net, step) && Wired(cfg, net.nodes)
    ensures SameWiring(net.nodes, Next(cfg, net, step).nodes) && Wired(cfg, Next(cfg, net, step).nodes)
  {
    match step
    case Broadcast(node, id, _, _) => AccessKeepsWiring(cfg, net.nodes, node, id);
    case Process(i, _) => AccessKeepsWiring(cfg, net.nodes, net.flying[i].to, net.flying[i].env.id);
    case Lose(_) =>
  }

  /** A copy sent by node n over its connection d, when n has received or created the envelope. */
  lemma NewLineage(cfg: Config, net: Net, n: PeerId, d: ConnectionId, env: Envelope, route: seq<PeerId>)
    requires Wired(cfg, net.nodes) && n in net.nodes && d in net.nodes[n].links
    requires env.id in net.origins && env == net.origins[env.id].(ttl := env.ttl) && env.Verify(cfg.crypto)
    requires |route| < MaxHops(cfg) && env.ttl + |route| == cfg.maxTtl && IsPath(net.nodes, route + [n])
    requires (route + [n])[0] == env.origin
    ensures Lineage(cfg, net, Copy(net.nodes[n].links[d].node, net.nodes[n].links[d].conn, env, route + [n]))
  {
    var c := Copy(net.nodes[n].links[d].node, net.nodes[n].links[d].conn, env, route + [n]);
    var path := c.route + [c.to];
    forall i | 0 <= i < |path| - 1 ensures Linked(net.nodes, path[i], path[i + 1]) {
      if i < |c.route| - 1 {
        assert Linked(net.nodes, c.route[i], c.route[i + 1]);
      } else {
        assert path[i] == n && path[i + 1] == net.nodes[n].links[d].node;
      }
    }
  }

  lemma OriginalVerifies(cfg: Config, key: Key, id: MessageId, payload: GossipMessage)
    requires Sound(cfg.crypto)
    ensures Original(cfg.crypto, key, cfg.maxTtl, id, payload).Verify(cfg.crypto)
  {
  }

  lemma BroadcastTraced(cfg: Config, net: Net, step: Step, c: Copy)
    requires Traced(cfg, net) && Enabled(cfg, net, step) && step.Broadcast? && c in Added(cfg, net, step)
    ensures Lineage(cfg, Next(cfg, net, step), c)
  {
    var after, n, links := Next(cfg, net, step), step.node, net.nodes[step.node].links;
    WiringKept(cfg, net, step);
    OriginalVerifies(cfg, net.nodes[n].key, step.id, step.payload);
    var env := after.origins[step.id];
    assert Added(cfg, net, step) == Copies(links, step.targets, env, [n]);
    var d := CopyOf(links, step.targets, env, [n], c);
    var route: seq<PeerId> := [];
    assert route + [n] == [n];
    FirstLineage(cfg, after, n, d, env, route);
  }

  lemma FirstLineage(cfg: Config, net: Net, n: PeerId, d: ConnectionId, env: Envelope, route: seq<PeerId>)
    requires Wired(cfg, net.nodes) && n in net.nodes && d in net.nodes[n].links && route == []
    requires env.id in net.origins && env == net.origins[env.id] && env.Verify(cfg.crypto)
    requires env.ttl == cfg.maxTtl && n == env.origin
    ensures Lineage(cfg, net, Copy(net.nodes[n].links[d].node, net.nodes[n].links[d].conn, env, route + [n]))
  {
    assert env == env.(ttl := env.ttl);
    NewLineage(cfg, net, n, d, env, route);
  }

  lemma ProcessTraced(cfg: Config, net: Net, step: Step, c: Copy)
    requires Traced(cfg, net) && Enabled(cfg, net, step) && step.Process? && c in Added(cfg, net, step)
    ensures Lineage(cfg, Next(cfg, net, step), c)
  {
    WiringKept(cfg, net, step);
    var after, parent := Next(cfg, net, step), net.flying[step.i];
    assert parent in net.flying && Lineage(cfg, net, parent);
    LineageKept(cfg, net, after, parent);
    var env := parent.env.(ttl := parent.env.ttl - 1);
    var d := CopyOf(net.nodes[parent.to].links, step.targets, env, parent.route + [parent.to], c);
    NewLineage(cfg, after, parent.to, d, env, parent.route);
  }

  lemma StepTraced(cfg: Config, net: Net, step: Step)
    requires Traced(cfg, net) && Enabled(cfg, net, step)
    ensures Traced(cfg, Next(cfg, net, step))
  {
    var after := Next(cfg, net, step);
    WiringKept(cfg, net, step);
    forall c | c in after.sent ensures Lineage(cfg, after, c) {
      if c in net.sent {
        LineageKept(cfg, net, after, c);
      } else {
        AddedCopy(cfg, net, step, c);
        if step.Broadcast? {
          BroadcastTraced(cfg, net, step, c);
        } else {
          ProcessTraced(cfg, net, step, c);
        }
      }
    }
    SentCovers(cfg, net, step);
  }

  lemma AddedCopy(cfg: Config, net: Net, step: Step, c: Copy)
    requires Enabled(cfg, net, step) && c in Next(cfg, net, step).sent && c !in net.sent
    ensures !step.Lose? && c in Added(cfg, net, step)
  {
  }

  lemma SentCovers(cfg: Config, net: Net, step: Step)
    requires Enabled(cfg, net, step)
    requires (forall c :: c in net.flying ==> c in net.sent) && (forall c :: c in net.published ==> c in net.sent)
    ensures var after := Next(cfg, net, step);
            && (forall c :: c in after.flying ==> c in after.sent)
            && (forall c :: c in after.published ==> c in after.sent)
  {
    var after := Next(cfg, net, step);
    if step.Process? {
      assert net.flying[step.i] in net.flying;
    }
    forall c | c in after.flying ensures c in after.sent {
    }
  }

  lemma {:induction false} RunTraced(cfg: Config, nets: seq<Net>, steps: seq<Step>, k: nat)
    requires IsRun(cfg, nets, steps) && k <= |steps|
    ensures Traced(cfg, nets[k])
  {
    if k == 0 {
    } else {
      RunTraced(cfg, nets, steps, k - 1);
      StepTraced(cfg, nets[k - 1], steps[k - 1]);
    }
  }

  /** Envelope lineage: every copy in flight is the envelope its origin signed with one hop less for
      each forwarding, so at least one while max_ttl >= 1, and it still verifies. */
  lemma EnvelopeLineage(cfg: Config, nets: seq<Net>, steps: seq<Step>, k: nat, c: Copy)
    requires IsRun(cfg, nets, steps) && k <= |steps| && c in nets[k].flying
    ensures Lineage(cfg, nets[k], c)
    ensures cfg.crypto.check(c.env.origin, Signed(c.env.id, c.env.origin, c.env.payload), c.env.signature)
    ensures cfg.maxTtl >= 1 ==> c.env.ttl >= 1
    ensures c.env.origin == c.route[0] && c.env.ttl == cfg.maxTtl - |c.route| + 1
  {
    RunTraced(cfg, nets, steps, k);
  }

  /** Step i signs and broadcasts the envelope, but for its hop budget. */
  ghost predicate SignedBy(cfg: Config, step: Step, env: Envelope) {
    && step.Broadcast? && step.id == env.id && step.node == env.origin && step.payload == env.payload
    && cfg.crypto.check(env.origin, Signed(env.id, env.origin, env.payload), env.signature)
  }

  lemma OriginMade(cfg: Config, net: Net, step: Step, m: MessageId)
    requires Enabled(cfg, net, step) && Sound(cfg.crypto) && Wired(cfg, net.nodes)
    ensures var after := Next(cfg, net, step);
            if step.Broadcast? && step.id == m then
              m in after.origins && after.origins[m].id == m && SignedBy(cfg, step, after.origins[m])
            else
              (m in after.origins <==> m in net.origins) &&
              (m in net.origins ==> after.origins[m] == net.origins[m])
  {
    if step.Broadcast? {
      OriginalVerifies(cfg, net.nodes[step.node].key, step.id, step.payload);
    }
  }

  lemma {:induction false} OriginWasBroadcast(cfg: Config, nets: seq<Net>, steps: seq<Step>, k: nat, m: MessageId)
    returns (i: nat)
    requires IsRun(cfg, nets, steps) && k <= |steps| && m in nets[k].origins
    ensures i < k && SignedBy(cfg, steps[i], nets[k].origins[m]) && nets[k].origins[m].id == m
  {
    if k == 0 {
      assert false;
    } else {
      RunTraced(cfg, nets, steps, k - 1);
      OriginMade(cfg, nets[k - 1], steps[k - 1], m);
      if steps[k - 1].Broadcast? && steps[k - 1].id == m {
        i := k - 1;
      } else {
        i := OriginWasBroadcast(cfg, nets, steps, k - 1, m);
      }
    }
  }

  /** Nothing is made up on the way: whatever is sent, in flight or delivered was broadcast, with this
      payload, by the node that is named as its origin. */
  lemma DeliveredAsBroadcast(cfg: Config, nets: seq<Net>, steps: seq<Step>, k: nat, c: Copy) returns (i: nat)
    requires IsRun(cfg, nets, steps) && k <= |steps|
    requires c in nets[k].sent || c in nets[k].flying || c in nets[k].published
    ensures i < k && SignedBy(cfg, steps[i], c.env) && c.route != [] && steps[i].node == c.route[0]
  {
    RunTraced(cfg, nets, steps, k);
    assert Lineage(cfg, nets[k], c);
    i := OriginWasBroadcast(cfg, nets, steps, k, c.env.id);
  }

  lemma {:induction false} OriginStays(cfg: Config, nets: seq<Net>, steps: seq<Step>, i: nat, k: nat, m: MessageId)
    requires IsRun(cfg, nets, steps) && i <= k <= |steps| && m in nets[i].origins
    ensures m in nets[k].origins && nets[k].origins[m] == nets[i].origins[m]
  {
    if i == k {
    } else {
      OriginStays(cfg, nets, steps, i, k - 1, m);
      assert Enabled(cfg, nets[k - 1], steps[k - 1]) && nets[k] == Next(cfg, nets[k - 1], steps[k - 1]);
    }
  }

  lemma StepWithinBudget(cfg: Config, net: Net, step: Step, m: MessageId, handled: nat, budget: nat)
    requires Enabled(cfg, net, step) && WithinBudget(cfg, net, m, handled, budget)
    requires budget >= cfg.fanout * Weight(cfg.maxTtl, cfg.fanout)
    requires forall c :: c in net.flying ==> c.env.id in net.origins
    ensures WithinBudget(cfg, Next(cfg, net, step), m, handled + if Handles(net, step, m) then 1 else 0, budget)
  {
    if !step.Broadcast? {
      assert net.flying[step.i] in net.flying;
    }
    match step
    case Broadcast(_, _, _, _) => BroadcastWithinBudget(cfg, net, step, m, handled, budget);
    case Process(_, _) => ProcessWithinBudget(cfg, net, step, m, handled, budget);
    case Lose(_) => LoseWithinBudget(cfg, net, step, m, handled, budget);
  }

  lemma {:induction false} RunWithinBudget(cfg: Config, nets: seq<Net>, steps: seq<Step>, k: nat, m: MessageId,
                                           budget: nat)
    requires IsRun(cfg, nets, steps) && k <= |steps|
    requires budget >= cfg.fanout * Weight(cfg.maxTtl, cfg.fanout)
    ensures WithinBudget(cfg, nets[k], m, Handled(nets, steps, k, m), budget)
  {
    if k == 0 {
    } else {
      RunWithinBudget(cfg, nets, steps, k - 1, m, budget);
      RunTraced(cfg, nets, steps, k - 1);
      StepWithinBudget(cfg, nets[k - 1], steps[k - 1], m, Handled(nets, steps, k - 1, m), budget);
    }
  }

  /** Flooding terminates with a real bound: in any run, with any evictions, losses and other traffic,
      one broadcast causes at most fanout + fanout^2 + ... + fanout^max_ttl sends, and no more steps
      than sends handle its copies. */
  lemma FloodBound(cfg: Config, nets: seq<Net>, steps: seq<Step>, k: nat, m: MessageId)
    requires IsRun(cfg, nets, steps) && k <= |steps|
    ensures Count(nets[k].sent, m) <= PowerSum(cfg.fanout, MaxHops(cfg))
    ensures Handled(nets, steps, k, m) + Count(nets[k].flying, m) == Count(nets[k].sent, m)
  {
    WeightIsGeometric(cfg.maxTtl, cfg.fanout);
    RunWithinBudget(cfg, nets, steps, k, m, cfg.fanout * Weight(cfg.maxTtl, cfg.fanout));
    WeightAtLeastCount(nets[k].flying, m, cfg.fanout);
  }

  // ----- deduplication over whole runs ----------------------------------------------------------

  /** The id whose cache entry node n accesses in a step, if any. */
  ghost function AccessBy(cfg: Config, net: Net, step: Step, n: PeerId): seq<MessageId> {
    match step
    case Broadcast(node, id, _, _) => if node == n then [id] else []
    case Process(i, _) =>
      if i < |net.flying| && net.flying[i].to == n && net.flying[i].env.Verify(cfg.crypto) then
        [net.flying[i].env.id]
      else []
    case Lose(_) => []
  }

  /** The ids node n accessed in the first k steps. */
  ghost function Accesses(cfg: Config, nets: seq<Net>, steps: seq<Step>, k: nat, n: PeerId): seq<MessageId>
    requires k <= |steps| < |nets|
  {
    if k == 0 then [] else Accesses(cfg, nets, steps, k - 1, n) + AccessBy(cfg, nets[k - 1], steps[k - 1], n)
  }

  lemma CacheStep(cfg: Config, net: Net, step: Step, n: PeerId)
    requires Enabled(cfg, net, step) && n in net.nodes
    ensures n in Next(cfg, net, step).nodes
    ensures var now := AccessBy(cfg, net, step, n);
            Next(cfg, net, step).nodes[n].seen ==
            if now == [] then net.nodes[n].seen else Touch(net.nodes[n].seen, now[0], cfg.capacity)
  {
  }

  lemma CacheFollowsAccess(seen: seq<MessageId>, h: seq<MessageId>, now: seq<MessageId>, capacity: nat)
    requires seen == Take(Recent(h), capacity) && |now| <= 1 && capacity > 0
    ensures (if now == [] then seen else Touch(seen, now[0], capacity)) == Take(Recent(h + now), capacity)
  {
    if now == [] {
      assert h + now == h;
    } else {
      TouchFollowsHistory(h, now[0], capacity);
      assert now == [now[0]];
    }
  }

  lemma NodeWasThere(cfg: Config, nets: seq<Net>, steps: seq<Step>, k: nat, n: PeerId)
    requires IsRun(cfg, nets, steps) && k < |steps| && n in nets[k + 1].nodes
    ensures n in nets[k].nodes && nets[k + 1] == Next(cfg, nets[k], steps[k])
  {
    RunTraced(cfg, nets, steps, k);
    WiringKept(cfg, nets[k], steps[k]);
  }

  lemma {:induction false} CacheFollowsAccesses(cfg: Config, nets: seq<Net>, steps: seq<Step>, k: nat, n: PeerId)
    requires IsRun(cfg, nets, steps) && k <= |steps| && n in nets[k].nodes
    ensures nets[k].nodes[n].seen == Take(Recent(Accesses(cfg, nets, steps, k, n)), cfg.capacity)
  {
    if k == 0 {
    } else {
      NodeWasThere(cfg, nets, steps, k - 1, n);
      CacheFollowsAccesses(cfg, nets, steps, k - 1, n);
      CacheStep(cfg, nets[k - 1], steps[k - 1], n);
      CacheFollowsAccess(nets[k - 1].nodes[n].seen, Accesses(cfg, nets, steps, k - 1, n),
                         AccessBy(cfg, nets[k - 1], steps[k - 1], n), cfg.capacity);
    }
  }

  /** In any run, with any traffic, a node publishes a copy exactly when it verifies and the node has
      never accessed its id before, be it by broadcasting it or by receiving it, or has accessed at
      least `capacity` distinct other ids since. */
  lemma PublishesIff(cfg: Config, nets: seq<Net>, steps: seq<Step>, k: nat, c: Copy)
    requires IsRun(cfg, nets, steps) && k <= |steps| && c.to in nets[k].nodes
    ensures var h := Accesses(cfg, nets, steps, k, c.to);
            Publishes(cfg, nets[k], c) <==>
              && cfg.crypto.check(c.env.origin, Signed(c.env.id, c.env.origin, c.env.payload), c.env.signature)
              && (c.env.id !in h || |Since(h, c.env.id)| >= cfg.capacity)
  {
    CacheFollowsAccesses(cfg, nets, steps, k, c.to);
    CachedIff(Accesses(cfg, nets, steps, k, c.to), c.env.id, cfg.capacity);
  }
}
