/** Why `Reach` asks for copies to be processed in order of hops: a run in which a copy that took a detour
    overtakes the direct one, and a node within max_ttl hops is never reached. */
module HopOrder {
  import opened Core
  import opened Lru
  import opened Gossip
  import opened Flood
  import opened Reach

  /** Four nodes: o is connected to a and b, a to b, and b to c. */
  datatype Square = Square(ko: Key, ka: Key, kb: Key, kc: Key, o: PeerId, a: PeerId, b: PeerId, c: PeerId)

  ghost predicate Proper(cfg: Config, q: Square) {
    && Sound(cfg.crypto) && cfg.capacity > 0 && cfg.fanout >= 2 && cfg.maxTtl == 2
    && cfg.crypto.publicKey(q.ko) == q.o && cfg.crypto.publicKey(q.ka) == q.a
    && cfg.crypto.publicKey(q.kb) == q.b && cfg.crypto.publicKey(q.kc) == q.c
    && q.o != q.a && q.o != q.b && q.o != q.c && q.a != q.b && q.a != q.c && q.b != q.c
  }

  function LinksO(q: Square): map<ConnectionId, End> { map[0 := End(q.a, 0), 1 := End(q.b, 0)] }
  function LinksA(q: Square): map<ConnectionId, End> { map[0 := End(q.o, 0), 1 := End(q.b, 1)] }
  function LinksB(q: Square): map<ConnectionId, End> { map[0 := End(q.o, 1), 1 := End(q.a, 1), 2 := End(q.c, 0)] }
  function LinksC(q: Square): map<ConnectionId, End> { map[0 := End(q.b, 2)] }

  /** The nodes when their caches hold these ids; c's stays empty. */
  function Nodes(q: Square, so: seq<MessageId>, sa: seq<MessageId>, sb: seq<MessageId>): map<PeerId, Node> {
    map[q.o := Node(q.ko, so, LinksO(q)), q.a := Node(q.ka, sa, LinksA(q)),
        q.b := Node(q.kb, sb, LinksB(q)), q.c := Node(q.kc, [], LinksC(q))]
  }

  function Env(cfg: Config, q: Square, m: MessageId, payload: GossipMessage): Envelope {
    Original(cfg.crypto, q.ko, cfg.maxTtl, m, payload)
  }

  /** The copies sent: from o to a and b, and by way of a to b, with one hop less. */
  function ToA(cfg: Config, q: Square, m: MessageId, payload: GossipMessage): Copy {
    Copy(q.a, 0, Env(cfg, q, m, payload), [q.o])
  }
  function ToB(cfg: Config, q: Square, m: MessageId, payload: GossipMessage): Copy {
    Copy(q.b, 0, Env(cfg, q, m, payload), [q.o])
  }
  function Detour(cfg: Config, q: Square, m: MessageId, payload: GossipMessage): Copy {
    Copy(q.b, 1, Env(cfg, q, m, payload).(ttl := 1), [q.o, q.a])
  }

  function Steps(q: Square, m: MessageId, payload: GossipMessage): seq<Step> {
    [Broadcast(q.o, m, payload, [0, 1]), Process(0, [1]), Process(1, [0, 2]), Process(0, [1, 2])]
  }

  function Net0(q: Square): Net {
    Net(Nodes(q, [], [], []), [], map[], [], [])
  }

  function Net1(cfg: Config, q: Square, m: MessageId, payload: GossipMessage): Net {
    var a, b := ToA(cfg, q, m, payload), ToB(cfg, q, m, payload);
    Net(Nodes(q, [m], [], []), [a, b], map[m := Env(cfg, q, m, payload)], [a, b], [])
  }

  function Net2(cfg: Config, q: Square, m: MessageId, payload: GossipMessage): Net {
    var a, b, d := ToA(cfg, q, m, payload), ToB(cfg, q, m, payload), Detour(cfg, q, m, payload);
    Net(Nodes(q, [m], [m], []), [b, d], map[m := Env(cfg, q, m, payload)], [a, b, d], [a])
  }

  function Net3(cfg: Config, q: Square, m: MessageId, payload: GossipMessage): Net {
    var a, b, d := ToA(cfg, q, m, payload), ToB(cfg, q, m, payload), Detour(cfg, q, m, payload);
    Net(Nodes(q, [m], [m], [m]), [b], map[m := Env(cfg, q, m, payload)], [a, b, d], [a, d])
  }

  function Net4(cfg: Config, q: Square, m: MessageId, payload: GossipMessage): Net {
    Net3(cfg, q, m, payload).(flying := [])
  }

  function Nets(cfg: Config, q: Square, m: MessageId, payload: GossipMessage): seq<Net> {
    [Net0(q), Net1(cfg, q, m, payload), Net2(cfg, q, m, payload), Net3(cfg, q, m, payload), Net4(cfg, q, m, payload)]
  }

  ghost predicate Goes(cfg: Config, net: Net, step: Step, after: Net) {
    Enabled(cfg, net, step) && Next(cfg, net, step) == after
  }

  lemma TouchOnly(m: MessageId, capacity: nat)
    requires capacity > 0
    ensures Touch([], m, capacity) == [m] && Touch([m], m, capacity) == [m]
  {
    assert [m][1..] == [];
  }

  lemma AllPicked(eligible: set<ConnectionId>, fanout: nat, targets: seq<ConnectionId>)
    requires eligible == SeqSet(targets) && |targets| <= fanout
    requires forall i, k :: 0 <= i < k < |targets| ==> targets[i] != targets[k]
    ensures Picked(eligible, fanout, targets)
  {
    DistinctSize(targets);
  }

  lemma Picks(q: Square, fanout: nat)
    requires fanout >= 2
    ensures Picked(LinksO(q).Keys, fanout, [0, 1])
    ensures Picked(Eligible(LinksA(q).Keys, Some(0)), fanout, [1])
    ensures Picked(Eligible(LinksB(q).Keys, Some(1)), fanout, [0, 2])
    ensures Picked(Eligible(LinksB(q).Keys, Some(0)), fanout, [1, 2])
  {
    assert LinksO(q).Keys == SeqSet([0, 1]);
    AllPicked(LinksO(q).Keys, fanout, [0, 1]);
    assert Eligible(LinksA(q).Keys, Some(0)) == SeqSet([1]);
    AllPicked(Eligible(LinksA(q).Keys, Some(0)), fanout, [1]);
    assert Eligible(LinksB(q).Keys, Some(1)) == SeqSet([0, 2]);
    AllPicked(Eligible(LinksB(q).Keys, Some(1)), fanout, [0, 2]);
    assert Eligible(LinksB(q).Keys, Some(0)) == SeqSet([1, 2]);
    AllPicked(Eligible(LinksB(q).Keys, Some(0)), fanout, [1, 2]);
  }

  lemma CopiesMade(cfg: Config, q: Square, m: MessageId, payload: GossipMessage)
    ensures Copies(LinksO(q), [0, 1], Env(cfg, q, m, payload), [q.o]) ==
            [ToA(cfg, q, m, payload), ToB(cfg, q, m, payload)]
    ensures Copies(LinksA(q), [1], Env(cfg, q, m, payload).(ttl := 1), [q.o] + [q.a]) == [Detour(cfg, q, m, payload)]
  {
    assert [q.o] + [q.a] == [q.o, q.a];
  }

  lemma FirstStep(cfg: Config, q: Square, m: MessageId, payload: GossipMessage)
    requires Proper(cfg, q)
    ensures Goes(cfg, Net0(q), Broadcast(q.o, m, payload, [0, 1]), Net1(cfg, q, m, payload))
  {
    var net, step := Net0(q), Broadcast(q.o, m, payload, [0, 1]);
    assert net.nodes[q.o] == Node(q.ko, [], LinksO(q));
    assert Picked(LinksO(q).Keys, cfg.fanout, [0, 1]) by {
      Picks(q, cfg.fanout);
    }
    FirstNext(cfg, q, m, payload);
  }

  lemma FirstAccess(cfg: Config, q: Square, m: MessageId)
    requires Proper(cfg, q)
    ensures q.o in Nodes(q, [], [], []) && Access(cfg, Nodes(q, [], [], []), q.o, m) == Nodes(q, [m], [], [])
  {
    TouchOnly(m, cfg.capacity);
    assert Nodes(q, [], [], [])[q.o] == Node(q.ko, [], LinksO(q));
  }

  lemma FirstNext(cfg: Config, q: Square, m: MessageId, payload: GossipMessage)
    requires Proper(cfg, q) && Enabled(cfg, Net0(q), Broadcast(q.o, m, payload, [0, 1]))
    ensures Next(cfg, Net0(q), Broadcast(q.o, m, payload, [0, 1])) == Net1(cfg, q, m, payload)
  {
    FirstAccess(cfg, q, m);
    var a, b := ToA(cfg, q, m, payload), ToB(cfg, q, m, payload);
    assert Copies(LinksO(q), [0, 1], Env(cfg, q, m, payload), [q.o]) == [a, b] by {
      CopiesMade(cfg, q, m, payload);
    }
    assert Net0(q).nodes[q.o] == Node(q.ko, [], LinksO(q));
    assert [] + [a, b] == [a, b];
  }

  lemma SecondStep(cfg: Config, q: Square, m: MessageId, payload: GossipMessage)
    requires Proper(cfg, q)
    ensures Goes(cfg, Net1(cfg, q, m, payload), Process(0, [1]), Net2(cfg, q, m, payload))
  {
    var net := Net1(cfg, q, m, payload);
    assert net.nodes[q.a] == Node(q.ka, [], LinksA(q));
    assert Picked(Eligible(LinksA(q).Keys, Some(0)), cfg.fanout, [1]) by {
      Picks(q, cfg.fanout);
    }
    SecondNext(cfg, q, m, payload);
  }

  lemma SecondNext(cfg: Config, q: Square, m: MessageId, payload: GossipMessage)
    requires Proper(cfg, q) && Enabled(cfg, Net1(cfg, q, m, payload), Process(0, [1]))
    ensures Next(cfg, Net1(cfg, q, m, payload), Process(0, [1])) == Net2(cfg, q, m, payload)
  {
    var net, c := Net1(cfg, q, m, payload), ToA(cfg, q, m, payload);
    OriginalVerifies(cfg, q.ko, m, payload);
    TouchOnly(m, cfg.capacity);
    CopiesMade(cfg, q, m, payload);
    assert net.nodes[q.a] == Node(q.ka, [], LinksA(q)) && net.flying[0] == c;
    assert Remove(net.flying, 0) == [ToB(cfg, q, m, payload)];
    assert Access(cfg, net.nodes, q.a, m) == Nodes(q, [m], [m], []);
  }

  lemma ThirdStep(cfg: Config, q: Square, m: MessageId, payload: GossipMessage)
    requires Proper(cfg, q)
    ensures Goes(cfg, Net2(cfg, q, m, payload), Process(1, [0, 2]), Net3(cfg, q, m, payload))
  {
    var net := Net2(cfg, q, m, payload);
    assert net.nodes[q.b] == Node(q.kb, [], LinksB(q));
    assert Picked(Eligible(LinksB(q).Keys, Some(1)), cfg.fanout, [0, 2]) by {
      Picks(q, cfg.fanout);
    }
    ThirdNext(cfg, q, m, payload);
  }

  lemma ThirdNext(cfg: Config, q: Square, m: MessageId, payload: GossipMessage)
    requires Proper(cfg, q) && Enabled(cfg, Net2(cfg, q, m, payload), Process(1, [0, 2]))
    ensures Next(cfg, Net2(cfg, q, m, payload), Process(1, [0, 2])) == Net3(cfg, q, m, payload)
  {
    var net, d := Net2(cfg, q, m, payload), Detour(cfg, q, m, payload);
    OriginalVerifies(cfg, q.ko, m, payload);
    TouchOnly(m, cfg.capacity);
    assert net.nodes[q.b] == Node(q.kb, [], LinksB(q)) && net.flying[1] == d;
    assert Remove(net.flying, 1) == [ToB(cfg, q, m, payload)];
    assert Access(cfg, net.nodes, q.b, m) == Nodes(q, [m], [m], [m]);
  }

  lemma LastStep(cfg: Config, q: Square, m: MessageId, payload: GossipMessage)
    requires Proper(cfg, q)
    ensures Goes(cfg, Net3(cfg, q, m, payload), Process(0, [1, 2]), Net4(cfg, q, m, payload))
  {
    var net, c := Net3(cfg, q, m, payload), ToB(cfg, q, m, payload);
    Picks(q, cfg.fanout);
    OriginalVerifies(cfg, q.ko, m, payload);
    TouchOnly(m, cfg.capacity);
    assert net.nodes[q.b] == Node(q.kb, [m], LinksB(q)) && net.flying[0] == c;
    assert Remove(net.flying, 0) == [];
    assert Access(cfg, net.nodes, q.b, m) == Nodes(q, [m], [m], [m]);
  }

  lemma Answered(q: Square, n: PeerId, d: ConnectionId)
    requires q.o != q.a && q.o != q.b && q.o != q.c && q.a != q.b && q.a != q.c && q.b != q.c
    requires n in Nodes(q, [], [], []) && d in Nodes(q, [], [], [])[n].links
    ensures var nodes := Nodes(q, [], [], []);
            var e := nodes[n].links[d];
            e.node in nodes && e.conn in nodes[e.node].links && nodes[e.node].links[e.conn] == End(n, d)
  {
    var links := Nodes(q, [], [], [])[n].links;
    if n == q.o {
      assert links == LinksO(q) && (d == 0 || d == 1);
    } else if n == q.a {
      assert links == LinksA(q) && (d == 0 || d == 1);
    } else if n == q.b {
      assert links == LinksB(q) && (d == 0 || d == 1 || d == 2);
    } else {
      assert links == LinksC(q) && d == 0;
    }
  }

  lemma SquareIsWired(cfg: Config, q: Square)
    requires Proper(cfg, q)
    ensures Wired(cfg, Nodes(q, [], [], []))
  {
    var nodes := Nodes(q, [], [], []);
    forall n, d | n in nodes && d in nodes[n].links
      ensures var e := nodes[n].links[d];
              e.node in nodes && e.conn in nodes[e.node].links && nodes[e.node].links[e.conn] == End(n, d)
    {
      Answered(q, n, d);
    }
  }

  lemma SquareStarts(cfg: Config, q: Square)
    requires Proper(cfg, q)
    ensures Flood.Start(cfg, Net0(q))
  {
    SquareIsWired(cfg, q);
  }

  lemma SquareGoes(cfg: Config, q: Square, m: MessageId, payload: GossipMessage, k: nat)
    requires Proper(cfg, q) && k < 4
    ensures Goes(cfg, Nets(cfg, q, m, payload)[k], Steps(q, m, payload)[k], Nets(cfg, q, m, payload)[k + 1])
  {
    var nets, steps := Nets(cfg, q, m, payload), Steps(q, m, payload);
    if k == 0 {
      FirstStep(cfg, q, m, payload);
      assert Goes(cfg, nets[0], steps[0], nets[1]);
    } else if k == 1 {
      SecondStep(cfg, q, m, payload);
      assert Goes(cfg, nets[1], steps[1], nets[2]);
    } else if k == 2 {
      ThirdStep(cfg, q, m, payload);
      assert Goes(cfg, nets[2], steps[2], nets[3]);
    } else {
      LastStep(cfg, q, m, payload);
      assert Goes(cfg, nets[3], steps[3], nets[4]);
    }
  }

  lemma SquareRuns(cfg: Config, q: Square, m: MessageId, payload: GossipMessage)
    requires Proper(cfg, q)
    ensures IsRun(cfg, Nets(cfg, q, m, payload), Steps(q, m, payload))
  {
    var nets, steps := Nets(cfg, q, m, payload), Steps(q, m, payload);
    SquareStarts(cfg, q);
    forall k | 0 <= k < |steps| ensures Enabled(cfg, nets[k], steps[k]) && nets[k + 1] == Next(cfg, nets[k], steps[k]) {
      SquareGoes(cfg, q, m, payload, k);
    }
  }

  lemma InOrderBut(cfg: Config, q: Square, m: MessageId, payload: GossipMessage, i: nat)
    requires Proper(cfg, q) && i < 4 && i != 2
    ensures InOrder(Nets(cfg, q, m, payload)[i], Steps(q, m, payload)[i], m)
  {
    assert i == 0 || i == 1 || i == 3;
  }

  lemma CachesGrow(q: Square, net: Net, after: Net, m: MessageId, so: seq<MessageId>, sa: seq<MessageId>,
                   sb: seq<MessageId>, so': seq<MessageId>, sa': seq<MessageId>, sb': seq<MessageId>)
    requires net.nodes == Nodes(q, so, sa, sb) && after.nodes == Nodes(q, so', sa', sb')
    requires (m in so ==> m in so') && (m in sa ==> m in sa') && (m in sb ==> m in sb')
    ensures Reached(net, m) <= Reached(after, m)
  {
  }

  lemma NothingEvicted(cfg: Config, q: Square, m: MessageId, payload: GossipMessage)
    requires Proper(cfg, q)
    ensures NeverEvicted(Nets(cfg, q, m, payload), m)
  {
    var nets := Nets(cfg, q, m, payload);
    CachesGrow(q, nets[0], nets[1], m, [], [], [], [m], [], []);
    CachesGrow(q, nets[1], nets[2], m, [m], [], [], [m], [m], []);
    CachesGrow(q, nets[2], nets[3], m, [m], [m], [], [m], [m], [m]);
    forall k | 0 <= k < |nets| - 1 ensures Reached(nets[k], m) <= Reached(nets[k + 1], m) {
      assert k == 0 || k == 1 || k == 2 || nets[k].nodes == nets[k + 1].nodes;
    }
  }

  lemma DegreesSuffice(cfg: Config, q: Square)
    requires Proper(cfg, q)
    ensures SmallDegrees(cfg, Nodes(q, [], [], [])) && SmallOrigin(cfg, Nodes(q, [], [], []), q.o)
  {
    var nodes := Nodes(q, [], [], []);
    assert LinksO(q).Keys == {0, 1} && LinksA(q).Keys == {0, 1};
    assert LinksB(q).Keys == {0, 1, 2} && LinksC(q).Keys == {0};
    assert nodes[q.o].links == LinksO(q);
    forall n | n in nodes ensures |nodes[n].links.Keys| <= cfg.fanout + 1 {
      assert nodes[n].links in {LinksO(q), LinksA(q), LinksB(q), LinksC(q)};
    }
  }

  lemma LastInBall(cfg: Config, q: Square)
    requires Proper(cfg, q)
    ensures q.c in Ball(EdgesOf(Nodes(q, [], [], [])), q.o, 2)
  {
    var nodes := Nodes(q, [], [], []);
    assert nodes[q.o].links[1].node == q.b && nodes[q.b].links[2].node == q.c;
    assert Linked(nodes, q.o, q.b) && Linked(nodes, q.b, q.c);
    LinkedIsEdge(nodes, q.o, q.b);
    LinkedIsEdge(nodes, q.b, q.c);
    OneStepOut(EdgesOf(nodes), q.o, 0, q.o, q.b);
    OneStepOut(EdgesOf(nodes), q.o, 1, q.b, q.c);
  }

  lemma NeverPublished(cfg: Config, q: Square, m: MessageId, payload: GossipMessage)
    requires Proper(cfg, q)
    ensures Publications(Net4(cfg, q, m, payload).published, q.c, m) == 0
  {
    var a, d := ToA(cfg, q, m, payload), Detour(cfg, q, m, payload);
    assert [a, d][..1] == [a] && [a][..0] == [];
    assert Publications([a], q.c, m) == 0;
  }

  lemma EndsQuiet(cfg: Config, q: Square, m: MessageId, payload: GossipMessage)
    requires Proper(cfg, q)
    ensures m in Net4(cfg, q, m, payload).origins && Net4(cfg, q, m, payload).origins[m].origin == q.o
    ensures forall c :: !IsFlying(Net4(cfg, q, m, payload), m, c)
  {
  }

  /** All that `ReachIsABall` asks for, but that step `late` handles a copy out of hop order. */
  ghost predicate OutOfOrderOnce(cfg: Config, nets: seq<Net>, steps: seq<Step>, m: MessageId, o: PeerId, late: nat) {
    && IsRun(cfg, nets, steps) && NeverEvicted(nets, m)
    && m in nets[|steps|].origins && nets[|steps|].origins[m].origin == o
    && (forall c :: !IsFlying(nets[|steps|], m, c))
    && SmallDegrees(cfg, nets[0].nodes) && SmallOrigin(cfg, nets[0].nodes, o)
    && (forall i :: 0 <= i < |steps| ==> !steps[i].Lose? && (i != late ==> InOrder(nets[i], steps[i], m)))
  }

  lemma OnceOutOfOrder(cfg: Config, q: Square, m: MessageId, payload: GossipMessage)
    requires Proper(cfg, q)
    ensures OutOfOrderOnce(cfg, Nets(cfg, q, m, payload), Steps(q, m, payload), m, q.o, 2)
  {
    var nets, steps := Nets(cfg, q, m, payload), Steps(q, m, payload);
    SquareRuns(cfg, q, m, payload);
    NothingEvicted(cfg, q, m, payload);
    EndsQuiet(cfg, q, m, payload);
    DegreesSuffice(cfg, q);
    forall i | 0 <= i < |steps| ensures !steps[i].Lose? && (i != 2 ==> InOrder(nets[i], steps[i], m)) {
      if i != 2 {
        InOrderBut(cfg, q, m, payload, i);
      }
    }
  }

  /** Hop order matters: with a single copy handled out of order and everything else as `ReachIsABall` asks
      for, node c, two hops from the origin, never publishes a broadcast that may travel two hops. */
  lemma HopOrderMatters(cfg: Config, q: Square, m: MessageId, payload: GossipMessage)
    returns (nets: seq<Net>, steps: seq<Step>)
    requires Proper(cfg, q)
    ensures OutOfOrderOnce(cfg, nets, steps, m, q.o, 2)
    ensures q.c != q.o && q.c in Ball(EdgesOf(nets[0].nodes), q.o, MaxHops(cfg))
    ensures Publications(nets[|steps|].published, q.c, m) == 0
  {
    nets, steps := Nets(cfg, q, m, payload), Steps(q, m, payload);
    OnceOutOfOrder(cfg, q, m, payload);
    LastInBall(cfg, q);
    NeverPublished(cfg, q, m, payload);
  }
}
