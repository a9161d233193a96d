/** The claim protocol on the network it is deployed on: every worker is connected to the coordinator
    only, and each connection is a lossless FIFO queue. A broadcast is not atomic: the task that
    makes it puts the message on one connection after the other, while the coordinator's other tasks
    go on. Rejections carry no worker id and stale offers are possible; still no winner is lost. */
module Star {
  import opened Core
  import opened Jobs
  import Coordinator
  import Worker

  /** The gossip handler is ready for the next message, or still has to put its reply on the
      connections to the workers in `left`. */
  datatype Handler = Ready | Replying(msg: GossipMessage, left: set<PeerId>)

  /** An offer that the create or rebroadcast task still has to put on the connections in `left`. */
  datatype Offer = Offer(job: Job, left: set<PeerId>)

  type Queues = map<PeerId, seq<GossipMessage>>
  type Workers = map<PeerId, Worker.State>
  type Claims = multiset<(JobId, PeerId)>

  /** `created` are the ids create_job has inserted, `claims` the claims on their way to the
      coordinator, in any order, and `down` the queue to each worker. `started` records which workers
      have moved from claiming to proving which jobs. */
  datatype Net = Net(
    table: Table,
    created: set<JobId>,
    handler: Handler,
    offers: multiset<Offer>,
    claims: Claims,
    workers: Workers,
    down: Queues,
    started: set<(JobId, PeerId)>)

  datatype Step =
    | Create(job: Job, targets: set<PeerId>)
    | Rebroadcast(id: JobId, targets: set<PeerId>)
    | OfferTo(offer: Offer, to: PeerId)
    | TakeClaim(id: JobId, worker: PeerId, now: nat, targets: set<PeerId>)
    | ReplyTo(to: PeerId)
    | ReplyDone
    | ChainUpdate(id: JobId, u: Update)
    | ChainInsert(id: JobId, txHash: TxHash)
    | Deliver(to: PeerId, now: nat)
    | TaskStep(worker: PeerId, event: Worker.Event)

  /** A broadcast goes to all connections, or to `fanout` of them if there are more. */
  predicate ValidTargets(workers: set<PeerId>, fanout: nat, targets: set<PeerId>) {
    targets <= workers && |targets| == if |workers| <= fanout then |workers| else fanout
  }

  predicate Enabled(fanout: nat, s: Net, step: Step) {
    match step
    case Create(job, targets) =>
      job.id !in s.created && job.status.Pending? && ValidTargets(s.workers.Keys, fanout, targets)
    case Rebroadcast(id, targets) =>
      id in s.table && s.table[id].status.Pending? && ValidTargets(s.workers.Keys, fanout, targets)
    case OfferTo(offer, to) => offer in s.offers && to in offer.left && to in s.down
    case TakeClaim(id, worker, _, targets) =>
      s.handler.Ready? && (id, worker) in s.claims && ValidTargets(s.workers.Keys, fanout, targets)
    case ReplyTo(to) => s.handler.Replying? && to in s.handler.left && to in s.down
    case ReplyDone => s.handler.Replying? && s.handler.left == {}
    case ChainUpdate(_, u) => !u.Claim?
    case ChainInsert(id, _) => id !in s.table
    case Deliver(to, _) => to in s.workers && to in s.down && s.down[to] != []
    case TaskStep(w, e) => w in s.workers && !e.Receive? && Worker.Possible(s.workers[w], e)
  }

  function ClaimsOf(msgs: seq<GossipMessage>): multiset<(JobId, PeerId)> {
    if msgs == [] then multiset{}
    else (if msgs[0].ClaimJob? then multiset{(msgs[0].jobId, msgs[0].workerId)} else multiset{}) + ClaimsOf(msgs[1..])
  }

  function Enqueue(down: Queues, to: PeerId, msg: GossipMessage): Queues {
    if to in down then down[to := down[to] + [msg]] else down
  }

  function Started(w: PeerId, before: Worker.Status, after: Worker.Status): set<(JobId, PeerId)> {
    if before.Claiming? && after.Proving? then {(after.job.id, w)} else {}
  }

  function Next(s: Net, step: Step): Net {
    match step
    case Create(job, targets) =>
      s.(table := Coordinator.Create(s.table, job).table, created := s.created + {job.id},
         offers := s.offers + multiset{Offer(job, targets)})
    case Rebroadcast(id, targets) =>
      if id in s.table then s.(offers := s.offers + multiset{Offer(s.table[id], targets)}) else s
    case OfferTo(offer, to) =>
      s.(offers := s.offers - multiset{offer} + multiset{offer.(left := offer.left - {to})},
         down := Enqueue(s.down, to, JobAvailable(offer.job)))
    case TakeClaim(id, worker, now, targets) =>
      var a := Coordinator.Arbitrate(s.table, id, worker, now);
      s.(table := a.table, handler := Replying(a.reply, targets), claims := s.claims - multiset{(id, worker)})
    case ReplyTo(to) =>
      if s.handler.Replying? then
        s.(handler := s.handler.(left := s.handler.left - {to}), down := Enqueue(s.down, to, s.handler.msg))
      else s
    case ReplyDone => s.(handler := Ready)
    case ChainUpdate(id, u) => s.(table := UpdateEntry(s.table, id, u))
    case ChainInsert(id, txHash) => s.(table := s.table[id := Placeholder(id, txHash)])
    case Deliver(to, now) =>
      if to in s.workers && to in s.down && s.down[to] != [] then
        var r := Worker.OnMessage(to, s.workers[to], s.down[to][0], now);
        s.(workers := s.workers[to := r.state], down := s.down[to := s.down[to][1..]],
           claims := s.claims + ClaimsOf(r.sent),
           started := s.started + Started(to, s.workers[to].status, r.state.status))
      else s
    case TaskStep(w, e) =>
      if w in s.workers then s.(workers := s.workers[w := Worker.React(w, s.workers[w], e).state]) else s
  }

  ghost predicate Start(s: Net) {
    && s.table == map[] && s.created == {} && s.handler.Ready?
    && s.offers == multiset{} && s.claims == multiset{} && s.started == {}
    && s.down.Keys == s.workers.Keys
    && (forall w :: w in s.workers ==> s.workers[w] == Worker.INITIAL && s.down[w] == [])
  }

  function Run(s: Net, steps: seq<Step>): Net {
    if steps == [] then s else Next(Run(s, steps[..|steps| - 1]), steps[|steps| - 1])
  }

  ghost predicate Legal(fanout: nat, s: Net, steps: seq<Step>) {
    steps != [] ==>
      Legal(fanout, s, steps[..|steps| - 1]) && Enabled(fanout, Run(s, steps[..|steps| - 1]), steps[|steps| - 1])
  }

  // ----- invariants ---------------------------------------------------------------------------

  /** The message can move a worker that is claiming job id. */
  predicate Decides(m: GossipMessage, id: JobId) {
    (m.ClaimAccepted? || m.ClaimRejected?) && m.jobId == id
  }

  ghost predicate Silent(q: seq<GossipMessage>, id: JobId) {
    forall i :: 0 <= i < |q| ==> !Decides(q[i], id)
  }

  /** No message about the fate of a job is queued, or about to be. */
  ghost predicate Undecided(h: Handler, down: Queues, id: JobId) {
    && (h.Replying? ==> !Decides(h.msg, id))
    && (forall w :: w in down ==> Silent(down[w], id))
  }

  ghost predicate TableOk(t: Table, created: set<JobId>) {
    && OwnIds(t)
    && (forall id :: id in created ==> id in t)
    && (forall id :: id in t && t[id].status.Pending? ==> id in created)
  }

  /** Nothing is offered, claimed or decided before it is created. */
  ghost predicate OnlyCreated(created: set<JobId>, offers: multiset<Offer>, claims: Claims, h: Handler, down: Queues) {
    && (forall o :: o in offers ==> o.job.id in created)
    && (forall c :: c in claims ==> c.0 in created)
    && (forall id: JobId :: id !in created ==> Undecided(h, down, id))
  }

  /** While a job is pending its fate is open, and whoever claimed it is waiting for the answer. */
  ghost predicate PendingOpen(t: Table, claims: Claims, h: Handler, down: Queues, workers: Workers) {
    && (forall id :: id in t && t[id].status.Pending? ==> Undecided(h, down, id))
    && (forall c :: c in claims && c.0 in t && t[c.0].status.Pending? ==>
          c.1 in workers && Worker.IsClaiming(workers[c.1].status, c.0))
  }

  /** The acceptance of w's claim that is still to be queued for w finds w waiting, with nothing in
      its queue that could move it. */
  ghost predicate WinnerAwaits(h: Handler, down: Queues, workers: Workers) {
    h.Replying? ==>
      && (h.msg.ClaimAccepted? || h.msg.ClaimRejected?)
      && (h.msg.ClaimAccepted? && h.msg.workerId in h.left ==>
            var w, id := h.msg.workerId, h.msg.jobId;
            w in workers && Worker.IsClaiming(workers[w].status, id) && w in down && Silent(down[w], id))
  }

  /** A queue holds offers of created jobs only, and an acceptance of its worker's claim finds the
      worker waiting with nothing before it in the queue that can move it. */
  ghost predicate QueueOk(created: set<JobId>, w: PeerId, status: Worker.Status, q: seq<GossipMessage>) {
    && (forall m :: m in q && m.JobAvailable? ==> m.job.id in created)
    && (forall p :: 0 <= p < |q| && q[p].ClaimAccepted? && q[p].workerId == w ==>
          Worker.IsClaiming(status, q[p].jobId) && Silent(q[..p], q[p].jobId))
  }

  ghost predicate QueuesOk(created: set<JobId>, down: Queues, workers: Workers) {
    && down.Keys == workers.Keys
    && (forall w :: w in workers ==> Worker.Agrees(workers[w]))
    && (forall w :: w in down ==> QueueOk(created, w, workers[w].status, down[w]))
  }

  ghost predicate Inv(s: Net) {
    && TableOk(s.table, s.created)
    && OnlyCreated(s.created, s.offers, s.claims, s.handler, s.down)
    && PendingOpen(s.table, s.claims, s.handler, s.down, s.workers)
    && WinnerAwaits(s.handler, s.down, s.workers)
    && QueuesOk(s.created, s.down, s.workers)
  }

  // ----- each kind of step keeps the invariant --------------------------------------------------

  /** A waiting worker is moved only by a message that decides its job. */
  lemma Waits(me: PeerId, w: Worker.State, id: JobId, msg: GossipMessage, now: nat)
    requires Worker.IsClaiming(w.status, id) && !Decides(msg, id)
    ensures Worker.OnMessage(me, w, msg, now) == Worker.Reaction(w, [])
  {
  }

  lemma EnqueueOk(created: set<JobId>, w: PeerId, status: Worker.Status, q: seq<GossipMessage>, msg: GossipMessage)
    requires QueueOk(created, w, status, q) && (msg.JobAvailable? ==> msg.job.id in created)
    requires msg.ClaimAccepted? && msg.workerId == w ==> Worker.IsClaiming(status, msg.jobId) && Silent(q, msg.jobId)
    ensures QueueOk(created, w, status, q + [msg])
  {
    var q' := q + [msg];
    assert q'[..|q|] == q;
    forall p | 0 <= p < |q'| && q'[p].ClaimAccepted? && q'[p].workerId == w
      ensures Worker.IsClaiming(status, q'[p].jobId) && Silent(q'[..p], q'[p].jobId)
    {
      if p < |q| {
        assert q'[..p] == q[..p];
      }
    }
  }

  lemma DequeueOk(created: set<JobId>, w: PeerId, state: Worker.State, q: seq<GossipMessage>, now: nat)
    requires QueueOk(created, w, state.status, q) && q != []
    ensures QueueOk(created, w, Worker.OnMessage(w, state, q[0], now).state.status, q[1..])
  {
    var q' := q[1..];
    forall p | 0 <= p < |q'| && q'[p].ClaimAccepted? && q'[p].workerId == w
      ensures Worker.IsClaiming(Worker.OnMessage(w, state, q[0], now).state.status, q'[p].jobId)
      ensures Silent(q'[..p], q'[p].jobId)
    {
      var before := q[..p + 1];
      assert q[p + 1] == q'[p] && before[0] == q[0];
      Waits(w, state, q'[p].jobId, q[0], now);
      assert q'[..p] == before[1..];
    }
  }

  lemma QueuesOkGrows(created: set<JobId>, more: set<JobId>, down: Queues, workers: Workers)
    requires QueuesOk(created, down, workers) && created <= more
    ensures QueuesOk(more, down, workers)
  {
  }

  lemma CreateKeeps(s: Net, job: Job, targets: set<PeerId>)
    requires Inv(s) && job.id !in s.created && job.status.Pending?
    ensures Inv(Next(s, Create(job, targets)))
  {
    assert Undecided(s.handler, s.down, job.id);
    QueuesOkGrows(s.created, s.created + {job.id}, s.down, s.workers);
  }

  lemma RebroadcastKeeps(s: Net, id: JobId, targets: set<PeerId>)
    requires Inv(s) && id in s.table && s.table[id].status.Pending?
    ensures Inv(Next(s, Rebroadcast(id, targets)))
  {
  }

  /** Queueing a message leaves open the fate of every job it does not decide. */
  lemma EnqueueUndecided(h: Handler, down: Queues, to: PeerId, msg: GossipMessage)
    requires to in down
    ensures forall id: JobId :: Undecided(h, down, id) && !Decides(msg, id) ==> Undecided(h, Enqueue(down, to, msg), id)
  {
  }

  lemma EnqueueQueues(created: set<JobId>, down: Queues, workers: Workers, to: PeerId, msg: GossipMessage)
    requires QueuesOk(created, down, workers) && to in down && (msg.JobAvailable? ==> msg.job.id in created)
    requires msg.ClaimAccepted? && msg.workerId == to ==>
               Worker.IsClaiming(workers[to].status, msg.jobId) && Silent(down[to], msg.jobId)
    ensures QueuesOk(created, Enqueue(down, to, msg), workers)
  {
    EnqueueOk(created, to, workers[to].status, down[to], msg);
  }

  /** As long as no job's fate is decided anew, what is created or pending stays open. */
  lemma OpenKept(s: Net, offers: multiset<Offer>, h: Handler, down: Queues)
    requires Inv(s) && forall o :: o in offers ==> o.job.id in s.created
    requires forall id: JobId :: Undecided(s.handler, s.down, id) ==> Undecided(h, down, id)
    ensures OnlyCreated(s.created, offers, s.claims, h, down)
    ensures PendingOpen(s.table, s.claims, h, down, s.workers)
  {
  }

  lemma OfferKeeps(s: Net, offer: Offer, to: PeerId)
    requires Inv(s) && offer in s.offers && to in s.down
    ensures Inv(s.(offers := s.offers - multiset{offer} + multiset{offer.(left := offer.left - {to})},
                   down := Enqueue(s.down, to, JobAvailable(offer.job))))
  {
    var msg := JobAvailable(offer.job);
    var offers := s.offers - multiset{offer} + multiset{offer.(left := offer.left - {to})};
    EnqueueQueues(s.created, s.down, s.workers, to, msg);
    EnqueueUndecided(s.handler, s.down, to, msg);
    OpenKept(s, offers, s.handler, Enqueue(s.down, to, msg));
    OfferAwaits(s.handler, s.down, s.workers, to, msg);
  }

  lemma OfferAwaits(h: Handler, down: Queues, workers: Workers, to: PeerId, msg: GossipMessage)
    requires WinnerAwaits(h, down, workers) && to in down && msg.JobAvailable?
    ensures WinnerAwaits(h, Enqueue(down, to, msg), workers)
  {
  }

  lemma ReplyAwaits(h: Handler, down: Queues, workers: Workers, to: PeerId)
    requires WinnerAwaits(h, down, workers) && h.Replying? && to in down
    ensures WinnerAwaits(h.(left := h.left - {to}), Enqueue(down, to, h.msg), workers)
  {
  }

  lemma ReplyKeeps(s: Net, to: PeerId)
    requires Inv(s) && s.handler.Replying? && to in s.handler.left && to in s.down
    ensures Inv(s.(handler := s.handler.(left := s.handler.left - {to}), down := Enqueue(s.down, to, s.handler.msg)))
  {
    var h, down := s.handler.(left := s.handler.left - {to}), Enqueue(s.down, to, s.handler.msg);
    EnqueueQueues(s.created, s.down, s.workers, to, s.handler.msg);
    ReplyAwaits(s.handler, s.down, s.workers, to);
    ReplyUndecided(s.handler, s.down, to);
    OpenKept(s, s.offers, h, down);
  }

  lemma ReplyUndecided(h: Handler, down: Queues, to: PeerId)
    requires h.Replying? && to in down
    ensures forall id: JobId :: Undecided(h, down, id) ==>
              Undecided(h.(left := h.left - {to}), Enqueue(down, to, h.msg), id)
  {
  }

  /** A table may change as long as no entry disappears or becomes pending. */
  lemma TableKeeps(s: Net, t: Table)
    requires Inv(s) && OwnIds(t) && s.table.Keys <= t.Keys
    requires forall id :: id in t && t[id].status.Pending? ==> id in s.table && s.table[id].status.Pending?
    ensures Inv(s.(table := t))
  {
  }

  /** The handler turns to a verdict on a job that is no longer pending. */
  lemma VerdictKeeps(s: Net, msg: GossipMessage, id: JobId, targets: set<PeerId>)
    requires Inv(s) && s.handler.Ready? && id in s.created && !s.table[id].status.Pending?
    requires Decides(msg, id)
    requires msg.ClaimAccepted? ==>
               && msg.workerId in s.workers && Worker.IsClaiming(s.workers[msg.workerId].status, id)
               && Undecided(s.handler, s.down, id)
    ensures Inv(s.(handler := Replying(msg, targets)))
  {
    assert forall k: JobId :: k != id && Undecided(s.handler, s.down, k) ==>
             Undecided(Replying(msg, targets), s.down, k);
  }

  lemma FewerClaims(s: Net, claims: Claims)
    requires Inv(s) && claims <= s.claims
    ensures Inv(s.(claims := claims))
  {
    assert forall c :: c in claims ==> c in s.claims;
  }

  lemma ClaimKeeps(s: Net, id: JobId, worker: PeerId, now: nat, targets: set<PeerId>)
    requires Inv(s) && s.handler.Ready? && (id, worker) in s.claims
    ensures Inv(Next(s, TakeClaim(id, worker, now, targets)))
  {
    var a := Coordinator.Arbitrate(s.table, id, worker, now);
    assert id in s.created;
    TableKeeps(s, a.table);
    var t := s.(table := a.table);
    VerdictKeeps(t, a.reply, id, targets);
    FewerClaims(t.(handler := Replying(a.reply, targets)), s.claims - multiset{(id, worker)});
  }

  lemma ChainKeeps(s: Net, id: JobId, u: Update, txHash: TxHash)
    requires Inv(s) && !u.Claim?
    ensures Inv(s.(table := UpdateEntry(s.table, id, u)))
    ensures id !in s.table ==> Inv(s.(table := s.table[id := Placeholder(id, txHash)]))
  {
    TableKeeps(s, UpdateEntry(s.table, id, u));
    if id !in s.table {
      TableKeeps(s, s.table[id := Placeholder(id, txHash)]);
    }
  }

  /** What a delivery leaves of a worker and of its queue. */
  lemma DeliverQueues(created: set<JobId>, down: Queues, workers: Workers, to: PeerId, now: nat)
    requires QueuesOk(created, down, workers) && to in down && down[to] != []
    ensures var r := Worker.OnMessage(to, workers[to], down[to][0], now);
            && QueuesOk(created, down[to := down[to][1..]], workers[to := r.state])
            && (forall c :: c in ClaimsOf(r.sent) ==>
                  c.0 in created && c.1 == to && Worker.IsClaiming(r.state.status, c.0))
  {
    var r := Worker.OnMessage(to, workers[to], down[to][0], now);
    DequeueOk(created, to, workers[to], down[to], now);
    Worker.ReactKeepsAgreement(to, workers[to], Worker.Receive(down[to][0], now));
    if r.sent != [] {
      assert r.sent[1..] == [];
      assert down[to][0] in down[to];
    }
  }

  lemma DequeueUndecided(h: Handler, down: Queues, to: PeerId)
    requires to in down && down[to] != []
    ensures forall id: JobId :: Undecided(h, down, id) ==> Undecided(h, down[to := down[to][1..]], id)
  {
  }

  /** Whoever is waiting for an answer goes on waiting when another message is delivered. */
  lemma DeliverWaits(down: Queues, workers: Workers, to: PeerId, now: nat, id: JobId)
    requires to in workers && to in down && down[to] != []
    requires Worker.IsClaiming(workers[to].status, id) && Silent(down[to], id)
    ensures Worker.OnMessage(to, workers[to], down[to][0], now).state == workers[to]
  {
    Waits(to, workers[to], id, down[to][0], now);
  }

  lemma DeliverPending(s: Net, to: PeerId, now: nat, more: Claims, state: Worker.State, rest: seq<GossipMessage>)
    requires Inv(s) && to in s.workers && s.down[to] != [] && rest == s.down[to][1..]
    requires state == Worker.OnMessage(to, s.workers[to], s.down[to][0], now).state
    requires forall c :: c in more ==> c.0 in s.created && c.1 == to && Worker.IsClaiming(state.status, c.0)
    ensures OnlyCreated(s.created, s.offers, s.claims + more, s.handler, s.down[to := rest])
    ensures PendingOpen(s.table, s.claims + more, s.handler, s.down[to := rest], s.workers[to := state])
  {
    DequeueUndecided(s.handler, s.down, to);
    forall c | c in s.claims && c.0 in s.table && s.table[c.0].status.Pending?
      ensures c.1 in s.workers && Worker.IsClaiming(s.workers[to := state][c.1].status, c.0)
    {
      if c.1 == to {
        DeliverWaits(s.down, s.workers, to, now, c.0);
      }
    }
  }

  lemma DeliverAwaits(h: Handler, down: Queues, workers: Workers, to: PeerId, now: nat)
    requires WinnerAwaits(h, down, workers) && to in workers && to in down && down[to] != []
    ensures WinnerAwaits(h, down[to := down[to][1..]],
                         workers[to := Worker.OnMessage(to, workers[to], down[to][0], now).state])
  {
    if h.Replying? && h.msg.ClaimAccepted? && h.msg.workerId in h.left && h.msg.workerId == to {
      DeliverWaits(down, workers, to, now, h.msg.jobId);
    }
  }

  lemma DeliverKeeps(s: Net, to: PeerId, now: nat, r: Worker.Reaction)
    requires Inv(s) && to in s.workers && s.down[to] != []
    requires r == Worker.OnMessage(to, s.workers[to], s.down[to][0], now)
    ensures Inv(s.(workers := s.workers[to := r.state], down := s.down[to := s.down[to][1..]],
                   claims := s.claims + ClaimsOf(r.sent),
                   started := s.started + Started(to, s.workers[to].status, r.state.status)))
  {
    var rest, more, state := s.down[to][1..], ClaimsOf(r.sent), r.state;
    assert QueuesOk(s.created, s.down[to := rest], s.workers[to := state]) by {
      DeliverQueues(s.created, s.down, s.workers, to, now);
    }
    assert WinnerAwaits(s.handler, s.down[to := rest], s.workers[to := state]) by {
      DeliverAwaits(s.handler, s.down, s.workers, to, now);
    }
    assert forall c :: c in more ==> c.0 in s.created && c.1 == to && Worker.IsClaiming(state.status, c.0) by {
      DeliverQueues(s.created, s.down, s.workers, to, now);
    }
    DeliverPending(s, to, now, more, state, rest);
  }

  /** No acceptance is queued for a worker that is not waiting for one. */
  lemma BusyQueue(created: set<JobId>, w: PeerId, before: Worker.Status, after: Worker.Status, q: seq<GossipMessage>)
    requires QueueOk(created, w, before, q) && !before.Claiming?
    ensures QueueOk(created, w, after, q)
  {
  }

  /** A worker that is not waiting for an answer may move on. */
  lemma BusyKeeps(s: Net, w: PeerId, state: Worker.State)
    requires Inv(s) && w in s.workers && !s.workers[w].status.Claiming? && Worker.Agrees(state)
    ensures Inv(s.(workers := s.workers[w := state]))
  {
    BusyQueue(s.created, w, s.workers[w].status, state.status, s.down[w]);
  }

  lemma TaskKeeps(s: Net, w: PeerId, e: Worker.Event)
    requires Inv(s) && w in s.workers && !e.Receive? && Worker.Possible(s.workers[w], e)
    ensures Inv(s.(workers := s.workers[w := Worker.React(w, s.workers[w], e).state]))
  {
    Worker.TaskStepsAgree(w, s.workers[w], e);
    BusyKeeps(s, w, Worker.React(w, s.workers[w], e).state);
  }

  lemma StepKeeps(fanout: nat, s: Net, step: Step)
    requires Inv(s) && Enabled(fanout, s, step)
    ensures Inv(Next(s, step))
  {
    match step
    case Create(job, targets) => CreateKeeps(s, job, targets);
    case Rebroadcast(id, targets) => RebroadcastKeeps(s, id, targets);
    case OfferTo(offer, to) => OfferKeeps(s, offer, to);
    case TakeClaim(id, worker, now, targets) => ClaimKeeps(s, id, worker, now, targets);
    case ReplyTo(to) => ReplyKeeps(s, to);
    case ReplyDone => ReplyDoneKeeps(s);
    case ChainUpdate(id, u) => ChainKeeps(s, id, u, id);
    case ChainInsert(id, txHash) => ChainKeeps(s, id, Expire, txHash);
    case Deliver(to, now) => DeliverKeeps(s, to, now, Worker.OnMessage(to, s.workers[to], s.down[to][0], now));
    case TaskStep(w, e) => TaskKeeps(s, w, e);
  }

  lemma ReplyDoneKeeps(s: Net)
    requires Inv(s) && s.handler.Replying?
    ensures Inv(Next(s, ReplyDone))
  {
    OpenKept(s, s.offers, Ready, s.down);
  }

  lemma {:induction false} ReachableInv(fanout: nat, s: Net, steps: seq<Step>)
    requires Start(s) && Legal(fanout, s, steps)
    ensures Inv(Run(s, steps))
  {
    if steps == [] {
    } else {
      ReachableInv(fanout, s, steps[..|steps| - 1]);
      StepKeeps(fanout, Run(s, steps[..|steps| - 1]), steps[|steps| - 1]);
    }
  }

  // ----- what it means ------------------------------------------------------------------------

  /** The worker after it has taken the first n messages of its queue, at the given times. */
  function Consumed(me: PeerId, w: Worker.State, q: seq<GossipMessage>, times: seq<nat>): Worker.State
    requires |q| == |times|
  {
    if q == [] then w
    else Worker.OnMessage(me, Consumed(me, w, q[..|q| - 1], times[..|times| - 1]), q[|q| - 1], times[|times| - 1]).state
  }

  lemma {:induction false} ConsumedWaits(me: PeerId, w: Worker.State, q: seq<GossipMessage>, times: seq<nat>, id: JobId)
    requires |q| == |times| && Worker.IsClaiming(w.status, id) && Silent(q, id)
    ensures Consumed(me, w, q, times) == w
  {
    if q == [] {
    } else {
      ConsumedWaits(me, w, q[..|q| - 1], times[..|times| - 1], id);
      Waits(me, w, id, q[|q| - 1], times[|times| - 1]);
    }
  }

  lemma QueueMovesWinner(created: set<JobId>, w: PeerId, state: Worker.State, q: seq<GossipMessage>, p: nat,
                         times: seq<nat>)
    requires QueueOk(created, w, state.status, q) && |times| == p + 1
    requires p < |q| && q[p].ClaimAccepted? && q[p].workerId == w
    ensures Worker.IsClaiming(state.status, q[p].jobId)
    ensures Consumed(w, state, q[..p + 1], times).status == Worker.Status.Proving(state.status.job)
  {
    var taken := q[..p + 1];
    assert taken[..p] == q[..p];
    ConsumedWaits(w, state, taken[..p], times[..p], q[p].jobId);
  }

  /** No winner is orphaned: whenever an acceptance of w's claim is queued for w, w is still claiming
      that job, and taking its messages in order, whatever they are, moves it to proving that job. */
  lemma WinnerProves(fanout: nat, start: Net, steps: seq<Step>, w: PeerId, p: nat, times: seq<nat>)
    requires Start(start) && Legal(fanout, start, steps)
    requires var s := Run(start, steps);
             w in s.down && p < |s.down[w]| && s.down[w][p].ClaimAccepted? && s.down[w][p].workerId == w
    requires |times| == p + 1
    ensures var s := Run(start, steps);
            && w in s.workers
            && Worker.IsClaiming(s.workers[w].status, s.down[w][p].jobId)
            && Consumed(w, s.workers[w], s.down[w][..p + 1], times).status ==
               Worker.Status.Proving(s.workers[w].status.job)
  {
    ReachableInv(fanout, start, steps);
    var s := Run(start, steps);
    assert QueueOk(s.created, w, s.workers[w].status, s.down[w]);
    QueueMovesWinner(s.created, w, s.workers[w], s.down[w], p, times);
  }

  lemma {:induction false} Subsets(workers: set<PeerId>, n: nat) returns (sub: set<PeerId>)
    requires n <= |workers|
    ensures sub <= workers && |sub| == n
  {
    if n == |workers| {
      sub := workers;
    } else {
      var w :| w in workers;
      sub := Subsets(workers - {w}, n);
    }
  }

  /** The reply to a claim is sure to be put on the winner's connection, however the connections are
      picked, exactly when there are no more workers than the fanout. */
  lemma WinnerIsTold(workers: set<PeerId>, fanout: nat)
    ensures (forall targets, w :: ValidTargets(workers, fanout, targets) && w in workers ==> w in targets) <==>
            |workers| <= fanout
  {
    if |workers| <= fanout {
      forall targets | ValidTargets(workers, fanout, targets) ensures targets == workers {
        SubsetSize(targets, workers);
      }
    } else {
      var targets := Subsets(workers, fanout);
      assert ValidTargets(workers, fanout, targets);
      assert targets != workers;
      var w :| w in workers && w !in targets;
    }
  }

  // ----- every winner is told -----------------------------------------------------------------

  /** w is about to be told that it won job id, or the news is queued for it, or it has started. */
  ghost predicate Told(h: Handler, down: Queues, started: set<(JobId, PeerId)>, id: JobId, w: PeerId) {
    || (h.Replying? && h.msg == ClaimAccepted(id, w) && w in h.left)
    || (w in down && ClaimAccepted(id, w) in down[w])
    || (id, w) in started
  }

  ghost predicate WinnersTold(s: Net) {
    forall id :: id in s.table && s.table[id].status.Assigned? ==>
      Told(s.handler, s.down, s.started, id, s.table[id].status.worker)
  }

  lemma ClaimTells(fanout: nat, s: Net, id: JobId, worker: PeerId, now: nat, targets: set<PeerId>)
    requires Inv(s) && WinnersTold(s) && |s.workers.Keys| <= fanout
    requires Enabled(fanout, s, TakeClaim(id, worker, now, targets))
    ensures WinnersTold(Next(s, TakeClaim(id, worker, now, targets)))
  {
    SubsetSize(targets, s.workers.Keys);
  }

  lemma ReplyTells(s: Net, to: PeerId)
    requires WinnersTold(s) && s.handler.Replying? && to in s.down
    ensures WinnersTold(Next(s, ReplyTo(to)))
  {
    var t := Next(s, ReplyTo(to));
    forall id, w | Told(s.handler, s.down, s.started, id, w) ensures Told(t.handler, t.down, t.started, id, w) {
      if s.handler.msg == ClaimAccepted(id, w) && w == to {
        assert t.down[w][|s.down[w]|] == ClaimAccepted(id, w);
      } else if w in s.down && ClaimAccepted(id, w) in s.down[w] {
        assert ClaimAccepted(id, w) in t.down[w];
      }
    }
  }

  /** The news is only taken from the queue by starting. */
  lemma DeliverTells(s: Net, to: PeerId, now: nat, id: JobId, w: PeerId)
    requires QueuesOk(s.created, s.down, s.workers) && to in s.workers && s.down[to] != []
    requires Told(s.handler, s.down, s.started, id, w)
    ensures var r := Worker.OnMessage(to, s.workers[to], s.down[to][0], now);
            Told(s.handler, s.down[to := s.down[to][1..]],
                 s.started + Started(to, s.workers[to].status, r.state.status), id, w)
  {
    if w == to && ClaimAccepted(id, w) in s.down[to] {
      assert QueueOk(s.created, to, s.workers[to].status, s.down[to]);
      var p :| 0 <= p < |s.down[to]| && s.down[to][p] == ClaimAccepted(id, w);
      if p > 0 {
        assert s.down[to][1..][p - 1] == ClaimAccepted(id, w);
      }
    }
  }

  lemma DeliverKeepsTold(s: Net, to: PeerId, now: nat, t: Net)
    requires QueuesOk(s.created, s.down, s.workers) && WinnersTold(s) && to in s.workers && s.down[to] != []
    requires var r := Worker.OnMessage(to, s.workers[to], s.down[to][0], now);
             && t.table == s.table && t.handler == s.handler && t.down == s.down[to := s.down[to][1..]]
             && t.started == s.started + Started(to, s.workers[to].status, r.state.status)
    ensures WinnersTold(t)
  {
    forall id | id in t.table && t.table[id].status.Assigned?
      ensures Told(t.handler, t.down, t.started, id, t.table[id].status.worker)
    {
      DeliverTells(s, to, now, id, s.table[id].status.worker);
    }
  }

  lemma OfferTells(s: Net, offer: Offer, to: PeerId)
    requires WinnersTold(s) && to in s.down
    ensures WinnersTold(Next(s, OfferTo(offer, to)))
  {
    var t := Next(s, OfferTo(offer, to));
    forall id, w | Told(s.handler, s.down, s.started, id, w) ensures Told(t.handler, t.down, t.started, id, w) {
      if w in s.down && ClaimAccepted(id, w) in s.down[w] {
        assert ClaimAccepted(id, w) in t.down[w];
      }
    }
  }

  /** Other steps bring no news. */
  lemma QuietTells(fanout: nat, s: Net, step: Step)
    requires WinnersTold(s) && Enabled(fanout, s, step)
    requires !step.OfferTo? && !step.TakeClaim? && !step.ReplyTo? && !step.Deliver?
    ensures WinnersTold(Next(s, step))
  {
  }

  lemma WorkersStay(fanout: nat, s: Net, step: Step)
    requires Enabled(fanout, s, step)
    ensures Next(s, step).workers.Keys == s.workers.Keys
  {
  }

  lemma StepTells(fanout: nat, s: Net, step: Step)
    requires Inv(s) && WinnersTold(s) && Enabled(fanout, s, step) && |s.workers.Keys| <= fanout
    ensures WinnersTold(Next(s, step))
  {
    match step
    case OfferTo(offer, to) => OfferTells(s, offer, to);
    case TakeClaim(id, worker, now, targets) => ClaimTells(fanout, s, id, worker, now, targets);
    case ReplyTo(to) => ReplyTells(s, to);
    case Deliver(to, now) => DeliverKeepsTold(s, to, now, Next(s, step));
    case _ => QuietTells(fanout, s, step);
  }

  lemma {:induction false} ReachableTold(fanout: nat, s: Net, steps: seq<Step>)
    requires Start(s) && Legal(fanout, s, steps) && |s.workers.Keys| <= fanout
    ensures WinnersTold(Run(s, steps)) && Run(s, steps).workers.Keys == s.workers.Keys
  {
    if steps == [] {
    } else {
      var before := Run(s, steps[..|steps| - 1]);
      ReachableTold(fanout, s, steps[..|steps| - 1]);
      ReachableInv(fanout, s, steps[..|steps| - 1]);
      StepTells(fanout, before, steps[|steps| - 1]);
      WorkersStay(fanout, before, steps[|steps| - 1]);
    }
  }

  /** Job id is assigned, the replies of the coordinator are out, and its winner's queue is empty. */
  predicate Drained(s: Net, id: JobId) {
    s.handler.Ready? && id in s.table && s.table[id].status.Assigned? &&
    (s.table[id].status.worker in s.down ==> s.down[s.table[id].status.worker] == [])
  }

  /** With no more workers than the fanout, once the coordinator has finished its replies and a
      worker has emptied its queue, that worker has started every job assigned to it. */
  lemma EveryWinnerStarts(fanout: nat, start: Net, steps: seq<Step>, id: JobId)
    requires Start(start) && Legal(fanout, start, steps) && |start.workers.Keys| <= fanout
    requires Drained(Run(start, steps), id)
    ensures (id, Run(start, steps).table[id].status.worker) in Run(start, steps).started
  {
    ReachableTold(fanout, start, steps);
  }

  // ----- with more workers than the fanout ------------------------------------------------------

  /** A fresh network of idle workers. */
  function Idle(workers: set<PeerId>): Net {
    Net(map[], {}, Ready, multiset{}, multiset{},
        map w | w in workers :: Worker.INITIAL, map w | w in workers :: [], {})
  }

  /** Worker w has won job id, has not started it, and the news is neither queued nor about to be. */
  ghost predicate Orphaned(s: Net, id: JobId, w: PeerId) {
    && id in s.created && id in s.table && !s.table[id].status.Pending?
    && !Told(s.handler, s.down, s.started, id, w)
  }

  lemma DeliverKeepsOrphaned(s: Net, to: PeerId, now: nat, id: JobId, w: PeerId)
    requires Orphaned(s, id, w) && to in s.workers && to in s.down && s.down[to] != []
    ensures Orphaned(Next(s, Deliver(to, now)), id, w)
  {
    assert s.down[to][0] in s.down[to];
  }

  lemma StepKeepsOrphaned(fanout: nat, s: Net, step: Step, id: JobId, w: PeerId)
    requires Orphaned(s, id, w) && Enabled(fanout, s, step)
    ensures Orphaned(Next(s, step), id, w)
  {
    match step
    case Deliver(to, now) => DeliverKeepsOrphaned(s, to, now, id, w);
    case _ =>
  }

  lemma {:induction false} OrphanedForGood(fanout: nat, s: Net, steps: seq<Step>, id: JobId, w: PeerId)
    requires Orphaned(s, id, w) && Legal(fanout, s, steps)
    ensures Orphaned(Run(s, steps), id, w)
  {
    if steps == [] {
    } else {
      OrphanedForGood(fanout, s, steps[..|steps| - 1], id, w);
      StepKeepsOrphaned(fanout, Run(s, steps[..|steps| - 1]), steps[|steps| - 1], id, w);
    }
  }

  lemma Append(fanout: nat, s: Net, steps: seq<Step>, step: Step)
    ensures Run(s, steps + [step]) == Next(Run(s, steps), step)
    ensures Legal(fanout, s, steps) && Enabled(fanout, Run(s, steps), step) ==> Legal(fanout, s, steps + [step])
  {
    assert (steps + [step])[..|steps|] == steps;
  }

  /** Job id is lost on worker w: the reply goes to others. */
  ghost predicate Unheard(s: Net, id: JobId, w: PeerId, left: set<PeerId>) {
    && Orphaned(s, id, w) && s.handler.Replying? && s.handler.left == left
    && left <= s.down.Keys && w !in left && w in s.down
  }

  lemma OneReply(s: Net, id: JobId, w: PeerId, left: set<PeerId>, to: PeerId)
    requires Unheard(s, id, w, left) && to in left
    ensures var t := Next(s, ReplyTo(to));
            Unheard(t, id, w, left - {to}) && t.table == s.table && t.down[w] == s.down[w]
  {
  }

  lemma LastReply(s: Net, id: JobId, w: PeerId)
    requires Unheard(s, id, w, {})
    ensures var t := Next(s, ReplyDone);
            Orphaned(t, id, w) && t.handler.Ready? && t.table == s.table && t.down == s.down
  {
  }

  /** The handler puts its reply on all the connections it picked, and is ready again. */
  lemma {:induction false} FinishReply(fanout: nat, s: Net, steps: seq<Step>, id: JobId, w: PeerId, left: set<PeerId>,
                                       table: Table, q: seq<GossipMessage>) returns (all: seq<Step>)
    requires Legal(fanout, s, steps) && Unheard(Run(s, steps), id, w, left)
    requires Run(s, steps).table == table && Run(s, steps).down[w] == q
    ensures Legal(fanout, s, all) && Orphaned(Run(s, all), id, w) && Run(s, all).handler.Ready?
    ensures Run(s, all).table == table && w in Run(s, all).down && Run(s, all).down[w] == q
    decreases left
  {
    if left == {} {
      LastReply(Run(s, steps), id, w);
      Append(fanout, s, steps, ReplyDone);
      all := steps + [ReplyDone];
    } else {
      var to :| to in left;
      OneReply(Run(s, steps), id, w, left, to);
      Append(fanout, s, steps, ReplyTo(to));
      all := FinishReply(fanout, s, steps + [ReplyTo(to)], id, w, left - {to}, table, q);
    }
  }

  /** Worker w is left out: whatever is still to be sent goes to others, and they are idle. */
  ghost predicate LeftOut(s: Net, w: PeerId) {
    && w in s.workers && w in s.down
    && (s.handler.Replying? ==> w !in s.handler.left)
    && (forall o :: o in s.offers ==> w !in o.left)
    && (forall v :: v in s.workers && v != w ==> s.workers[v].status.Idle?)
  }

  /** w waits for an answer, and nothing is on its way to it. */
  ghost predicate Forsaken(s: Net, w: PeerId) {
    LeftOut(s, w) && s.workers[w].status.Claiming? && s.down[w] == [] && s.claims == multiset{}
  }

  /** Nothing has happened yet but that `claims` are on their way and `q` is queued for w. */
  ghost predicate Fresh(s: Net, workers: set<PeerId>, job: Job, w: PeerId, q: seq<GossipMessage>, claims: Claims) {
    && LeftOut(s, w)
    && s.workers.Keys == workers && s.down.Keys == workers && w in workers && s.down[w] == q
    && s.table == map[job.id := job] && s.created == {job.id} && s.handler.Ready? && s.started == {}
    && s.claims == claims && (claims != multiset{} ==> s.workers[w].status.Claiming?)
  }

  lemma OfferedFirst(workers: set<PeerId>, job: Job, w: PeerId, offered: set<PeerId>)
    requires w in workers && w in offered
    ensures var s := Next(Idle(workers), Create(job, offered));
            && Offer(job, offered) in s.offers && w in s.down
            && Fresh(Next(s, OfferTo(Offer(job, offered), w)), workers, job, w, [JobAvailable(job)], multiset{})
            && Next(s, OfferTo(Offer(job, offered), w)).workers[w] == Worker.INITIAL
  {
    assert Idle(workers).workers.Keys == workers && Idle(workers).down.Keys == workers;
    assert Idle(workers).down[w] == [];
  }

  lemma IsOffered(workers: set<PeerId>, fanout: nat, job: Job, w: PeerId, offered: set<PeerId>)
    returns (steps: seq<Step>)
    requires job.status.Pending? && w in workers && w in offered && ValidTargets(workers, fanout, offered)
    ensures Legal(fanout, Idle(workers), steps)
    ensures Fresh(Run(Idle(workers), steps), workers, job, w, [JobAvailable(job)], multiset{})
    ensures Run(Idle(workers), steps).workers[w] == Worker.INITIAL
  {
    var s, create, offer := Idle(workers), Create(job, offered), OfferTo(Offer(job, offered), w);
    assert s.workers.Keys == workers;
    OfferedFirst(workers, job, w, offered);
    Append(fanout, s, [], create);
    Append(fanout, s, [] + [create], offer);
    steps := [] + [create] + [offer];
  }

  lemma ClaimsFirst(s: Net, workers: set<PeerId>, job: Job, w: PeerId)
    requires Fresh(s, workers, job, w, [JobAvailable(job)], multiset{}) && s.workers[w] == Worker.INITIAL
    requires job.deadline > 0
    ensures Fresh(Next(s, Deliver(w, 0)), workers, job, w, [], multiset{(job.id, w)})
  {
    var r := Worker.OnMessage(w, s.workers[w], JobAvailable(job), 0);
    assert r.sent == [ClaimJob(job.id, w)] && r.sent[1..] == [];
    assert ClaimsOf(r.sent) == multiset{(job.id, w)};
  }

  lemma HasClaimed(workers: set<PeerId>, fanout: nat, job: Job, w: PeerId, offered: set<PeerId>)
    returns (steps: seq<Step>)
    requires job.status.Pending? && job.deadline > 0 && w in workers && w in offered
    requires ValidTargets(workers, fanout, offered)
    ensures Legal(fanout, Idle(workers), steps)
    ensures Fresh(Run(Idle(workers), steps), workers, job, w, [], multiset{(job.id, w)})
  {
    var two := IsOffered(workers, fanout, job, w, offered);
    ClaimsFirst(Run(Idle(workers), two), workers, job, w);
    Append(fanout, Idle(workers), two, Deliver(w, 0));
    steps := two + [Deliver(w, 0)];
  }

  lemma WinsFirst(s: Net, workers: set<PeerId>, job: Job, w: PeerId, told: set<PeerId>)
    requires Fresh(s, workers, job, w, [], multiset{(job.id, w)}) && job.status.Pending? && w !in told
    ensures var t := Next(s, TakeClaim(job.id, w, 0, told));
            && Orphaned(t, job.id, w) && t.table == map[job.id := job.(status := Assigned(w, 0))]
            && t.handler == Replying(ClaimAccepted(job.id, w), told)
            && t.down.Keys == workers && Forsaken(t, w)
  {
  }

  /** A worker is offered a job, claims it and wins, but the reply goes to others. */
  lemma WinsUnheard(workers: set<PeerId>, fanout: nat, job: Job, w: PeerId, offered: set<PeerId>, told: set<PeerId>)
    returns (steps: seq<Step>)
    requires job.status.Pending? && job.deadline > 0 && w in workers && w in offered && w !in told
    requires ValidTargets(workers, fanout, offered) && ValidTargets(workers, fanout, told)
    ensures Legal(fanout, Idle(workers), steps)
    ensures var s := Run(Idle(workers), steps);
            && Orphaned(s, job.id, w) && s.table == map[job.id := job.(status := Assigned(w, 0))]
            && s.handler == Replying(ClaimAccepted(job.id, w), told)
            && s.down.Keys == workers && Forsaken(s, w)
  {
    var take := TakeClaim(job.id, w, 0, told);
    var claimed := HasClaimed(workers, fanout, job, w, offered);
    WinsFirst(Run(Idle(workers), claimed), workers, job, w, told);
    Append(fanout, Idle(workers), claimed, take);
    steps := claimed + [take];
  }

  /** With more workers than the fanout, a winner may never hear of it: there is a legal run after which
      all replies are out and its queue is empty, yet in no continuation does it ever start the job. */
  lemma WinnerMayNeverStart(workers: set<PeerId>, fanout: nat, job: Job) returns (steps: seq<Step>)
    requires |workers| > fanout >= 1 && job.status.Pending? && job.deadline > 0
    ensures Legal(fanout, Idle(workers), steps)
    ensures var s := Run(Idle(workers), steps);
            && Drained(s, job.id)
            && forall more :: Legal(fanout, s, more) ==>
                 (job.id, s.table[job.id].status.worker) !in Run(s, more).started
  {
    var w :| w in workers;
    var told := Subsets(workers - {w}, fanout);
    var others := Subsets(workers - {w}, fanout - 1);
    steps := WinsUnheard(workers, fanout, job, w, others + {w}, told);
    var t := Run(Idle(workers), steps).table;
    steps := FinishReply(fanout, Idle(workers), steps, job.id, w, told, t, []);
    var s := Run(Idle(workers), steps);
    forall more | Legal(fanout, s, more) ensures (job.id, w) !in Run(s, more).started {
      OrphanedForGood(fanout, s, more, job.id, w);
    }
  }

  /** Every winner starts, in every run of these workers. */
  ghost predicate WinnersAlwaysStart(workers: set<PeerId>, fanout: nat) {
    forall steps, id :: Legal(fanout, Idle(workers), steps) && Drained(Run(Idle(workers), steps), id) ==>
      (id, Run(Idle(workers), steps).table[id].status.worker) in Run(Idle(workers), steps).started
  }

  /** Nothing is ever sent, so no job is ever assigned. */
  ghost predicate NothingHeard(s: Net) {
    && (forall o :: o in s.offers ==> o.left == {})
    && (s.handler.Replying? ==> s.handler.left == {})
    && s.claims == multiset{} && (forall w :: w in s.down ==> s.down[w] == [])
    && (forall id :: id in s.table ==> !s.table[id].status.Assigned?)
  }

  lemma {:induction false} SilentWithoutFanout(s: Net, steps: seq<Step>)
    requires NothingHeard(s) && Legal(0, s, steps)
    ensures NothingHeard(Run(s, steps))
  {
    if steps == [] {
    } else {
      SilentWithoutFanout(s, steps[..|steps| - 1]);
      StepIsSilent(Run(s, steps[..|steps| - 1]), steps[|steps| - 1]);
    }
  }

  lemma StepIsSilent(s: Net, step: Step)
    requires NothingHeard(s) && Enabled(0, s, step)
    ensures NothingHeard(Next(s, step))
  {
    assert !step.OfferTo? && !step.TakeClaim? && !step.ReplyTo? && !step.Deliver?;
  }

  lemma WinnersStart(workers: set<PeerId>, fanout: nat)
    requires |workers| <= fanout || fanout == 0
    ensures WinnersAlwaysStart(workers, fanout)
  {
    assert Start(Idle(workers)) && Idle(workers).workers.Keys == workers;
    forall steps, id | Legal(fanout, Idle(workers), steps) && Drained(Run(Idle(workers), steps), id)
      ensures (id, Run(Idle(workers), steps).table[id].status.worker) in Run(Idle(workers), steps).started
    {
      if |workers| <= fanout {
        EveryWinnerStarts(fanout, Idle(workers), steps, id);
      } else {
        SilentWithoutFanout(Idle(workers), steps);
        assert false;
      }
    }
  }

  /** So winners are sure to start exactly when there are no more workers than the fanout, or when nobody
      is ever told anything, so that nobody wins. */
  lemma WinnersStartIff(workers: set<PeerId>, fanout: nat)
    ensures WinnersAlwaysStart(workers, fanout) <==> |workers| <= fanout || fanout == 0
  {
    if |workers| <= fanout || fanout == 0 {
      WinnersStart(workers, fanout);
    } else {
      var zero: Bytes32 := seq(32, i => 0);
      var steps := WinnerMayNeverStart(workers, fanout, Job(zero, Pending, seq(20, i => 0), [], 0, 0, 1));
      var s, none: seq<Step> := Run(Idle(workers), steps), [];
      assert Legal(fanout, s, none) && Run(s, none) == s;
    }
  }
}
