/** The whole marketplace: the contract, one incarnation of the coordinator with its indexer, any
    number of workers, and a network that may lose, duplicate, reorder and arbitrarily delay
    messages. A broadcast only adds a message to the set of those sent; delivery picks any of them,
    any number of times. */
module Protocol {
  import opened Core
  import opened Jobs
  import Guest
  import Escrow
  import Indexer
  import Coordinator
  import Worker

  /** `configured` says whether the coordinator has a chain client. `created` are the ids create_job has
      used, `creating` its jobs not yet inserted, `confirmed` completions whose chain query said yes but
      whose update is outstanding, `fetched` logs the indexer has queried but not yet applied. */
  datatype System = System(
    configured: bool,
    txs: seq<Escrow.Tx>,
    table: Table,
    created: set<JobId>,
    creating: set<Job>,
    confirmed: set<(JobId, TxHash)>,
    fetched: set<Indexer.Entry>,
    sent: set<GossipMessage>,
    workers: map<PeerId, Worker.State>)

  datatype Step =
    | Mine(tx: Escrow.Tx)
    | Submit(tx: Escrow.Tx, job: Job)
    | Propose(job: Job)
    | Insert(job: Job)
    | HandleClaim(id: JobId, worker: PeerId, now: nat)
    | ConfirmCompleted(id: JobId, txHash: TxHash)
    | MarkCompleted(id: JobId, txHash: TxHash)
    | Fetch(entries: set<Indexer.Entry>)
    | Index(entry: Indexer.Entry)
    | Rebroadcast(id: JobId)
    | WorkerStep(worker: PeerId, event: Worker.Event)
    | Inject(msg: GossipMessage)

  function Chain(env: Escrow.Env, s: System): Escrow.State {
    Escrow.After(env, s.txs)
  }

  /** The transaction submits the job. */
  predicate Submits(tx: Escrow.Tx, job: Job) {
    tx.call.SubmitJob? && tx.call.id == job.id && tx.call.payload == job.payload &&
    tx.call.value == job.reward && tx.call.deadline == job.deadline
  }

  /** Anyone may transact with the contract (Mine) or broadcast claims, completions and rejections
      (Inject); only the coordinator offers jobs and accepts claims. With a chain client a job is created
      once its submission is mined (Submit), even if it reverted; without one, at once (Propose). */
  predicate Enabled(env: Escrow.Env, s: System, step: Step) {
    match step
    case Mine(_) => true
    case Submit(tx, job) => s.configured && Submits(tx, job) && job.status.Pending?
    case Propose(job) => !s.configured && job.status.Pending?
    case Insert(job) => job in s.creating
    case HandleClaim(id, worker, _) => ClaimJob(id, worker) in s.sent
    case ConfirmCompleted(id, txHash) =>
      s.configured && JobCompleted(id, txHash) in s.sent && id in Chain(env, s).completed
    case MarkCompleted(id, txHash) => (id, txHash) in s.confirmed
    case Fetch(entries) => forall e :: e in entries ==> e in Indexer.Logged(env, s.txs)
    case Index(entry) => entry in s.fetched
    case Rebroadcast(id) => id in s.table && s.table[id].status.Pending?
    case WorkerStep(w, event) =>
      w in s.workers && Worker.Possible(s.workers[w], event) && (event.Receive? ==> event.msg in s.sent)
    case Inject(msg) => !msg.JobAvailable? && !msg.ClaimAccepted?
  }

  function Post(sent: set<GossipMessage>, msgs: seq<GossipMessage>): set<GossipMessage> {
    sent + set m | m in msgs
  }

  function Reacted(s: System, w: PeerId, r: Worker.Reaction): System {
    s.(workers := s.workers[w := r.state], sent := Post(s.sent, r.sent))
  }

  function Next(s: System, step: Step): System {
    match step
    case Mine(tx) => s.(txs := s.txs + [tx])
    case Submit(tx, job) =>
      s.(txs := s.txs + [tx], created := s.created + {job.id}, creating := s.creating + {job})
    case Propose(job) => s.(created := s.created + {job.id}, creating := s.creating + {job})
    case Insert(job) =>
      var c := Coordinator.Create(s.table, job);
      s.(table := c.table, creating := s.creating - {job}, sent := Post(s.sent, [c.reply]))
    case HandleClaim(id, worker, now) =>
      var a := Coordinator.Arbitrate(s.table, id, worker, now);
      s.(table := a.table, sent := Post(s.sent, [a.reply]))
    case ConfirmCompleted(id, txHash) => s.(confirmed := s.confirmed + {(id, txHash)})
    case MarkCompleted(id, txHash) =>
      s.(table := UpdateEntry(s.table, id, Complete(txHash)), confirmed := s.confirmed - {(id, txHash)})
    case Fetch(entries) => s.(fetched := s.fetched + entries)
    case Index(entry) => s.(table := Indexer.Settle(entry, s.table), fetched := s.fetched - {entry})
    case Rebroadcast(id) => if id in s.table then s.(sent := Post(s.sent, [JobAvailable(s.table[id])])) else s
    case WorkerStep(w, event) =>
      if w in s.workers then Reacted(s, w, Worker.React(w, s.workers[w], event)) else s
    case Inject(msg) => s.(sent := Post(s.sent, [msg]))
  }

  /** A coordinator that starts empty against any chain, with idle workers. */
  ghost predicate Start(s: System) {
    s.table == map[] && s.created == {} && s.creating == {} && s.confirmed == {} && s.fetched == {} &&
    s.sent == {} && forall w :: w in s.workers ==> s.workers[w] == Worker.INITIAL
  }

  function Run(s: System, steps: seq<Step>): System {
    if steps == [] then s else Next(Run(s, steps[..|steps| - 1]), steps[|steps| - 1])
  }

  ghost predicate Legal(env: Escrow.Env, s: System, steps: seq<Step>) {
    forall k :: 0 <= k < |steps| ==> Enabled(env, Run(s, steps[..k]), steps[k])
  }

  lemma PrefixStep(s: System, steps: seq<Step>, k: nat)
    requires k < |steps|
    ensures Run(s, steps[..k + 1]) == Next(Run(s, steps[..k]), steps[k])
  {
    assert steps[..k + 1][..k] == steps[..k];
  }

  lemma PrefixEnds(s: System, steps: seq<Step>)
    ensures Run(s, steps[..0]) == s && Run(s, steps[..|steps|]) == Run(s, steps)
  {
    assert steps[..|steps|] == steps;
  }

  // ----- what is assumed of job creation --------------------------------------------------------

  /** create_job picks an id it has not used before. */
  predicate IsFresh(s: System, step: Step) {
    match step
    case Submit(_, job) => job.id !in s.created
    case Propose(job) => job.id !in s.created
    case _ => true
  }

  /** A submission reported as `Ok` did not revert. */
  predicate IsHonoured(env: Escrow.Env, s: System, step: Step) {
    step.Submit? ==> Escrow.Exec(env, step.tx.now, step.tx.call, Chain(env, s)).verdict.Success?
  }

  /** A submission meets the contract's guards, or its very record is there already. */
  predicate IsBacked(env: Escrow.Env, s: System, step: Step) {
    step.Submit? ==>
      || (step.job.id !in Chain(env, s).jobs && step.job.reward > 0 && step.job.deadline > step.tx.now)
      || Backed(Chain(env, s), step.job)
  }

  ghost predicate FreshIds(s: System, steps: seq<Step>) {
    forall k :: 0 <= k < |steps| ==> IsFresh(Run(s, steps[..k]), steps[k])
  }

  ghost predicate SubmissionsHonoured(env: Escrow.Env, s: System, steps: seq<Step>) {
    forall k :: 0 <= k < |steps| ==> IsHonoured(env, Run(s, steps[..k]), steps[k])
  }

  ghost predicate SubmissionsBacked(env: Escrow.Env, s: System, steps: seq<Step>) {
    forall k :: 0 <= k < |steps| ==> IsBacked(env, Run(s, steps[..k]), steps[k])
  }

  // ----- the chain ------------------------------------------------------------------------------

  /** The contract holds the job under its id with the same payload, reward and deadline. */
  predicate Backed(chain: Escrow.State, job: Job) {
    job.id in chain.jobs && chain.jobs[job.id].payload == job.payload &&
    chain.jobs[job.id].reward == job.reward && chain.jobs[job.id].deadline == job.deadline
  }

  /** The chain only grows. */
  lemma ChainGrows(env: Escrow.Env, s: System, tx: Escrow.Tx)
    ensures Escrow.Extends(Chain(env, s), Escrow.After(env, s.txs + [tx]))
    ensures Escrow.After(env, s.txs + [tx]) == Escrow.Exec(env, tx.now, tx.call, Chain(env, s)).state
  {
    var txs := s.txs + [tx];
    assert txs[..|s.txs|] == s.txs;
    Escrow.HistoryExtends(env, txs, |s.txs|);
  }

  lemma StepExtends(env: Escrow.Env, s: System, step: Step)
    ensures Escrow.Extends(Chain(env, s), Chain(env, Next(s, step)))
  {
    match step
    case Mine(tx) => ChainGrows(env, s, tx);
    case Submit(tx, job) => ChainGrows(env, s, tx);
    case _ =>
  }

  /** What a submission answered with `Ok` is worth: the contract backs the job exactly when the call met
      its guards, or the same record was there already. */
  lemma SubmissionBacks(env: Escrow.Env, txs: seq<Escrow.Tx>, tx: Escrow.Tx, job: Job)
    requires Submits(tx, job)
    ensures var before := Escrow.After(env, txs);
            Backed(Escrow.After(env, txs + [tx]), job) <==>
              || (job.id !in before.jobs && job.reward > 0 && job.deadline > tx.now)
              || Backed(before, job)
  {
    assert (txs + [tx])[..|txs|] == txs;
  }

  // ----- invariants -----------------------------------------------------------------------------

  /** At most one worker is ever told it won a job; a pending job has no winner; an assigned entry
      names the winner. */
  ghost predicate WinnersOk(created: set<JobId>, t: Table, sent: set<GossipMessage>) {
    && (forall id: JobId, w: PeerId :: ClaimAccepted(id, w) in sent ==>
          && id in created && id in t && !t[id].status.Pending?
          && (t[id].status.Assigned? ==> t[id].status.worker == w))
    && (forall id: JobId, w: PeerId, v: PeerId ::
          ClaimAccepted(id, w) in sent && ClaimAccepted(id, v) in sent ==> w == v)
    && (forall id :: id in t && t[id].status.Assigned? ==> ClaimAccepted(id, t[id].status.worker) in sent)
  }

  ghost predicate CreatingOk(created: set<JobId>, creating: set<Job>, t: Table, sent: set<GossipMessage>) {
    && (forall id :: id in t && id !in created ==> t[id].status.Completed?)
    && (forall job :: job in creating ==>
          job.status.Pending? && job.id in created && (job.id in t ==> t[job.id].status.Completed?))
    && (forall job, w: PeerId :: job in creating ==> ClaimAccepted(job.id, w) !in sent)
    && (forall job, other :: job in creating && other in creating && job.id == other.id ==> job == other)
  }

  /** A worker that proves or submits a job was told that it won it. */
  ghost predicate WorkerOk(w: PeerId, state: Worker.State, sent: set<GossipMessage>) {
    && Worker.Agrees(state)
    && (state.status.Proving? || state.status.Submitting? ==> ClaimAccepted(state.status.job.id, w) in sent)
  }

  ghost predicate WorkersOk(workers: map<PeerId, Worker.State>, sent: set<GossipMessage>) {
    forall w :: w in workers ==> WorkerOk(w, workers[w], sent)
  }

  /** What the claim protocol keeps, whatever the chain does. */
  ghost predicate ClaimInv(s: System) {
    && WinnersOk(s.created, s.table, s.sent)
    && CreatingOk(s.created, s.creating, s.table, s.sent)
    && WorkersOk(s.workers, s.sent)
  }

  /** Everything offered, held or still to be offered is what the contract stored. */
  ghost predicate PayloadsOk(chain: Escrow.State, s: System) {
    && (forall id :: id in s.table && !s.table[id].status.Completed? ==> Backed(chain, s.table[id]))
    && (forall m :: m in s.sent && m.JobAvailable? ==> Backed(chain, m.job))
    && (forall job :: job in s.creating ==> Backed(chain, job))
    && (forall w :: w in s.workers && !s.workers[w].status.Idle? ==> Backed(chain, s.workers[w].status.job))
  }

  /** What is shown as settled is settled, and so is what is about to be shown. */
  ghost predicate SettledOk(chain: Escrow.State, s: System) {
    && OwnIds(s.table)
    && (forall id :: id in s.table && (s.table[id].status.Completed? || s.table[id].status.Expired?) ==>
          id in chain.completed)
    && (forall c :: c in s.confirmed ==> c.0 in chain.completed)
    && (forall e :: e in s.fetched && !e.event.JobSubmitted? ==> e.event.id in chain.completed)
    && (forall job :: job in s.creating ==> job.status.Pending?)
  }

  // ----- the claim protocol ---------------------------------------------------------------------

  /** Posting messages that accept no claim disturbs nothing. */
  lemma PostKeepsClaims(s: System, msgs: seq<GossipMessage>)
    requires ClaimInv(s) && forall m :: m in msgs ==> !m.ClaimAccepted?
    ensures ClaimInv(s.(sent := Post(s.sent, msgs)))
  {
  }

  lemma CreatingKeepsClaims(s: System, job: Job)
    requires ClaimInv(s) && job.status.Pending? && job.id !in s.created
    ensures ClaimInv(s.(created := s.created + {job.id}, creating := s.creating + {job}))
  {
  }

  lemma InsertKeepsClaims(s: System, job: Job)
    requires ClaimInv(s) && job in s.creating
    ensures ClaimInv(Next(s, Insert(job)))
  {
    var t := s.(table := s.table[job.id := job], creating := s.creating - {job});
    assert WinnersOk(t.created, t.table, t.sent);
    PostKeepsClaims(t, [JobAvailable(job)]);
  }

  lemma AcceptKeepsWinners(created: set<JobId>, t: Table, sent: set<GossipMessage>, id: JobId, worker: PeerId,
                           now: nat)
    requires WinnersOk(created, t, sent) && id in t && t[id].status.Pending? && id in created
    ensures WinnersOk(created, UpdateEntry(t, id, Claim(worker, now)), Post(sent, [ClaimAccepted(id, worker)]))
  {
    var posted := Post(sent, [ClaimAccepted(id, worker)]);
    assert forall m :: m in posted <==> m in sent || m == ClaimAccepted(id, worker);
  }

  lemma AcceptKeepsCreating(created: set<JobId>, creating: set<Job>, t: Table, sent: set<GossipMessage>, id: JobId,
                            worker: PeerId, now: nat)
    requires CreatingOk(created, creating, t, sent) && id in t && t[id].status.Pending?
    ensures CreatingOk(created, creating, UpdateEntry(t, id, Claim(worker, now)),
                       Post(sent, [ClaimAccepted(id, worker)]))
  {
  }

  lemma ClaimKeepsClaims(s: System, id: JobId, worker: PeerId, now: nat)
    requires ClaimInv(s)
    ensures ClaimInv(Next(s, HandleClaim(id, worker, now)))
  {
    if id in s.table && s.table[id].status.Pending? {
      AcceptKeepsWinners(s.created, s.table, s.sent, id, worker, now);
      AcceptKeepsCreating(s.created, s.creating, s.table, s.sent, id, worker, now);
    } else {
      PostKeepsClaims(s, [Coordinator.Arbitrate(s.table, id, worker, now).reply]);
    }
  }

  /** A completion or an expiry, or the placeholder for a job the coordinator does not know. */
  lemma UpdateKeepsClaims(s: System, id: JobId, u: Update, txHash: TxHash)
    requires ClaimInv(s) && !u.Claim?
    ensures ClaimInv(s.(table := UpdateEntry(s.table, id, u)))
    ensures id !in s.table ==> ClaimInv(s.(table := s.table[id := Placeholder(id, txHash)]))
  {
  }

  lemma IndexKeepsClaims(s: System, e: Indexer.Entry)
    requires ClaimInv(s)
    ensures ClaimInv(Next(s, Index(e)))
  {
    UpdateKeepsClaims(s, e.event.id, if e.event.JobExpired? then Expire else Complete(e.txHash), e.txHash);
  }

  lemma WorkerReplaced(s: System, w: PeerId, state: Worker.State)
    requires ClaimInv(s) && WorkerOk(w, state, s.sent)
    ensures ClaimInv(s.(workers := s.workers[w := state]))
  {
  }

  lemma ReactionKeepsClaims(s: System, w: PeerId, r: Worker.Reaction)
    requires ClaimInv(s) && WorkerOk(w, r.state, s.sent) && forall m :: m in r.sent ==> !m.ClaimAccepted?
    ensures ClaimInv(Reacted(s, w, r))
  {
    WorkerReplaced(s, w, r.state);
    PostKeepsClaims(s.(workers := s.workers[w := r.state]), r.sent);
  }

  lemma WorkerMoves(w: PeerId, state: Worker.State, e: Worker.Event, sent: set<GossipMessage>)
    requires WorkerOk(w, state, sent) && Worker.Possible(state, e) && (e.Receive? ==> e.msg in sent)
    ensures WorkerOk(w, Worker.React(w, state, e).state, sent)
    ensures forall m :: m in Worker.React(w, state, e).sent ==> !m.ClaimAccepted?
  {
    Worker.ReactKeepsAgreement(w, state, e);
    Worker.ReactProvenance(w, state, e);
  }

  lemma WorkerKeepsClaims(s: System, w: PeerId, e: Worker.Event)
    requires ClaimInv(s) && w in s.workers && Worker.Possible(s.workers[w], e) && (e.Receive? ==> e.msg in s.sent)
    ensures ClaimInv(Reacted(s, w, Worker.React(w, s.workers[w], e)))
  {
    WorkerMoves(w, s.workers[w], e, s.sent);
    ReactionKeepsClaims(s, w, Worker.React(w, s.workers[w], e));
  }

  lemma StepKeepsClaims(env: Escrow.Env, s: System, step: Step)
    requires ClaimInv(s) && Enabled(env, s, step) && IsFresh(s, step)
    ensures ClaimInv(Next(s, step))
  {
    match step
    case Mine(_) =>
    case Submit(_, job) => CreatingKeepsClaims(s, job);
    case Propose(job) => CreatingKeepsClaims(s, job);
    case Insert(job) => InsertKeepsClaims(s, job);
    case HandleClaim(id, worker, now) => ClaimKeepsClaims(s, id, worker, now);
    case ConfirmCompleted(_, _) =>
    case MarkCompleted(id, txHash) => UpdateKeepsClaims(s, id, Complete(txHash), txHash);
    case Fetch(_) =>
    case Index(entry) => IndexKeepsClaims(s, entry);
    case Rebroadcast(id) => PostKeepsClaims(s, [JobAvailable(s.table[id])]);
    case WorkerStep(w, e) => WorkerKeepsClaims(s, w, e);
    case Inject(msg) => PostKeepsClaims(s, [msg]);
  }

  lemma {:induction false} ReachableClaims(env: Escrow.Env, s: System, steps: seq<Step>, k: nat)
    requires Start(s) && Legal(env, s, steps) && FreshIds(s, steps) && k <= |steps|
    ensures ClaimInv(Run(s, steps[..k]))
  {
    if k == 0 {
    } else {
      ReachableClaims(env, s, steps, k - 1);
      StepKeepsClaims(env, Run(s, steps[..k - 1]), steps[k - 1]);
      PrefixStep(s, steps, k - 1);
    }
  }

  // ----- payloads -------------------------------------------------------------------------------

  lemma GrowthKeepsPayloads(chain: Escrow.State, more: Escrow.State, s: System)
    requires PayloadsOk(chain, s) && Escrow.Extends(chain, more)
    ensures PayloadsOk(more, s)
  {
  }

  lemma CreatingKeepsPayloads(chain: Escrow.State, s: System, job: Job)
    requires PayloadsOk(chain, s) && Backed(chain, job)
    ensures PayloadsOk(chain, s.(creating := s.creating + {job}))
  {
  }

  lemma InsertKeepsPayloads(chain: Escrow.State, s: System, job: Job)
    requires PayloadsOk(chain, s) && job in s.creating
    ensures PayloadsOk(chain, Next(s, Insert(job)))
  {
  }

  lemma UpdateKeepsPayloads(chain: Escrow.State, s: System, id: JobId, u: Update, txHash: TxHash)
    requires PayloadsOk(chain, s)
    ensures PayloadsOk(chain, s.(table := UpdateEntry(s.table, id, u)))
    ensures id !in s.table ==> PayloadsOk(chain, s.(table := s.table[id := Placeholder(id, txHash)]))
  {
  }

  lemma PostKeepsPayloads(chain: Escrow.State, s: System, msgs: seq<GossipMessage>)
    requires PayloadsOk(chain, s) && forall m :: m in msgs && m.JobAvailable? ==> Backed(chain, m.job)
    ensures PayloadsOk(chain, s.(sent := Post(s.sent, msgs)))
  {
  }

  lemma ClaimKeepsPayloads(chain: Escrow.State, s: System, id: JobId, worker: PeerId, now: nat)
    requires PayloadsOk(chain, s)
    ensures PayloadsOk(chain, Next(s, HandleClaim(id, worker, now)))
  {
    var a := Coordinator.Arbitrate(s.table, id, worker, now);
    UpdateKeepsPayloads(chain, s, id, Claim(worker, now), id);
    PostKeepsPayloads(chain, s.(table := a.table), [a.reply]);
  }

  lemma ReactionKeepsPayloads(chain: Escrow.State, s: System, w: PeerId, r: Worker.Reaction)
    requires PayloadsOk(chain, s) && (r.state.status.Idle? || Backed(chain, r.state.status.job))
    requires forall m :: m in r.sent ==> !m.JobAvailable?
    ensures PayloadsOk(chain, Reacted(s, w, r))
  {
    PostKeepsPayloads(chain, s, r.sent);
  }

  lemma WorkerHolds(chain: Escrow.State, w: PeerId, state: Worker.State, e: Worker.Event, sent: set<GossipMessage>)
    requires Worker.Agrees(state) && Worker.Possible(state, e) && (e.Receive? ==> e.msg in sent)
    requires state.status.Idle? || Backed(chain, state.status.job)
    requires forall m :: m in sent && m.JobAvailable? ==> Backed(chain, m.job)
    ensures var r := Worker.React(w, state, e);
            && (r.state.status.Idle? || Backed(chain, r.state.status.job))
            && (forall m :: m in r.sent ==> !m.JobAvailable?)
  {
    Worker.ReactProvenance(w, state, e);
  }

  lemma WorkerKeepsPayloads(chain: Escrow.State, s: System, w: PeerId, e: Worker.Event)
    requires PayloadsOk(chain, s) && w in s.workers && Worker.Agrees(s.workers[w]) && Worker.Possible(s.workers[w], e)
    requires e.Receive? ==> e.msg in s.sent
    ensures PayloadsOk(chain, Reacted(s, w, Worker.React(w, s.workers[w], e)))
  {
    WorkerHolds(chain, w, s.workers[w], e, s.sent);
    ReactionKeepsPayloads(chain, s, w, Worker.React(w, s.workers[w], e));
  }

  /** Every step but a submission, which the contract has to back. */
  lemma StepKeepsPayloads(env: Escrow.Env, chain: Escrow.State, s: System, step: Step)
    requires PayloadsOk(chain, s) && Enabled(env, s, step) && AllAgree(s) && s.configured
    requires step.Submit? ==> Backed(chain, step.job)
    ensures PayloadsOk(chain, Next(s, step))
  {
    match step
    case Mine(_) =>
    case Submit(tx, job) => CreatingKeepsPayloads(chain, s, job);
    case Insert(job) => InsertKeepsPayloads(chain, s, job);
    case HandleClaim(id, worker, now) => ClaimKeepsPayloads(chain, s, id, worker, now);
    case ConfirmCompleted(_, _) =>
    case MarkCompleted(id, txHash) => UpdateKeepsPayloads(chain, s, id, Complete(txHash), txHash);
    case Fetch(_) =>
    case Index(e) =>
      UpdateKeepsPayloads(chain, s, e.event.id, if e.event.JobExpired? then Expire else Complete(e.txHash), e.txHash);
    case Rebroadcast(id) => PostKeepsPayloads(chain, s, [JobAvailable(s.table[id])]);
    case WorkerStep(w, e) => WorkerKeepsPayloads(chain, s, w, e);
    case Inject(msg) => PostKeepsPayloads(chain, s, [msg]);
  }

  lemma BackedStepKeepsPayloads(env: Escrow.Env, s: System, step: Step)
    requires PayloadsOk(Chain(env, s), s) && Enabled(env, s, step) && AllAgree(s) && s.configured
    requires IsBacked(env, s, step)
    ensures PayloadsOk(Chain(env, Next(s, step)), Next(s, step))
  {
    StepExtends(env, s, step);
    var after := Chain(env, Next(s, step));
    GrowthKeepsPayloads(Chain(env, s), after, s);
    if step.Submit? {
      SubmissionBacks(env, s.txs, step.tx, step.job);
    }
    StepKeepsPayloads(env, after, s, step);
  }

  ghost predicate AllAgree(s: System) {
    forall w :: w in s.workers ==> Worker.Agrees(s.workers[w])
  }

  lemma ReactedAgrees(s: System, w: PeerId, r: Worker.Reaction)
    requires AllAgree(s) && Worker.Agrees(r.state)
    ensures AllAgree(Reacted(s, w, r))
  {
  }

  lemma StepKeepsAgreement(env: Escrow.Env, s: System, step: Step)
    requires AllAgree(s) && Enabled(env, s, step)
    ensures AllAgree(Next(s, step)) && Next(s, step).configured == s.configured
  {
    match step
    case WorkerStep(w, e) =>
      Worker.ReactKeepsAgreement(w, s.workers[w], e);
      ReactedAgrees(s, w, Worker.React(w, s.workers[w], e));
    case _ =>
  }

  /** Status and task of every worker agree, in any run at all. */
  lemma {:induction false} ReachableAgreement(env: Escrow.Env, s: System, steps: seq<Step>, k: nat)
    requires Start(s) && Legal(env, s, steps) && k <= |steps|
    ensures AllAgree(Run(s, steps[..k])) && Run(s, steps[..k]).configured == s.configured
  {
    if k == 0 {
    } else {
      ReachableAgreement(env, s, steps, k - 1);
      StepKeepsAgreement(env, Run(s, steps[..k - 1]), steps[k - 1]);
      PrefixStep(s, steps, k - 1);
    }
  }

  lemma {:induction false} ReachablePayloads(env: Escrow.Env, s: System, steps: seq<Step>, k: nat)
    requires Start(s) && s.configured && Legal(env, s, steps) && SubmissionsBacked(env, s, steps) && k <= |steps|
    ensures PayloadsOk(Chain(env, Run(s, steps[..k])), Run(s, steps[..k]))
  {
    if k == 0 {
    } else {
      ReachablePayloads(env, s, steps, k - 1);
      ReachableAgreement(env, s, steps, k - 1);
      BackedStepKeepsPayloads(env, Run(s, steps[..k - 1]), steps[k - 1]);
      PrefixStep(s, steps, k - 1);
    }
  }

  // ----- settlement -----------------------------------------------------------------------------

  /** A settlement in the log means the contract has settled the job. */
  lemma LoggedIsSettled(env: Escrow.Env, txs: seq<Escrow.Tx>, e: Indexer.Entry)
    requires e in Indexer.Logged(env, txs) && !e.event.JobSubmitted?
    ensures e.event.id in Escrow.After(env, txs).completed
  {
    Indexer.LoggedIsTheLog(env, txs);
    Escrow.HistoryKeeps(env, txs);
    var es := Indexer.Logged(env, txs);
    var i :| 0 <= i < |es| && es[i] == e;
    Indexer.OneSettlement(Escrow.After(env, txs).log, i, e.event.id);
  }

  lemma FetchedIsSettled(env: Escrow.Env, s: System, entries: set<Indexer.Entry>)
    requires Enabled(env, s, Fetch(entries))
    ensures forall e :: e in entries && !e.event.JobSubmitted? ==> e.event.id in Chain(env, s).completed
  {
    forall e | e in entries && !e.event.JobSubmitted? ensures e.event.id in Chain(env, s).completed {
      LoggedIsSettled(env, s.txs, e);
    }
  }

  lemma UpdateKeepsSettled(chain: Escrow.State, s: System, id: JobId, u: Update, txHash: TxHash)
    requires SettledOk(chain, s) && (u.Claim? || id in chain.completed)
    ensures SettledOk(chain, s.(table := UpdateEntry(s.table, id, u)))
    ensures !u.Claim? ==> SettledOk(chain, s.(table := s.table[id := Placeholder(id, txHash)]))
  {
  }

  lemma IndexKeepsSettled(chain: Escrow.State, s: System, e: Indexer.Entry)
    requires SettledOk(chain, s) && e in s.fetched
    ensures SettledOk(chain, Next(s, Index(e)))
  {
    if !e.event.JobSubmitted? {
      UpdateKeepsSettled(chain, s, e.event.id, if e.event.JobExpired? then Expire else Complete(e.txHash), e.txHash);
    }
  }

  lemma GrowthKeepsSettled(chain: Escrow.State, more: Escrow.State, s: System)
    requires SettledOk(chain, s) && Escrow.Extends(chain, more)
    ensures SettledOk(more, s)
  {
  }

  lemma InsertKeepsSettled(chain: Escrow.State, s: System, job: Job)
    requires SettledOk(chain, s) && job in s.creating
    ensures SettledOk(chain, Next(s, Insert(job)))
  {
  }

  /** Every step, if what it learns from the chain is so. */
  lemma StepKeepsSettled(env: Escrow.Env, chain: Escrow.State, s: System, step: Step)
    requires SettledOk(chain, s) && Enabled(env, s, step)
    requires step.ConfirmCompleted? ==> step.id in chain.completed
    requires step.Fetch? ==> forall e :: e in step.entries && !e.event.JobSubmitted? ==> e.event.id in chain.completed
    ensures SettledOk(chain, Next(s, step))
  {
    match step
    case HandleClaim(id, worker, now) => UpdateKeepsSettled(chain, s, id, Claim(worker, now), id);
    case MarkCompleted(id, txHash) => UpdateKeepsSettled(chain, s, id, Complete(txHash), txHash);
    case Index(entry) => IndexKeepsSettled(chain, s, entry);
    case Insert(job) => InsertKeepsSettled(chain, s, job);
    case _ =>
  }

  lemma ChainStepKeepsSettled(env: Escrow.Env, s: System, step: Step)
    requires SettledOk(Chain(env, s), s) && Enabled(env, s, step)
    ensures SettledOk(Chain(env, Next(s, step)), Next(s, step))
  {
    StepExtends(env, s, step);
    var after := Chain(env, Next(s, step));
    GrowthKeepsSettled(Chain(env, s), after, s);
    if step.Fetch? {
      FetchedIsSettled(env, s, step.entries);
    }
    StepKeepsSettled(env, after, s, step);
  }

  lemma {:induction false} ReachableSettled(env: Escrow.Env, s: System, steps: seq<Step>, k: nat)
    requires Start(s) && Legal(env, s, steps) && k <= |steps|
    ensures SettledOk(Chain(env, Run(s, steps[..k])), Run(s, steps[..k]))
  {
    if k == 0 {
    } else {
      ReachableSettled(env, s, steps, k - 1);
      ChainStepKeepsSettled(env, Run(s, steps[..k - 1]), steps[k - 1]);
      PrefixStep(s, steps, k - 1);
    }
  }

  // ----- what it means --------------------------------------------------------------------------

  predicate WorksOn(s: System, w: PeerId, id: JobId) {
    w in s.workers && (s.workers[w].status.Proving? || s.workers[w].status.Submitting?) &&
    s.workers[w].status.job.id == id
  }

  lemma StepKeepsSent(s: System, step: Step, m: GossipMessage)
    requires m in s.sent
    ensures m in Next(s, step).sent
  {
  }

  lemma {:induction false} StaysSent(s: System, steps: seq<Step>, i: nat, k: nat, m: GossipMessage)
    requires i <= k <= |steps| && m in Run(s, steps[..i]).sent
    ensures m in Run(s, steps[..k]).sent
  {
    if i == k {
    } else {
      StaysSent(s, steps, i, k - 1, m);
      StepKeepsSent(Run(s, steps[..k - 1]), steps[k - 1], m);
      PrefixStep(s, steps, k - 1);
    }
  }

  lemma WorksWhenTold(s: System, w: PeerId, id: JobId)
    requires ClaimInv(s) && WorksOn(s, w, id)
    ensures ClaimAccepted(id, w) in s.sent
  {
    assert WorkerOk(w, s.workers[w], s.sent);
  }

  lemma OnlyWinner(s: System, id: JobId, w: PeerId, v: PeerId)
    requires ClaimInv(s) && ClaimAccepted(id, w) in s.sent
    ensures ClaimAccepted(id, v) in s.sent <==> v == w
    ensures id in s.table && (s.table[id].status.Assigned? ==> s.table[id].status.worker == w)
  {
  }

  /** Mutual exclusion, with or without a contract: over a whole run, even at different times, only one
      worker ever proves or submits a job; only one is ever told it won; and an assigned entry names that
      worker. */
  lemma ProvingIsExclusive(env: Escrow.Env, start: System, steps: seq<Step>, k: nat, id: JobId, w: PeerId, v: PeerId)
    requires Start(start) && Legal(env, start, steps) && FreshIds(start, steps) && k <= |steps|
    requires WorksOn(Run(start, steps[..k]), w, id)
    ensures var s := Run(start, steps);
            && (WorksOn(s, v, id) ==> v == w)
            && (ClaimAccepted(id, v) in s.sent <==> v == w)
            && id in s.table && (s.table[id].status.Assigned? ==> s.table[id].status.worker == w)
  {
    ReachableClaims(env, start, steps, k);
    WorksWhenTold(Run(start, steps[..k]), w, id);
    StaysSent(start, steps, k, |steps|, ClaimAccepted(id, w));
    ReachableClaims(env, start, steps, |steps|);
    PrefixEnds(start, steps);
    var s := Run(start, steps);
    OnlyWinner(s, id, w, v);
    if WorksOn(s, v, id) {
      WorksWhenTold(s, v, id);
    }
  }

  ghost predicate CreatedThere(env: Escrow.Env, s: System) {
    s.configured && forall id :: id in s.created ==> id in Chain(env, s).jobs
  }

  lemma StepKeepsCreated(env: Escrow.Env, s: System, step: Step)
    requires CreatedThere(env, s) && Enabled(env, s, step) && IsHonoured(env, s, step)
    ensures CreatedThere(env, Next(s, step))
  {
    StepExtends(env, s, step);
    if step.Submit? {
      ChainGrows(env, s, step.tx);
    }
  }

  lemma {:induction false} CreatedOnChain(env: Escrow.Env, s: System, steps: seq<Step>, k: nat)
    requires Start(s) && s.configured && Legal(env, s, steps) && SubmissionsHonoured(env, s, steps) && k <= |steps|
    ensures CreatedThere(env, Run(s, steps[..k]))
  {
    if k == 0 {
    } else {
      CreatedOnChain(env, s, steps, k - 1);
      StepKeepsCreated(env, Run(s, steps[..k - 1]), steps[k - 1]);
      PrefixStep(s, steps, k - 1);
    }
  }

  /** With a chain client and submissions that succeed, ids need not be assumed to be fresh: the contract
      refuses one it has seen. */
  lemma ContractKeepsIdsFresh(env: Escrow.Env, start: System, steps: seq<Step>)
    requires Start(start) && start.configured && Legal(env, start, steps)
    requires SubmissionsHonoured(env, start, steps)
    ensures FreshIds(start, steps)
  {
    forall k | 0 <= k < |steps| ensures IsFresh(Run(start, steps[..k]), steps[k]) {
      CreatedOnChain(env, start, steps, k);
      assert Enabled(env, Run(start, steps[..k]), steps[k]) && IsHonoured(env, Run(start, steps[..k]), steps[k]);
    }
  }

  lemma HonouredIsBacked(env: Escrow.Env, start: System, steps: seq<Step>)
    requires Legal(env, start, steps) && SubmissionsHonoured(env, start, steps)
    ensures SubmissionsBacked(env, start, steps)
  {
    forall k | 0 <= k < |steps| ensures IsBacked(env, Run(start, steps[..k]), steps[k]) {
      assert Enabled(env, Run(start, steps[..k]), steps[k]) && IsHonoured(env, Run(start, steps[..k]), steps[k]);
    }
  }

  lemma AgreementNeedsBacking(env: Escrow.Env, start: System, steps: seq<Step>, k: nat)
    requires Legal(env, start, steps) && k < |steps| && PayloadsAgreeAt(env, start, steps, k + 1)
    ensures IsBacked(env, Run(start, steps[..k]), steps[k])
  {
    var s, step := Run(start, steps[..k]), steps[k];
    assert Enabled(env, s, step);
    PrefixStep(start, steps, k);
    if step.Submit? {
      assert step.job in Next(s, step).creating;
      SubmissionBacks(env, s.txs, step.tx, step.job);
    }
  }

  ghost predicate PayloadsAgreeAt(env: Escrow.Env, start: System, steps: seq<Step>, k: nat)
    requires k <= |steps|
  {
    PayloadsOk(Chain(env, Run(start, steps[..k])), Run(start, steps[..k]))
  }

  /** Payload agreement, exactly: throughout a run everything created, offered in the network, held by a
      worker or still to be offered carries the payload the contract stored under its id, if and only if
      every submission met the contract's guards when it was mined or found its very record there. */
  lemma PayloadsAgree(env: Escrow.Env, start: System, steps: seq<Step>)
    requires Start(start) && start.configured && Legal(env, start, steps)
    ensures (forall k :: 0 <= k <= |steps| ==> PayloadsAgreeAt(env, start, steps, k)) <==>
            SubmissionsBacked(env, start, steps)
    ensures SubmissionsHonoured(env, start, steps) ==> SubmissionsBacked(env, start, steps)
  {
    if SubmissionsHonoured(env, start, steps) {
      HonouredIsBacked(env, start, steps);
    }
    if SubmissionsBacked(env, start, steps) {
      forall k | 0 <= k <= |steps| ensures PayloadsAgreeAt(env, start, steps, k) {
        ReachablePayloads(env, start, steps, k);
      }
    }
    if forall k :: 0 <= k <= |steps| ==> PayloadsAgreeAt(env, start, steps, k) {
      forall k | 0 <= k < |steps| ensures IsBacked(env, Run(start, steps[..k]), steps[k]) {
        AgreementNeedsBacking(env, start, steps, k);
      }
    }
  }

  /** So the journal the guest commits for a job some worker holds passes all the contract's journal
      checks: submitting it succeeds exactly when the job is not settled, it is in time, the verifier
      passes and the recipient takes the ether; and then it pays the sender exactly the reward the
      worker was offered, once, and logs the right result. */
  lemma HonestProofAccepted(env: Escrow.Env, start: System, steps: seq<Step>, w: PeerId,
                            now: nat, sender: Address, seal: Bytes, reply: Escrow.Reply)
    requires Start(start) && start.configured && Legal(env, start, steps) && SubmissionsBacked(env, start, steps)
    requires w in Run(start, steps).workers && !Run(start, steps).workers[w].status.Idle?
    ensures var s := Run(start, steps);
            var job := s.workers[w].status.job;
            var journal := Guest.Encode(Guest.Answer(env.sha256, job.id, job.payload));
            var proof := Escrow.SubmitProof(sender, job.id, journal, seal, reply);
            var o := Escrow.Exec(env, now, proof, Chain(env, s));
            && (o.verdict.Success? <==>
                  job.id !in Chain(env, s).completed && now <= job.deadline &&
                  env.verify(seal, env.imageId, env.sha256(journal)) && reply.accept)
            && (o.verdict.Success? ==>
                  && Escrow.Payout(job.id, sender, job.reward, now, Some(Escrow.Proof(journal, seal))) in o.state.paid
                  && Escrow.Payments(o.state.paid, job.id) == 1
                  && Escrow.Event.JobCompleted(job.id, sender, Guest.Answer(env.sha256, job.id, job.payload).result)
                     in o.state.log)
  {
    ReachablePayloads(env, start, steps, |steps|);
    PrefixEnds(start, steps);
    var s := Run(start, steps);
    var job := s.workers[w].status.job;
    assert Backed(Chain(env, s), job);
    var journal := Guest.Encode(Guest.Answer(env.sha256, job.id, job.payload));
    Guest.InputBytes(job.payload);
    Guest.GuestRoundTrip(env.sha256, job.id, job.payload, Guest.InputNumber(job.payload), job.id, job.payload);
    Escrow.HistoryKeeps(env, s.txs);
    var proof := Escrow.SubmitProof(sender, job.id, journal, seal, reply);
    Escrow.AcceptedProofPays(env, now, proof, Chain(env, s), {});
  }

  /** The coordinator never runs ahead of the chain: what it shows as completed or expired, the
      contract has settled, although the query and the update are separate steps. */
  lemma NeverAheadOfChain(env: Escrow.Env, start: System, steps: seq<Step>, id: JobId)
    requires Start(start) && Legal(env, start, steps)
    requires id in Run(start, steps).table
    requires Run(start, steps).table[id].status.Completed? || Run(start, steps).table[id].status.Expired?
    ensures id in Chain(env, Run(start, steps)).completed
    ensures Escrow.Settlements(Chain(env, Run(start, steps)).log, id) == 1
  {
    ReachableSettled(env, start, steps, |steps|);
    PrefixEnds(start, steps);
    Escrow.HistoryKeeps(env, Run(start, steps).txs);
  }

  /** In every reachable state a quiescent snapshot, in whatever order, restores the table. */
  lemma ReachableSnapshot(env: Escrow.Env, start: System, steps: seq<Step>, entries: seq<Job>, order: seq<JobId>)
    requires Start(start) && Legal(env, start, steps)
    requires Lists(entries, order, Run(start, steps).table)
    ensures Restored(entries) == Run(start, steps).table
  {
    ReachableSettled(env, start, steps, |steps|);
    PrefixEnds(start, steps);
    SnapshotRoundTrip(Run(start, steps).table, entries, order);
  }

  lemma UpdateMovesForward(t: Table, id: JobId, u: Update, k: JobId)
    requires k in t
    ensures k in UpdateEntry(t, id, u) && Rank(UpdateEntry(t, id, u)[k].status) >= Rank(t[k].status)
  {
  }

  lemma StepMovesForward(s: System, step: Step, id: JobId)
    requires id in s.table && !(step.Insert? && step.job.id == id)
    ensures id in Next(s, step).table && Rank(Next(s, step).table[id].status) >= Rank(s.table[id].status)
  {
    match step
    case HandleClaim(k, worker, now) => UpdateMovesForward(s.table, k, Claim(worker, now), id);
    case MarkCompleted(k, txHash) => UpdateMovesForward(s.table, k, Complete(txHash), id);
    case Index(e) =>
      UpdateMovesForward(s.table, e.event.id, Complete(e.txHash), id);
      UpdateMovesForward(s.table, e.event.id, Expire, id);
    case _ =>
  }

  /** Statuses move forward, with one exception: a step sets a status back exactly when it is the
      insert of a newly created job under an id the indexer has meanwhile made a placeholder for. */
  lemma StatusRegressesOnlyOnInsert(env: Escrow.Env, start: System, steps: seq<Step>, step: Step, id: JobId)
    requires Start(start) && Legal(env, start, steps) && FreshIds(start, steps)
    requires Enabled(env, Run(start, steps), step) && id in Run(start, steps).table
    ensures var s := Run(start, steps);
            && id in Next(s, step).table
            && (Rank(Next(s, step).table[id].status) < Rank(s.table[id].status) <==> step.Insert? && step.job.id == id)
  {
    var s := Run(start, steps);
    if step.Insert? && step.job.id == id {
      assert s.table[id].status.Completed? && step.job.status.Pending? by {
        ReachableClaims(env, start, steps, |steps|);
        PrefixEnds(start, steps);
      }
    } else {
      StepMovesForward(s, step, id);
    }
  }

  // ----- what happens when an id is used twice --------------------------------------------------

  function CreatedBy(step: Step): seq<JobId> {
    match step
    case Submit(_, job) => [job.id]
    case Propose(job) => [job.id]
    case _ => []
  }

  /** The ids of the jobs a run creates, in order. */
  function CreatedIds(steps: seq<Step>): seq<JobId> {
    if steps == [] then [] else CreatedIds(steps[..|steps| - 1]) + CreatedBy(steps[|steps| - 1])
  }

  ghost predicate Distinct(ids: seq<JobId>) {
    forall i, k :: 0 <= i < k < |ids| ==> ids[i] != ids[k]
  }

  /** No two workers ever prove or submit the same job, not even at different times. */
  ghost predicate Exclusive(start: System, steps: seq<Step>) {
    forall k, w: PeerId, v: PeerId, id: JobId ::
      0 <= k <= |steps| && WorksOn(Run(start, steps[..k]), w, id) && WorksOn(Run(start, steps), v, id) ==> v == w
  }

  lemma Append(env: Escrow.Env, s: System, steps: seq<Step>, step: Step)
    requires Legal(env, s, steps) && Enabled(env, Run(s, steps), step)
    ensures Legal(env, s, steps + [step]) && Run(s, steps + [step]) == Next(Run(s, steps), step)
    ensures CreatedIds(steps + [step]) == CreatedIds(steps) + CreatedBy(step)
  {
    var all := steps + [step];
    assert all[..|steps|] == steps;
    forall k | 0 <= k < |all| ensures Enabled(env, Run(s, all[..k]), all[k]) {
      if k < |steps| {
        assert all[..k] == steps[..k];
        assert Enabled(env, Run(s, steps[..k]), steps[k]);
      }
    }
  }

  /** How create_job begins, with or without a contract. */
  function Creation(configured: bool, job: Job): Step {
    if configured then
      Submit(Escrow.Tx(job.id, 0, Escrow.SubmitJob(job.owner, job.reward, job.id, job.payload, job.deadline)), job)
    else Propose(job)
  }

  /** A job is created and offered. */
  lemma JobOffered(env: Escrow.Env, s: System, steps: seq<Step>, job: Job) returns (more: seq<Step>)
    requires Legal(env, s, steps) && job.status.Pending?
    ensures Legal(env, s, more) && CreatedIds(more) == CreatedIds(steps) + [job.id]
    ensures var t := Run(s, more);
            && t.workers == Run(s, steps).workers
            && job.id in t.table && t.table[job.id] == job && JobAvailable(job) in t.sent
  {
    var create := Creation(Run(s, steps).configured, job);
    Append(env, s, steps, create);
    Append(env, s, steps + [create], Insert(job));
    more := steps + [create] + [Insert(job)];
  }

  lemma OfferIsClaimed(s: System, job: Job, w: PeerId)
    requires w in s.workers && s.workers[w] == Worker.INITIAL && job.deadline > 0
    ensures var t := Next(s, WorkerStep(w, Worker.Receive(JobAvailable(job), 0)));
            && t.workers == s.workers[w := Worker.State(Worker.Claiming(job), multiset{})]
            && t.table == s.table && ClaimJob(job.id, w) in t.sent
  {
    var r := Worker.React(w, s.workers[w], Worker.Receive(JobAvailable(job), 0));
    assert r.sent[0] == ClaimJob(job.id, w);
  }

  lemma ClaimIsAccepted(s: System, job: Job, w: PeerId)
    requires job.id in s.table && s.table[job.id] == job && job.status.Pending?
    ensures var t := Next(s, HandleClaim(job.id, w, 0));
            t.workers == s.workers && ClaimAccepted(job.id, w) in t.sent
  {
  }

  /** An idle worker claims it, and the claim is accepted. */
  lemma JobClaimed(env: Escrow.Env, s: System, steps: seq<Step>, job: Job, w: PeerId) returns (more: seq<Step>)
    requires Legal(env, s, steps) && job.status.Pending? && job.deadline > 0
    requires var t := Run(s, steps);
             && w in t.workers && t.workers[w] == Worker.INITIAL
             && job.id in t.table && t.table[job.id] == job && JobAvailable(job) in t.sent
    ensures Legal(env, s, more) && CreatedIds(more) == CreatedIds(steps)
    ensures var t := Run(s, more);
            && t.workers == Run(s, steps).workers[w := Worker.State(Worker.Claiming(job), multiset{})]
            && ClaimAccepted(job.id, w) in t.sent
  {
    var claim, handle := WorkerStep(w, Worker.Receive(JobAvailable(job), 0)), HandleClaim(job.id, w, 0);
    Append(env, s, steps, claim);
    OfferIsClaimed(Run(s, steps), job, w);
    ClaimIsAccepted(Run(s, steps + [claim]), job, w);
    Append(env, s, steps + [claim], handle);
    more := steps + [claim] + [handle];
  }

  lemma ToldStarts(s: System, job: Job, w: PeerId)
    requires w in s.workers && s.workers[w] == Worker.State(Worker.Claiming(job), multiset{})
    ensures var t := Next(s, WorkerStep(w, Worker.Receive(ClaimAccepted(job.id, w), 0)));
            && WorksOn(t, w, job.id) && t.workers.Keys == s.workers.Keys
            && forall v :: v in s.workers && v != w ==> t.workers[v] == s.workers[v]
  {
  }

  /** Whenever a job is created, an idle worker can be brought to prove it, even under a used id. */
  lemma JobProved(env: Escrow.Env, s: System, steps: seq<Step>, job: Job, w: PeerId) returns (more: seq<Step>)
    requires Legal(env, s, steps) && job.status.Pending? && job.deadline > 0
    requires w in Run(s, steps).workers && Run(s, steps).workers[w] == Worker.INITIAL
    ensures Legal(env, s, more) && CreatedIds(more) == CreatedIds(steps) + [job.id]
    ensures Run(s, more).workers.Keys == Run(s, steps).workers.Keys && WorksOn(Run(s, more), w, job.id)
    ensures forall v :: v in Run(s, steps).workers && v != w ==> Run(s, more).workers[v] == Run(s, steps).workers[v]
  {
    var accept := WorkerStep(w, Worker.Receive(ClaimAccepted(job.id, w), 0));
    var offered := JobOffered(env, s, steps, job);
    var claimed := JobClaimed(env, s, offered, job, w);
    Append(env, s, claimed, accept);
    more := claimed + [accept];
    ToldStarts(Run(s, claimed), job, w);
  }

  function AnyJob(id: JobId): Job {
    Job(id, Pending, seq(20, i => 0), [], 0, 0, 1)
  }

  lemma FirstMoved(created: seq<JobId>, ids: seq<JobId>)
    requires ids != []
    ensures created + [ids[0]] + ids[1..] == created + ids
  {
  }

  /** Any further ids can be created without disturbing the workers. */
  lemma {:induction false} AllOffered(env: Escrow.Env, s: System, steps: seq<Step>, ids: seq<JobId>)
    returns (more: seq<Step>)
    requires Legal(env, s, steps)
    ensures Legal(env, s, more) && CreatedIds(more) == CreatedIds(steps) + ids
    ensures Run(s, more).workers == Run(s, steps).workers
    decreases |ids|
  {
    if ids == [] {
      more := steps;
    } else {
      var next := JobOffered(env, s, steps, AnyJob(ids[0]));
      more := AllOffered(env, s, next, ids[1..]);
      FirstMoved(CreatedIds(steps), ids);
    }
  }

  /** Mutual exclusion does rest on fresh ids, with a contract that is not listened to as well as without:
      whatever ids are created, if two are the same there is a run that creates exactly these and in which
      any two workers prove the job at the same time. */
  lemma ReusedIdBreaksExclusion(env: Escrow.Env, start: System, ids: seq<JobId>, i: nat, k: nat, w: PeerId, v: PeerId)
    returns (steps: seq<Step>)
    requires Start(start) && w in start.workers && v in start.workers && w != v
    requires i < k < |ids| && ids[i] == ids[k]
    ensures Legal(env, start, steps) && CreatedIds(steps) == ids
    ensures WorksOn(Run(start, steps), w, ids[i]) && WorksOn(Run(start, steps), v, ids[i])
  {
    var once := ProvedAfter(env, start, [], ids[..i], ids[i], w);
    var twice := ProvedAfter(env, start, once, ids[i + 1..k], ids[k], v);
    steps := AllOffered(env, start, twice, ids[k + 1..]);
    SplitTwice(ids, i, k);
  }

  lemma SplitTwice(ids: seq<JobId>, i: nat, k: nat)
    requires i < k < |ids|
    ensures [] + (ids[..i] + [ids[i]]) + (ids[i + 1..k] + [ids[k]]) + ids[k + 1..] == ids
  {
  }

  /** Some more ids are created, then one whose job an idle worker comes to prove. */
  lemma ProvedAfter(env: Escrow.Env, s: System, steps: seq<Step>, ids: seq<JobId>, id: JobId, w: PeerId)
    returns (more: seq<Step>)
    requires Legal(env, s, steps) && w in Run(s, steps).workers && Run(s, steps).workers[w] == Worker.INITIAL
    ensures Legal(env, s, more) && CreatedIds(more) == CreatedIds(steps) + (ids + [id])
    ensures Run(s, more).workers.Keys == Run(s, steps).workers.Keys && WorksOn(Run(s, more), w, id)
    ensures forall v :: v in Run(s, steps).workers && v != w ==> Run(s, more).workers[v] == Run(s, steps).workers[v]
  {
    var before := AllOffered(env, s, steps, ids);
    more := JobProved(env, s, before, AnyJob(id), w);
    assert CreatedIds(steps) + ids + [id] == CreatedIds(steps) + (ids + [id]);
  }

  lemma {:induction false} CreatedPrefix(steps: seq<Step>, k: nat)
    requires k <= |steps|
    ensures CreatedIds(steps[..k]) <= CreatedIds(steps)
  {
    if k == |steps| {
      assert steps[..k] == steps;
    } else {
      assert steps[..|steps| - 1][..k] == steps[..k];
      CreatedPrefix(steps[..|steps| - 1], k);
    }
  }

  lemma CreatedOneMore(steps: seq<Step>, k: nat)
    requires k < |steps|
    ensures CreatedIds(steps[..k + 1]) == CreatedIds(steps[..k]) + CreatedBy(steps[k])
  {
    assert steps[..k + 1][..k] == steps[..k];
  }

  lemma StepCreates(s: System, step: Step, id: JobId)
    ensures id in Next(s, step).created ==> id in s.created || id in CreatedBy(step)
  {
  }

  lemma {:induction false} CreatedSoFar(s: System, steps: seq<Step>, k: nat, id: JobId)
    requires Start(s) && k <= |steps| && id in Run(s, steps[..k]).created
    ensures id in CreatedIds(steps[..k])
  {
    if k == 0 {
      assert false;
    } else {
      PrefixStep(s, steps, k - 1);
      CreatedOneMore(steps, k - 1);
      if id in Run(s, steps[..k - 1]).created {
        CreatedSoFar(s, steps, k - 1, id);
      } else {
        StepCreates(Run(s, steps[..k - 1]), steps[k - 1], id);
      }
    }
  }

  lemma WorkersStay(s: System, step: Step)
    ensures Next(s, step).workers.Keys == s.workers.Keys
  {
  }

  lemma {:induction false} SameWorkers(s: System, steps: seq<Step>, k: nat)
    requires k <= |steps|
    ensures Run(s, steps[..k]).workers.Keys == s.workers.Keys
  {
    if k == 0 {
    } else {
      SameWorkers(s, steps, k - 1);
      WorkersStay(Run(s, steps[..k - 1]), steps[k - 1]);
      PrefixStep(s, steps, k - 1);
    }
  }

  /** Ids are fresh when none is created twice. */
  lemma FreshIfDistinct(s: System, steps: seq<Step>)
    requires Start(s) && Distinct(CreatedIds(steps))
    ensures FreshIds(s, steps)
  {
    forall k | 0 <= k < |steps| ensures IsFresh(Run(s, steps[..k]), steps[k]) {
      if CreatedBy(steps[k]) != [] {
        CreatedOneMore(steps, k);
        CreatedPrefix(steps, k + 1);
        NotAmongEarlier(CreatedIds(steps), CreatedIds(steps[..k]), CreatedBy(steps[k])[0]);
        if CreatedBy(steps[k])[0] in Run(s, steps[..k]).created {
          CreatedSoFar(s, steps, k, CreatedBy(steps[k])[0]);
        }
      }
    }
  }

  lemma NotAmongEarlier(ids: seq<JobId>, earlier: seq<JobId>, id: JobId)
    requires Distinct(ids) && earlier + [id] <= ids
    ensures id !in earlier
  {
    var front := earlier + [id];
    assert ids[|earlier|] == front[|earlier|] == id;
    forall i | 0 <= i < |earlier| ensures earlier[i] != id {
      assert ids[i] == front[i] == earlier[i];
    }
  }

  lemma FewWorkersAreExclusive(start: System, steps: seq<Step>)
    requires Start(start) && |start.workers.Keys| < 2
    ensures Exclusive(start, steps)
  {
    forall k, w: PeerId, v: PeerId, id: JobId | 0 <= k <= |steps| &&
      WorksOn(Run(start, steps[..k]), w, id) && WorksOn(Run(start, steps), v, id)
      ensures v == w
    {
      SameWorkers(start, steps, k);
      SameWorkers(start, steps, |steps|);
      PrefixEnds(start, steps);
      SubsetSize({w, v}, start.workers.Keys);
      assert |{w, v}| < 2 ==> v == w;
    }
  }

  lemma DistinctIdsAreExclusive(env: Escrow.Env, start: System, steps: seq<Step>)
    requires Start(start) && Legal(env, start, steps) && Distinct(CreatedIds(steps))
    ensures Exclusive(start, steps)
  {
    FreshIfDistinct(start, steps);
    forall k, w: PeerId, v: PeerId, id: JobId | 0 <= k <= |steps| &&
      WorksOn(Run(start, steps[..k]), w, id) && WorksOn(Run(start, steps), v, id)
      ensures v == w
    {
      ProvingIsExclusive(env, start, steps, k, id, w, v);
    }
  }

  /** Every run that creates exactly these ids is exclusive. */
  ghost predicate AlwaysExclusive(env: Escrow.Env, start: System, ids: seq<JobId>) {
    forall steps :: Legal(env, start, steps) && CreatedIds(steps) == ids ==> Exclusive(start, steps)
  }

  /** Mutual exclusion, exactly: with or without a contract, and whatever its receipts are worth, the runs
      that create a given sequence of ids are all exclusive if and only if the ids are distinct, or there
      are not two workers. */
  lemma ExclusiveIffDistinct(env: Escrow.Env, start: System, ids: seq<JobId>)
    requires Start(start)
    ensures AlwaysExclusive(env, start, ids) <==> Distinct(ids) || |start.workers.Keys| < 2
  {
    if Distinct(ids) || |start.workers.Keys| < 2 {
      forall steps | Legal(env, start, steps) && CreatedIds(steps) == ids ensures Exclusive(start, steps) {
        if Distinct(ids) {
          DistinctIdsAreExclusive(env, start, steps);
        } else {
          FewWorkersAreExclusive(start, steps);
        }
      }
    } else {
      NotExclusive(env, start, ids);
    }
  }

  lemma NotExclusive(env: Escrow.Env, start: System, ids: seq<JobId>)
    requires Start(start) && !Distinct(ids) && |start.workers.Keys| >= 2
    ensures !AlwaysExclusive(env, start, ids)
  {
    var i, k :| 0 <= i < k < |ids| && ids[i] == ids[k];
    var w :| w in start.workers.Keys;
    assert |start.workers.Keys - {w}| >= 1;
    var v :| v in start.workers.Keys - {w};
    var steps := ReusedIdBreaksExclusion(env, start, ids, i, k, w, v);
    PrefixEnds(start, steps);
    assert WorksOn(Run(start, steps[..|steps|]), w, ids[i]);
  }

  // ----- a run in which a reverted submission is offered ----------------------------------------

  const EMPTY := System(true, [], map[], {}, {}, {}, {}, {}, map[])

  /** After any history, create_job submits a job and the transaction is mined. */
  function CreateAfter(txs: seq<Escrow.Tx>, tx: Escrow.Tx, job: Job): seq<Step> {
    seq(|txs|, i requires 0 <= i < |txs| => Mine(txs[i])) + [Submit(tx, job), Insert(job)]
  }

  lemma {:induction false} MinedSoFar(txs: seq<Escrow.Tx>, tx: Escrow.Tx, job: Job, k: nat)
    requires k <= |txs|
    ensures Run(EMPTY, CreateAfter(txs, tx, job)[..k]) == EMPTY.(txs := txs[..k])
  {
    if k == 0 {
    } else {
      MinedSoFar(txs, tx, job, k - 1);
      PrefixStep(EMPTY, CreateAfter(txs, tx, job), k - 1);
      assert txs[..k - 1] + [txs[k - 1]] == txs[..k];
    }
  }

  lemma CreatedAfter(txs: seq<Escrow.Tx>, tx: Escrow.Tx, job: Job)
    ensures var steps := CreateAfter(txs, tx, job);
            && Run(EMPTY, steps[..|txs|]) == EMPTY.(txs := txs)
            && Run(EMPTY, steps[..|txs| + 1]) ==
               EMPTY.(txs := txs + [tx], created := {job.id}, creating := {job})
            && Run(EMPTY, steps) == EMPTY.(txs := txs + [tx], created := {job.id}, table := map[job.id := job],
                                           sent := {JobAvailable(job)})
  {
    var steps := CreateAfter(txs, tx, job);
    MinedSoFar(txs, tx, job, |txs|);
    assert txs[..|txs|] == txs;
    PrefixStep(EMPTY, steps, |txs|);
    PrefixStep(EMPTY, steps, |txs| + 1);
    PrefixEnds(EMPTY, steps);
  }

  /** Agreement does fail for the others: after any history, every submission that misses the contract's
      guards without its record being there, when answered with `Ok`, ends up in the table and in the
      network although the contract does not back it. */
  lemma RevertedSubmissionOffered(env: Escrow.Env, txs: seq<Escrow.Tx>, tx: Escrow.Tx, job: Job)
    requires Submits(tx, job) && job.status.Pending?
    requires job.id in Escrow.After(env, txs).jobs || job.reward == 0 || job.deadline <= tx.now
    requires !Backed(Escrow.After(env, txs), job)
    ensures var steps := CreateAfter(txs, tx, job);
            var s := Run(EMPTY, steps);
            && Start(EMPTY) && Legal(env, EMPTY, steps) && FreshIds(EMPTY, steps)
            && job.id in s.table && s.table[job.id] == job && JobAvailable(job) in s.sent
            && !Backed(Chain(env, s), job)
  {
    var steps := CreateAfter(txs, tx, job);
    CreatedAfter(txs, tx, job);
    SubmissionBacks(env, txs, tx, job);
    forall k | 0 <= k < |steps|
      ensures Enabled(env, Run(EMPTY, steps[..k]), steps[k]) && IsFresh(Run(EMPTY, steps[..k]), steps[k])
    {
      assert k < |txs| || k == |txs| || k == |txs| + 1;
    }
  }

  // ----- a run in which a status is set back ----------------------------------------------------

  /** A job is submitted; before create_job inserts it, somebody proves it on chain and the indexer
      has seen the completion. */
  function OvertakenCreate(env: Escrow.Env, job: Job, sender: Address, seal: Bytes, now: nat, first: TxHash,
                           second: TxHash): seq<Step>
  {
    var journal := Guest.Encode(Guest.Answer(env.sha256, job.id, job.payload));
    var submit := Escrow.Tx(first, now, Escrow.SubmitJob(sender, job.reward, job.id, job.payload, job.deadline));
    var prove := Escrow.Tx(second, now, Escrow.SubmitProof(sender, job.id, journal, seal, Escrow.Reply([], true)));
    var entry := Indexer.Entry(Escrow.Event.JobCompleted(job.id, sender, journal[64..]), second);
    [Submit(submit, job), Mine(prove), Fetch({entry}), Index(entry), Insert(job)]
  }

  /** The two transactions of that run succeed, and the second one logs the completion. */
  lemma OvertakenChain(env: Escrow.Env, submit: Escrow.Tx, prove: Escrow.Tx)
    requires submit.call.SubmitJob? && submit.call.value > 0 && submit.now < submit.call.deadline
    requires prove.call.SubmitProof? && prove.now == submit.now && prove.call.id == submit.call.id
    requires prove.call.reply == Escrow.Reply([], true)
    requires Guest.CheckJournal(env.sha256, prove.call.journal, prove.call.id, submit.call.payload) == None
    requires env.verify(prove.call.seal, env.imageId, env.sha256(prove.call.journal))
    ensures Escrow.Exec(env, submit.now, submit.call, Escrow.GENESIS).verdict.Success?
    ensures Escrow.After(env, [submit]) == Escrow.Exec(env, submit.now, submit.call, Escrow.GENESIS).state
    ensures |prove.call.journal| >= 64
    ensures var event := Escrow.Event.JobCompleted(prove.call.id, prove.call.sender, prove.call.journal[64..]);
            Indexer.Entry(event, prove.hash) in Indexer.Logged(env, [submit, prove])
  {
    var one, two := [submit], [submit, prove];
    assert one[..0] == [] && two[..1] == one;
    assert Escrow.After(env, []) == Escrow.GENESIS;
    var s, t := Escrow.After(env, one), Escrow.After(env, two);
    assert s == Escrow.Exec(env, submit.now, submit.call, Escrow.GENESIS).state;
    assert t == Escrow.Exec(env, prove.now, prove.call, s).state;
    assert Escrow.Check(env, prove.now, prove.call, s) == None;
    var begun := Escrow.Begin(env, prove.now, prove.call, s).value;
    assert Escrow.ExecAll(env, prove.now, [], begun) == begun;
    assert s.log == [Escrow.JobSubmitted(submit.call.id, submit.call.sender, submit.call.value, submit.call.deadline)];
    var event := Escrow.Event.JobCompleted(prove.call.id, prove.call.sender, prove.call.journal[64..]);
    assert t.log == s.log + [event];
    assert t.log[|s.log|..] == [event];
    assert Indexer.Logged(env, two) == Indexer.Logged(env, one) + Indexer.Stamp([event], prove.hash);
    assert Indexer.Stamp([event], prove.hash)[0] == Indexer.Entry(event, prove.hash);
  }

  lemma OvertakenFirst(job: Job, steps: seq<Step>, submit: Escrow.Tx, prove: Escrow.Tx)
    requires |steps| == 5 && steps[0] == Submit(submit, job) && steps[1] == Mine(prove)
    ensures Run(EMPTY, steps[..0]) == EMPTY
    ensures Run(EMPTY, steps[..1]) == EMPTY.(created := {job.id}, creating := {job}, txs := [submit])
    ensures Run(EMPTY, steps[..2]) == EMPTY.(created := {job.id}, creating := {job}, txs := [submit, prove])
  {
    PrefixStep(EMPTY, steps, 0);
    PrefixStep(EMPTY, steps, 1);
  }

  lemma OvertakenLast(job: Job, steps: seq<Step>, submit: Escrow.Tx, prove: Escrow.Tx, entry: Indexer.Entry)
    requires |steps| == 5 && steps[2] == Fetch({entry}) && steps[3] == Index(entry)
    requires entry.event.JobCompleted? && entry.event.id == job.id
    requires Run(EMPTY, steps[..2]) == EMPTY.(created := {job.id}, creating := {job}, txs := [submit, prove])
    ensures var s := EMPTY.(created := {job.id}, creating := {job}, txs := [submit, prove]);
            && Run(EMPTY, steps[..3]) == s.(fetched := {entry})
            && Run(EMPTY, steps[..4]) == s.(table := map[job.id := Placeholder(job.id, entry.txHash)])
  {
    PrefixStep(EMPTY, steps, 2);
    PrefixStep(EMPTY, steps, 3);
    assert {} + {entry} == {entry} && {entry} - {entry} == {};
    assert Indexer.Settle(entry, map[]) == map[job.id := Placeholder(job.id, entry.txHash)];
  }

  /** Where that run is before each step. */
  lemma OvertakenSoFar(job: Job, steps: seq<Step>, submit: Escrow.Tx, prove: Escrow.Tx, entry: Indexer.Entry)
    requires steps == [Submit(submit, job), Mine(prove), Fetch({entry}), Index(entry), Insert(job)]
    requires entry.event.JobCompleted? && entry.event.id == job.id
    ensures var s := EMPTY.(created := {job.id}, creating := {job});
            && Run(EMPTY, steps[..0]) == EMPTY
            && Run(EMPTY, steps[..1]) == s.(txs := [submit])
            && Run(EMPTY, steps[..2]) == s.(txs := [submit, prove])
            && Run(EMPTY, steps[..3]) == s.(txs := [submit, prove], fetched := {entry})
            && Run(EMPTY, steps[..4]) ==
               s.(txs := [submit, prove], table := map[job.id := Placeholder(job.id, entry.txHash)])
  {
    OvertakenFirst(job, steps, submit, prove);
    OvertakenLast(job, steps, submit, prove, entry);
  }

  lemma OvertakenLegal(env: Escrow.Env, job: Job, steps: seq<Step>, submit: Escrow.Tx, prove: Escrow.Tx,
                       entry: Indexer.Entry)
    requires steps == [Submit(submit, job), Mine(prove), Fetch({entry}), Index(entry), Insert(job)]
    requires Submits(submit, job) && job.status.Pending?
    requires entry.event.JobCompleted? && entry.event.id == job.id && entry in Indexer.Logged(env, [submit, prove])
    requires Escrow.Exec(env, submit.now, submit.call, Escrow.GENESIS).verdict.Success?
    ensures Legal(env, EMPTY, steps) && SubmissionsHonoured(env, EMPTY, steps)
  {
    OvertakenSoFar(job, steps, submit, prove, entry);
    forall k | 0 <= k < |steps|
      ensures Enabled(env, Run(EMPTY, steps[..k]), steps[k]) && IsHonoured(env, Run(EMPTY, steps[..k]), steps[k])
    {
      assert k == 0 || k == 1 || k == 2 || k == 3 || k == 4;
    }
  }

  /** The exception does occur: for every job worth creating and every accepted proof of it, that run
      is legal, its submission succeeds, and its last step turns the job from completed to pending. */
  lemma OvertakenCreateSetsBack(env: Escrow.Env, job: Job, sender: Address, seal: Bytes, now: nat, first: TxHash,
                                second: TxHash)
    requires job.status.Pending? && job.reward > 0 && now < job.deadline
    requires env.verify(seal, env.imageId, env.sha256(Guest.Encode(Guest.Answer(env.sha256, job.id, job.payload))))
    ensures var steps := OvertakenCreate(env, job, sender, seal, now, first, second);
            && Start(EMPTY) && Legal(env, EMPTY, steps) && SubmissionsHonoured(env, EMPTY, steps)
            && job.id in Run(EMPTY, steps[..4]).table
            && Run(EMPTY, steps[..4]).table[job.id].status == Completed(second)
            && job.id in Run(EMPTY, steps).table && Run(EMPTY, steps).table[job.id].status == Pending
  {
    var steps := OvertakenCreate(env, job, sender, seal, now, first, second);
    var submit, prove, entry := steps[0].tx, steps[1].tx, steps[3].entry;
    Guest.InputBytes(job.payload);
    Guest.GuestRoundTrip(env.sha256, job.id, job.payload, Guest.InputNumber(job.payload), job.id, job.payload);
    OvertakenChain(env, submit, prove);
    OvertakenSoFar(job, steps, submit, prove, entry);
    OvertakenLegal(env, job, steps, submit, prove, entry);
    PrefixStep(EMPTY, steps, 4);
    PrefixEnds(EMPTY, steps);
  }
}
