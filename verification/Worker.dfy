/** A worker (crates/worker/src/handler.rs, crates/worker/src/lib.rs): the status that message
    handlers and the spawned proving task both write. */
module Worker {
  import opened Core

  datatype Status =
    | Idle
    | Claiming(job: Job)
    | Proving(job: Job)
    | ProofReady(job: Job)
    | Submitting(job: Job)

  /** Where a spawned task stands: proving; submitting; or done submitting but not yet idle. */
  datatype Stage = AtProving | AtSubmitting | AtClosing

  datatype Task = Task(stage: Stage, job: Job)

  datatype State = State(status: Status, tasks: multiset<Task>)

  const INITIAL := State(Idle, multiset{})

  /** How the chain answered a submission; a failed proof extraction counts as Rejected. */
  datatype Submission = Accepted(txHash: TxHash) | Rejected

  /** What can happen at a worker. */
  datatype Event =
    | Receive(msg: GossipMessage, now: nat)
    | Proved(task: Task, ok: bool)
    | Submitted(task: Task, submission: Submission)
    | Close(task: Task)

  datatype Reaction = Reaction(state: State, sent: seq<GossipMessage>)

  predicate IsClaiming(s: Status, id: JobId) {
    s.Claiming? && s.job.id == id
  }

  function OnMessage(me: PeerId, w: State, msg: GossipMessage, now: nat): Reaction {
    match msg
    case JobAvailable(job) =>
      if w.status.Idle? && job.deadline > now then
        Reaction(w.(status := Claiming(job)), [ClaimJob(job.id, me)])
      else
        Reaction(w, [])
    case ClaimAccepted(id, winner) =>
      if !IsClaiming(w.status, id) then Reaction(w, [])
      else if winner == me then
        Reaction(State(Status.Proving(w.status.job), w.tasks + multiset{Task(AtProving, w.status.job)}), [])
      else Reaction(w.(status := Idle), [])
    case ClaimRejected(id, _) =>
      Reaction(if IsClaiming(w.status, id) then w.(status := Idle) else w, [])
    case _ => Reaction(w, [])
  }

  function Advance(w: State, task: Task, stage: Stage): multiset<Task> {
    w.tasks - multiset{task} + multiset{task.(stage := stage)}
  }

  function OnProved(w: State, task: Task, ok: bool): State {
    var expected := w.status.Proving? && w.status.job.id == task.job.id;
    if !ok then State(if expected then Idle else w.status, w.tasks - multiset{task})
    else if expected then State(Submitting(task.job), Advance(w, task, AtSubmitting))
    else w.(tasks := w.tasks - multiset{task})
  }

  function OnSubmitted(w: State, task: Task, submission: Submission): Reaction {
    Reaction(w.(tasks := Advance(w, task, AtClosing)),
             if submission.Accepted? then [JobCompleted(task.job.id, submission.txHash)] else [])
  }

  function OnClose(w: State, task: Task): State {
    var expected := (w.status.Submitting? || w.status.Proving?) && w.status.job.id == task.job.id;
    State(if expected then Idle else w.status, w.tasks - multiset{task})
  }

  /** An event can happen: a spawned task can only do what comes next for it. */
  predicate Possible(w: State, e: Event) {
    match e
    case Receive(_, _) => true
    case Proved(task, _) => task in w.tasks && task.stage == AtProving
    case Submitted(task, _) => task in w.tasks && task.stage == AtSubmitting
    case Close(task) => task in w.tasks && task.stage == AtClosing
  }

  function React(me: PeerId, w: State, e: Event): Reaction {
    match e
    case Receive(msg, now) => OnMessage(me, w, msg, now)
    case Proved(task, ok) => Reaction(OnProved(w, task, ok), [])
    case Submitted(task, submission) => OnSubmitted(w, task, submission)
    case Close(task) => Reaction(OnClose(w, task), [])
  }

  // ----- status and task agree ----------------------------------------------------------------

  /** The status says exactly which task is alive and how far it is. */
  ghost predicate Agrees(w: State) {
    match w.status
    case Idle => w.tasks == multiset{}
    case Claiming(_) => w.tasks == multiset{}
    case Proving(job) => w.tasks == multiset{Task(AtProving, job)}
    case ProofReady(_) => false
    case Submitting(job) => w.tasks == multiset{Task(AtSubmitting, job)} || w.tasks == multiset{Task(AtClosing, job)}
  }

  /** A live task is the only one, and the status is the one it set. */
  lemma SoleTask(w: State, task: Task)
    requires Agrees(w) && task in w.tasks
    ensures w.tasks == multiset{task}
    ensures w.status == if task.stage.AtProving? then Status.Proving(task.job) else Submitting(task.job)
  {
  }

  lemma ReactKeepsAgreement(me: PeerId, w: State, e: Event)
    requires Agrees(w) && Possible(w, e)
    ensures Agrees(React(me, w, e).state)
  {
    match e
    case Receive(msg, now) =>
      if w.status.Claiming? {
        assert multiset{} + multiset{Task(AtProving, w.status.job)} == multiset{Task(AtProving, w.status.job)};
      }
    case Proved(task, ok) =>
      SoleTask(w, task);
      assert Advance(w, task, AtSubmitting) == multiset{Task(AtSubmitting, task.job)};
    case Submitted(task, submission) =>
      SoleTask(w, task);
      assert Advance(w, task, AtClosing) == multiset{Task(AtClosing, task.job)};
    case Close(task) =>
      SoleTask(w, task);
  }

  /** The status a task finds is the one it expects, so neither "unexpected state" branch is ever
      taken: a finished proof is always submitted, and a closing task always frees its worker. */
  lemma NoUnexpectedState(w: State, e: Event)
    requires Agrees(w) && Possible(w, e)
    ensures e.Proved? ==>
              && w.status == Status.Proving(e.task.job)
              && (e.ok ==> OnProved(w, e.task, e.ok).status == Submitting(e.task.job))
    ensures e.Close? ==> w.status == Submitting(e.task.job) && OnClose(w, e.task) == INITIAL
  {
    if !e.Receive? {
      SoleTask(w, e.task);
    }
  }

  lemma TaskStepsAgree(me: PeerId, w: State, e: Event)
    requires Agrees(w) && Possible(w, e) && !e.Receive?
    ensures !w.status.Claiming? && Agrees(React(me, w, e).state)
  {
    SoleTask(w, e.task);
    ReactKeepsAgreement(me, w, e);
  }

  /** A worker only ever holds a job it was offered, only ever proves a job it was told it won, and
      only ever broadcasts claims and completions. */
  lemma ReactProvenance(me: PeerId, w: State, e: Event)
    requires Agrees(w) && Possible(w, e)
    ensures var r := React(me, w, e);
            && (!r.state.status.Idle? ==>
                  (!w.status.Idle? && r.state.status.job == w.status.job) ||
                  (e.Receive? && e.msg == JobAvailable(r.state.status.job)))
            && (r.state.status.Proving? || r.state.status.Submitting? ==>
                  ((w.status.Proving? || w.status.Submitting?) && r.state.status.job == w.status.job) ||
                  (e.Receive? && e.msg == ClaimAccepted(r.state.status.job.id, me)))
            && (forall m :: m in r.sent ==> m.ClaimJob? || m.JobCompleted?)
  {
    if !e.Receive? {
      SoleTask(w, e.task);
    }
  }

  function ReactAll(me: PeerId, w: State, es: seq<Event>): State {
    if es == [] then w else React(me, ReactAll(me, w, es[..|es| - 1]), es[|es| - 1]).state
  }

  ghost predicate AllPossible(me: PeerId, w: State, es: seq<Event>) {
    es != [] ==> AllPossible(me, w, es[..|es| - 1]) && Possible(ReactAll(me, w, es[..|es| - 1]), es[|es| - 1])
  }

  /** Over every interleaving of messages with the spawned tasks, status and tasks agree, and a
      worker never runs two tasks. */
  lemma {:induction false} StatusAndTaskAgree(me: PeerId, es: seq<Event>)
    requires AllPossible(me, INITIAL, es)
    ensures var w := ReactAll(me, INITIAL, es);
            && Agrees(w)
            && |w.tasks| == (if w.status.Proving? || w.status.Submitting? then 1 else 0)
            && (forall job :: w.status == Status.Proving(job) <==> w.tasks == multiset{Task(AtProving, job)})
            && (forall job :: w.status == Submitting(job) <==>
                  w.tasks == multiset{Task(AtSubmitting, job)} || w.tasks == multiset{Task(AtClosing, job)})
  {
    if es == [] {
    } else {
      StatusAndTaskAgree(me, es[..|es| - 1]);
      ReactKeepsAgreement(me, ReactAll(me, INITIAL, es[..|es| - 1]), es[|es| - 1]);
    }
    AgreementReadBack(ReactAll(me, INITIAL, es));
  }

  lemma AgreementReadBack(w: State)
    requires Agrees(w)
    ensures |w.tasks| == (if w.status.Proving? || w.status.Submitting? then 1 else 0)
    ensures forall job :: w.status == Status.Proving(job) <==> w.tasks == multiset{Task(AtProving, job)}
    ensures forall job :: w.status == Submitting(job) <==>
              w.tasks == multiset{Task(AtSubmitting, job)} || w.tasks == multiset{Task(AtClosing, job)}
  {
    forall stage, job | w.tasks == multiset{Task(stage, job)}
      ensures w.status.Proving? || w.status.Submitting?
      ensures w.status.job == job && (stage == AtProving <==> w.status.Proving?)
    {
      assert Task(stage, job) in w.tasks;
    }
  }

  // ----- the worker ---------------------------------------------------------------------------

  class Worker {
    const peerId: PeerId
    var status: Status
    var tasks: multiset<Task>
    var broadcasts: seq<GossipMessage>

    function Current(): State
      reads this
    {
      State(status, tasks)
    }

    constructor (peerId: PeerId)
      ensures this.peerId == peerId && Current() == INITIAL && broadcasts == []
    {
      this.peerId := peerId;
      status, tasks, broadcasts := Idle, multiset{}, [];
    }

    method HandleMessage(msg: GossipMessage, now: nat)
      modifies this
      ensures Reaction(Current(), broadcasts) ==
              (var r := OnMessage(peerId, old(Current()), msg, now); r.(sent := old(broadcasts) + r.sent))
      ensures var offered := old(status).Idle? && msg.JobAvailable? && msg.job.deadline > now;
              var answered :=
                old(status).Claiming? && (msg.ClaimAccepted? || msg.ClaimRejected?) && msg.jobId == old(status).job.id;
              var won := answered && msg.ClaimAccepted? && msg.workerId == peerId;
              && status == (if offered then Claiming(msg.job)
                            else if won then Status.Proving(old(status).job)
                            else if answered then Idle
                            else old(status))
              && tasks == old(tasks) + (if won then multiset{Task(AtProving, old(status).job)} else multiset{})
              && broadcasts == old(broadcasts) + if offered then [ClaimJob(msg.job.id, peerId)] else []
    {
      match msg
      case JobAvailable(job) => HandleJobAvailable(job, now);
      case ClaimAccepted(id, workerId) => HandleClaimAccepted(id, workerId);
      case ClaimRejected(id, reason) => HandleClaimRejected(id, reason);
      case _ =>
    }

    method HandleJobAvailable(job: Job, now: nat)
      modifies this
      ensures Reaction(Current(), broadcasts) ==
              (var r := OnMessage(peerId, old(Current()), JobAvailable(job), now); r.(sent := old(broadcasts) + r.sent))
      ensures var claims := old(status).Idle? && job.deadline > now;
              && status == (if claims then Claiming(job) else old(status)) && tasks == old(tasks)
              && broadcasts == old(broadcasts) + if claims then [ClaimJob(job.id, peerId)] else []
    {
      if !status.Idle? { return; }
      if job.deadline <= now { return; }
      status := Claiming(job);
      broadcasts := broadcasts + [ClaimJob(job.id, peerId)];
    }

    method HandleClaimAccepted(id: JobId, workerId: PeerId)
      modifies this
      ensures Reaction(Current(), broadcasts) == Reaction(
                OnMessage(peerId, old(Current()), ClaimAccepted(id, workerId), 0).state, old(broadcasts))
      ensures old(status).Claiming? && old(status).job.id == id && workerId == peerId ==>
                && status == Status.Proving(old(status).job)
                && tasks == old(tasks) + multiset{Task(AtProving, old(status).job)}
      ensures old(status).Claiming? && old(status).job.id == id && workerId != peerId ==>
                status == Idle && tasks == old(tasks)
      ensures !(old(status).Claiming? && old(status).job.id == id) ==> status == old(status) && tasks == old(tasks)
    {
      var claimingMatch := status.Claiming? && status.job.id == id;
      if !claimingMatch { return; }
      if workerId == peerId {
        var held := status;
        status := Idle;
        if held.Claiming? {
          status := Status.Proving(held.job);
          tasks := tasks + multiset{Task(AtProving, held.job)};
        }
      } else {
        status := Idle;
      }
    }

    method HandleClaimRejected(id: JobId, reason: string)
      modifies this
      ensures Reaction(Current(), broadcasts) == Reaction(
                OnMessage(peerId, old(Current()), ClaimRejected(id, reason), 0).state, old(broadcasts))
      ensures status == (if old(status).Claiming? && old(status).job.id == id then Idle else old(status))
      ensures tasks == old(tasks) && broadcasts == old(broadcasts)
    {
      if status.Claiming? && status.job.id == id {
        status := Idle;
      }
    }

    /** The part of run_proving that follows the prover's answer. */
    method FinishProving(task: Task, ok: bool)
      requires Possible(Current(), Proved(task, ok))
      modifies this
      ensures Current() == OnProved(old(Current()), task, ok) && broadcasts == old(broadcasts)
      ensures var expected := old(status).Proving? && old(status).job.id == task.job.id;
              && status == (if !expected then old(status) else if ok then Submitting(task.job) else Idle)
              && tasks == old(tasks) - multiset{task} +
                          if expected && ok then multiset{Task(AtSubmitting, task.job)} else multiset{}
    {
      tasks := tasks - multiset{task};
      if !ok {
        if status.Proving? && status.job.id == task.job.id {
          status := Idle;
        }
        return;
      }
      if status.Proving? && status.job.id == task.job.id {
        status := Submitting(task.job);
        tasks := tasks + multiset{Task(AtSubmitting, task.job)};
      }
    }

    /** submit_proof_onchain, up to its last step. */
    method FinishSubmitting(task: Task, submission: Submission)
      requires Possible(Current(), Submitted(task, submission))
      modifies this
      ensures Reaction(Current(), broadcasts) ==
              (var r := OnSubmitted(old(Current()), task, submission); r.(sent := old(broadcasts) + r.sent))
      ensures status == old(status) && tasks == old(tasks) - multiset{task} + multiset{Task(AtClosing, task.job)}
      ensures broadcasts == old(broadcasts) +
                            if submission.Accepted? then [JobCompleted(task.job.id, submission.txHash)] else []
    {
      tasks := tasks - multiset{task} + multiset{Task(AtClosing, task.job)};
      if submission.Accepted? {
        broadcasts := broadcasts + [JobCompleted(task.job.id, submission.txHash)];
      }
    }

    method TransitionToIdle(task: Task)
      requires Possible(Current(), Close(task))
      modifies this
      ensures Current() == OnClose(old(Current()), task) && broadcasts == old(broadcasts)
      ensures var expected := (old(status).Submitting? || old(status).Proving?) && old(status).job.id == task.job.id;
              status == (if expected then Idle else old(status)) && tasks == old(tasks) - multiset{task}
    {
      tasks := tasks - multiset{task};
      match status
      case Submitting(job) =>
        if job.id == task.job.id { status := Idle; }
      case Proving(job) =>
        if job.id == task.job.id { status := Idle; }
      case _ =>
    }
  }
}
