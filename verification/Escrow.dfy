/** The escrow contract (contracts/src/JobRegistry.sol). Calls are finite trees: a callee that
    receives ether may call back into the registry to any depth, and a frame that reverts takes
    its state, its ether and its events with it. */
module Escrow {
  import opened Core
  import opened Guest

  // ----- state --------------------------------------------------------------------------------

  datatype Record = Record(owner: Address, payload: Bytes, reward: nat, deadline: nat)

  datatype Event =
    | JobSubmitted(id: JobId, owner: Address, reward: nat, deadline: nat)
    | JobCompleted(id: JobId, worker: Address, result: Bytes)
    | JobExpired(id: JobId)
  {
    predicate Settles(j: JobId) {
      !JobSubmitted? && id == j
    }
  }

  datatype Proof = Proof(journal: Bytes, seal: Bytes)

  /** One outgoing transfer: `proof` is what it was paid for, or None for a refund. */
  datatype Payout = Payout(id: JobId, to: Address, amount: nat, at: nat, proof: Option<Proof>)

  /** `jobs` holds the records whose `exists` flag is set. `paid` and `donated` record the
      transfers out of the registry and the ether it received outside of submitJob. */
  datatype State = State(
    jobs: map<JobId, Record>,
    completed: set<JobId>,
    balance: nat,
    log: seq<Event>,
    paid: seq<Payout>,
    donated: nat)

  const GENESIS := State(map[], {}, 0, [], [], 0)

  /** What the registry was deployed with: the proof verifier, which reverts or passes, and the
      image it verifies against. */
  datatype Env = Env(sha256: Hash, verify: (Bytes, Bytes32, Bytes32) -> bool, imageId: Bytes32)

  datatype Error =
    | JobAlreadyExists | InsufficientReward | DeadlinePassed | JobNotFound | JobAlreadyCompleted
    | JobNotExpired | BadJournal(why: JournalError) | VerifierReverted | TransferFailed
    | FrameReverted

  /** A call into the registry. `Donate` is ether that arrives without any function being called;
      `Foreign` is a frame of some other contract, which makes calls and then returns or reverts. */
  datatype Call =
    | SubmitJob(sender: Address, value: nat, id: JobId, payload: Bytes, deadline: nat)
    | SubmitProof(sender: Address, id: JobId, journal: Bytes, seal: Bytes, reply: Reply)
    | ExpireJob(id: JobId, reply: Reply)
    | Donate(value: nat)
    | Foreign(reply: Reply)
  {
    predicate Settling() {
      SubmitProof? || ExpireJob?
    }

    predicate CallsOut() {
      Settling() || Foreign?
    }
  }

  /** What a callee does with control: the calls it makes, in order, and whether it returns. */
  datatype Reply = Reply(calls: seq<Call>, accept: bool)

  datatype Verdict = Success | Revert(error: Error)

  datatype Outcome = Outcome(state: State, verdict: Verdict)

  // ----- meaning of a call --------------------------------------------------------------------

  function CheckSubmit(now: nat, s: State, id: JobId, value: nat, deadline: nat): Option<Error> {
    if id in s.jobs then Some(JobAlreadyExists)
    else if value == 0 then Some(InsufficientReward)
    else if deadline <= now then Some(DeadlinePassed)
    else None
  }

  function CheckProof(env: Env, now: nat, s: State, id: JobId, journal: Bytes, seal: Bytes): Option<Error> {
    if id !in s.jobs then Some(JobNotFound)
    else if id in s.completed then Some(JobAlreadyCompleted)
    else if now > s.jobs[id].deadline then Some(DeadlinePassed)
    else match CheckJournal(env.sha256, journal, id, s.jobs[id].payload)
      case Some(why) => Some(BadJournal(why))
      case None =>
        if env.verify(seal, env.imageId, env.sha256(journal)) then None else Some(VerifierReverted)
  }

  function CheckExpire(now: nat, s: State, id: JobId): Option<Error> {
    if id !in s.jobs then Some(JobNotFound)
    else if id in s.completed then Some(JobAlreadyCompleted)
    else if now <= s.jobs[id].deadline then Some(JobNotExpired)
    else None
  }

  function Check(env: Env, now: nat, c: Call, s: State): Option<Error> {
    match c
    case SubmitJob(_, value, id, _, deadline) => CheckSubmit(now, s, id, value, deadline)
    case SubmitProof(_, id, journal, seal, _) => CheckProof(env, now, s, id, journal, seal)
    case ExpireJob(id, _) => CheckExpire(now, s, id)
    case Donate(_) => None
    case Foreign(_) => None
  }

  /** The transfer a settling call makes. */
  function PayoutOf(now: nat, c: Call, s: State): Payout
    requires c.Settling() && c.id in s.jobs
  {
    var job := s.jobs[c.id];
    match c
    case SubmitProof(sender, id, journal, seal, _) => Payout(id, sender, job.reward, now, Some(Proof(journal, seal)))
    case ExpireJob(id, _) => Payout(id, job.owner, job.reward, now, None)
  }

  /** The job of payout p is marked and its reward sent. */
  function Paying(s: State, p: Payout): State
    requires s.balance >= p.amount
  {
    s.(completed := s.completed + {p.id}, balance := s.balance - p.amount, paid := s.paid + [p])
  }

  /** A frame up to the point where it hands control to its callee. */
  function Begin(env: Env, now: nat, c: Call, s: State): Result<State, Error> {
    match Check(env, now, c, s)
    case Some(e) => Err(e)
    case None =>
      match c
      case SubmitJob(sender, value, id, payload, deadline) =>
        Ok(s.(jobs := s.jobs[id := Record(sender, payload, value, deadline)],
              balance := s.balance + value,
              log := s.log + [JobSubmitted(id, sender, value, deadline)]))
      case Donate(value) => Ok(s.(balance := s.balance + value, donated := s.donated + value))
      case Foreign(_) => Ok(s)
      case _ =>
        var p := PayoutOf(now, c, s);
        if s.balance < p.amount then Err(TransferFailed) else Ok(Paying(s, p))
  }

  /** What a frame does after its callee returned: it emits its settlement event. */
  function Finish(c: Call, s: State): State
    requires c.SubmitProof? ==> |c.journal| >= 64
  {
    match c
    case SubmitProof(sender, id, journal, _, _) => s.(log := s.log + [Event.JobCompleted(id, sender, journal[64..])])
    case ExpireJob(id, _) => s.(log := s.log + [JobExpired(id)])
    case _ => s
  }

  /** A whole frame. If it reverts it leaves no trace, and it does revert when its callee rejects. */
  function Exec(env: Env, now: nat, c: Call, s: State): (o: Outcome)
    ensures o.verdict.Revert? ==> o.state == s
    ensures c.CallsOut() && !c.reply.accept ==> o.verdict.Revert?
    decreases c, 1
  {
    match Begin(env, now, c, s)
    case Err(e) => Outcome(s, Revert(e))
    case Ok(begun) =>
      if !c.CallsOut() then
        Outcome(begun, Success)
      else
        var returned := ExecAll(env, now, c.reply.calls, begun);
        if c.reply.accept then
          Outcome(Finish(c, returned), Success)
        else
          Outcome(s, Revert(if c.Foreign? then FrameReverted else TransferFailed))
  }

  function ExecAll(env: Env, now: nat, calls: seq<Call>, s: State): State
    decreases calls, 0
  {
    if calls == [] then s else ExecAll(env, now, calls[1..], Exec(env, now, calls[0], s).state)
  }

  // ----- sums and counts ----------------------------------------------------------------------

  ghost function SumRewards(jobs: map<JobId, Record>, ids: set<JobId>): nat
    requires ids <= jobs.Keys
  {
    if ids == {} then 0 else var id :| id in ids; jobs[id].reward + SumRewards(jobs, ids - {id})
  }

  /** The sum may be taken in any order. */
  lemma {:induction false} SumSplit(jobs: map<JobId, Record>, ids: set<JobId>, id: JobId)
    requires ids <= jobs.Keys && id in ids
    ensures SumRewards(jobs, ids) == jobs[id].reward + SumRewards(jobs, ids - {id})
  {
    var k :| k in ids && SumRewards(jobs, ids) == jobs[k].reward + SumRewards(jobs, ids - {k});
    if k == id {
    } else {
      SumSplit(jobs, ids - {k}, id);
      SumSplit(jobs, ids - {id}, k);
      assert ids - {k} - {id} == ids - {id} - {k};
    }
  }

  lemma {:induction false} SumAgrees(jobs: map<JobId, Record>, more: map<JobId, Record>, ids: set<JobId>)
    requires ids <= jobs.Keys && ids <= more.Keys && forall id :: id in ids ==> jobs[id] == more[id]
    ensures SumRewards(jobs, ids) == SumRewards(more, ids)
  {
    if ids == {} {
    } else {
      var id :| id in ids;
      SumSplit(jobs, ids, id);
      SumSplit(more, ids, id);
      SumAgrees(jobs, more, ids - {id});
    }
  }

  function Settlements(log: seq<Event>, j: JobId): nat {
    if log == [] then 0 else Settlements(log[..|log| - 1], j) + if log[|log| - 1].Settles(j) then 1 else 0
  }

  function Payments(paid: seq<Payout>, j: JobId): nat {
    if paid == [] then 0 else Payments(paid[..|paid| - 1], j) + if paid[|paid| - 1].id == j then 1 else 0
  }

  // ----- the invariant ------------------------------------------------------------------------

  /** The registry holds exactly the rewards of the jobs that are not settled, and donations. */
  ghost predicate Solvent(s: State) {
    s.completed <= s.jobs.Keys &&
    s.balance == SumRewards(s.jobs, s.jobs.Keys - s.completed) + s.donated
  }

  /** A payout is the job's locked reward, either against a verified proof of its payload no later
      than the deadline, or to its owner after the deadline. */
  predicate RightlyPaid(env: Env, jobs: map<JobId, Record>, p: Payout) {
    p.id in jobs && p.amount == jobs[p.id].reward &&
    match p.proof
    case Some(proof) =>
      p.at <= jobs[p.id].deadline &&
      CheckJournal(env.sha256, proof.journal, p.id, jobs[p.id].payload) == None &&
      env.verify(proof.seal, env.imageId, env.sha256(proof.journal))
    case None => p.at > jobs[p.id].deadline && p.to == jobs[p.id].owner
  }

  /** Event e reports payout p. */
  predicate Reports(e: Event, p: Payout) {
    match e
    case JobSubmitted(_, _, _, _) => false
    case JobCompleted(id, worker, result) =>
      p.id == id && p.to == worker && p.proof.Some? && |p.proof.value.journal| >= 64 &&
      p.proof.value.journal[64..] == result
    case JobExpired(id) => p.id == id && p.proof.None?
  }

  /** One payout for each settled job, and one event, except for the jobs in `open`. */
  ghost predicate Counted(s: State, open: set<JobId>) {
    && open <= s.completed
    && (forall j: JobId :: Settlements(s.log, j) == if j in s.completed && j !in open then 1 else 0)
    && (forall j: JobId :: Payments(s.paid, j) == if j in s.completed then 1 else 0)
  }

  ghost predicate AllReported(log: seq<Event>, paid: seq<Payout>) {
    forall e :: e in log && !e.JobSubmitted? ==> exists p :: p in paid && Reports(e, p)
  }

  /** `open` are the jobs whose settling frame has paid but not yet returned. */
  ghost predicate Inv(env: Env, s: State, open: set<JobId>) {
    && Solvent(s)
    && Counted(s, open)
    && (forall p :: p in s.paid ==> RightlyPaid(env, s.jobs, p))
    && AllReported(s.log, s.paid)
  }

  /** Nothing recorded is ever changed or taken back. */
  ghost predicate Extends(s: State, t: State) {
    && s.jobs.Keys <= t.jobs.Keys
    && (forall j :: j in s.jobs ==> t.jobs[j] == s.jobs[j])
    && s.completed <= t.completed
    && s.log <= t.log
    && s.paid <= t.paid
    && s.donated <= t.donated
  }

  lemma ExtendsTransitive(s: State, t: State, u: State)
    requires Extends(s, t) && Extends(t, u)
    ensures Extends(s, u)
  {
  }

  function Opened(c: Call): set<JobId> {
    if c.Settling() then {c.id} else {}
  }

  lemma BeginSolvent(env: Env, now: nat, c: Call, s: State)
    requires Solvent(s) && Begin(env, now, c, s).Ok?
    ensures Solvent(Begin(env, now, c, s).value)
  {
    var t := Begin(env, now, c, s).value;
    var unsettled := t.jobs.Keys - t.completed;
    if c.Settling() {
      SumSplit(s.jobs, s.jobs.Keys - s.completed, c.id);
      assert s.jobs.Keys - s.completed - {c.id} == unsettled;
    } else if c.SubmitJob? {
      SumSplit(t.jobs, unsettled, c.id);
      assert unsettled - {c.id} == s.jobs.Keys - s.completed;
      SumAgrees(s.jobs, t.jobs, unsettled - {c.id});
    }
  }

  lemma CountLast(log: seq<Event>, e: Event, paid: seq<Payout>, p: Payout, j: JobId)
    ensures Settlements(log + [e], j) == Settlements(log, j) + if e.Settles(j) then 1 else 0
    ensures Payments(paid + [p], j) == Payments(paid, j) + if p.id == j then 1 else 0
  {
    assert (log + [e])[..|log|] == log;
    assert (paid + [p])[..|paid|] == paid;
  }

  lemma CountedAfterPaying(s: State, t: State, open: set<JobId>, p: Payout)
    requires Counted(s, open) && p.id !in s.completed
    requires t.completed == s.completed + {p.id} && t.paid == s.paid + [p] && t.log == s.log
    ensures Counted(t, open + {p.id})
  {
    forall j: JobId ensures Payments(t.paid, j) == if j in t.completed then 1 else 0 {
      CountLast([], JobExpired(j), s.paid, p, j);
    }
  }

  lemma CountedAfterEvent(s: State, t: State, open: set<JobId>, more: set<JobId>, e: Event)
    requires Counted(s, more) && open <= more && t == s.(log := s.log + [e])
    requires forall j: JobId :: e.Settles(j) <==> j in more && j !in open
    ensures Counted(t, open)
  {
    forall j: JobId ensures Settlements(t.log, j) == if j in t.completed && j !in open then 1 else 0 {
      CountLast(s.log, e, [], Payout(j, seq(20, i => 0), 0, 0, None), j);
    }
  }

  /** What a settling frame does before its callee runs. */
  lemma BegunPaying(env: Env, now: nat, c: Call, s: State)
    requires c.Settling() && Begin(env, now, c, s).Ok?
    ensures c.id in s.jobs && c.id !in s.completed
    ensures var p, t := PayoutOf(now, c, s), Begin(env, now, c, s).value;
            && p.id == c.id && RightlyPaid(env, s.jobs, p)
            && t.jobs == s.jobs && t.completed == s.completed + {p.id} && t.paid == s.paid + [p] && t.log == s.log
  {
  }

  lemma ReportedStill(log: seq<Event>, paid: seq<Payout>, more: seq<Payout>)
    requires AllReported(log, paid) && paid <= more
    ensures AllReported(log, more)
  {
    forall e | e in log && !e.JobSubmitted? ensures exists p :: p in more && Reports(e, p) {
      var p :| p in paid && Reports(e, p);
      assert p in more;
    }
  }

  lemma PayingKeeps(env: Env, now: nat, c: Call, s: State, open: set<JobId>)
    requires c.Settling() && Inv(env, s, open) && Begin(env, now, c, s).Ok?
    ensures Inv(env, Begin(env, now, c, s).value, open + {c.id})
  {
    BeginSolvent(env, now, c, s);
    BegunPaying(env, now, c, s);
    var t := Begin(env, now, c, s).value;
    CountedAfterPaying(s, t, open, PayoutOf(now, c, s));
    ReportedStill(s.log, s.paid, t.paid);
  }

  lemma LockingKeeps(env: Env, now: nat, c: Call, s: State, open: set<JobId>)
    requires c.SubmitJob? && Inv(env, s, open) && Begin(env, now, c, s).Ok?
    ensures Inv(env, Begin(env, now, c, s).value, open)
  {
    BeginSolvent(env, now, c, s);
    var t := Begin(env, now, c, s).value;
    var e := JobSubmitted(c.id, c.sender, c.value, c.deadline);
    assert t.log == s.log + [e];
    CountedAfterEvent(s, s.(log := t.log), open, open, e);
    assert forall p :: p in s.paid ==> t.jobs[p.id] == s.jobs[p.id];
  }

  lemma BeginKeeps(env: Env, now: nat, c: Call, s: State, open: set<JobId>)
    requires Inv(env, s, open) && Begin(env, now, c, s).Ok?
    ensures Inv(env, Begin(env, now, c, s).value, open + Opened(c))
    ensures Extends(s, Begin(env, now, c, s).value)
    ensures Opened(c) !! s.completed
  {
    if c.Settling() {
      PayingKeeps(env, now, c, s, open);
    } else {
      assert open + Opened(c) == open;
      if c.SubmitJob? {
        LockingKeeps(env, now, c, s, open);
      }
    }
  }

  /** What a settling frame does after its callee has returned. */
  lemma FinishedPaying(env: Env, now: nat, c: Call, s: State, begun: State, returned: State) returns (e: Event)
    requires Begin(env, now, c, s) == Ok(begun) && Extends(begun, returned) && c.Settling()
    ensures Finish(c, returned) == returned.(log := returned.log + [e])
    ensures !e.JobSubmitted? && e.id == c.id
    ensures PayoutOf(now, c, s) in returned.paid && Reports(e, PayoutOf(now, c, s))
  {
    BegunPaying(env, now, c, s);
    e := if c.SubmitProof? then Event.JobCompleted(c.id, c.sender, c.journal[64..]) else JobExpired(c.id);
    assert begun.paid[|s.paid|] == PayoutOf(now, c, s);
  }

  lemma FinishKeeps(env: Env, now: nat, c: Call, s: State, begun: State, returned: State, open: set<JobId>)
    requires Begin(env, now, c, s) == Ok(begun) && Opened(c) !! open
    requires Inv(env, returned, open + Opened(c)) && Extends(begun, returned)
    ensures Inv(env, Finish(c, returned), open)
    ensures Extends(returned, Finish(c, returned))
  {
    if c.Settling() {
      var e := FinishedPaying(env, now, c, s, begun, returned);
      CountedAfterEvent(returned, Finish(c, returned), open, open + Opened(c), e);
    } else {
      assert open + Opened(c) == open;
    }
  }

  /** Whether the callee accepts or rejects, the invariant is as it was before the frame. */
  lemma ReturnKeeps(env: Env, now: nat, c: Call, s: State, begun: State, returned: State, open: set<JobId>)
    requires Inv(env, s, open) && c.CallsOut()
    requires Begin(env, now, c, s) == Ok(begun) && returned == ExecAll(env, now, c.reply.calls, begun)
    requires Opened(c) !! open && Extends(s, begun) && Extends(begun, returned)
    requires Inv(env, returned, open + Opened(c))
    ensures Inv(env, Exec(env, now, c, s).state, open)
    ensures Extends(s, Exec(env, now, c, s).state)
  {
    var o := Exec(env, now, c, s);
    if c.reply.accept {
      FinishKeeps(env, now, c, s, begun, returned, open);
      assert o.state == Finish(c, returned);
      ExtendsTransitive(s, begun, returned);
      ExtendsTransitive(s, returned, o.state);
    } else {
      assert o.state == s;
    }
  }

  /** Every call, however its callees re-enter the registry, keeps the invariant. */
  lemma {:induction false} ExecKeeps(env: Env, now: nat, c: Call, s: State, open: set<JobId>)
    requires Inv(env, s, open)
    ensures Inv(env, Exec(env, now, c, s).state, open)
    ensures Extends(s, Exec(env, now, c, s).state)
    decreases c, 1
  {
    match Begin(env, now, c, s)
    case Err(_) =>
    case Ok(begun) =>
      BeginKeeps(env, now, c, s, open);
      if c.CallsOut() {
        ExecAllKeeps(env, now, c.reply.calls, begun, open + Opened(c));
        ReturnKeeps(env, now, c, s, begun, ExecAll(env, now, c.reply.calls, begun), open);
      } else {
        assert open + Opened(c) == open;
        assert Exec(env, now, c, s).state == begun;
      }
  }

  lemma {:induction false} ExecAllKeeps(env: Env, now: nat, calls: seq<Call>, s: State, open: set<JobId>)
    requires Inv(env, s, open)
    ensures Inv(env, ExecAll(env, now, calls, s), open)
    ensures Extends(s, ExecAll(env, now, calls, s))
    decreases calls, 0
  {
    if calls == [] {
    } else {
      ExecKeeps(env, now, calls[0], s, open);
      ExecAllKeeps(env, now, calls[1..], Exec(env, now, calls[0], s).state, open);
    }
  }

  // ----- every boundary -----------------------------------------------------------------------

  /** What holds whenever control passes between the registry and the outside. */
  ghost predicate Safe(env: Env, s: State) {
    && Solvent(s)
    && (forall j: JobId :: Payments(s.paid, j) <= 1 && Settlements(s.log, j) <= 1)
    && (forall p :: p in s.paid ==> RightlyPaid(env, s.jobs, p))
  }

  /** Safety at every call boundary inside c, including those of frames that are later rolled
      back, and enough ether for every settlement that passes its checks. */
  ghost predicate SafeThroughout(env: Env, now: nat, c: Call, s: State)
    decreases c, 1
  {
    && Safe(env, s)
    && Safe(env, Exec(env, now, c, s).state)
    && (c.Settling() && Check(env, now, c, s) == None ==> s.balance >= s.jobs[c.id].reward)
    && (c.CallsOut() && Begin(env, now, c, s).Ok? ==>
          SafeThroughoutAll(env, now, c.reply.calls, Begin(env, now, c, s).value))
  }

  ghost predicate SafeThroughoutAll(env: Env, now: nat, calls: seq<Call>, s: State)
    decreases calls, 0
  {
    && Safe(env, s)
    && (calls != [] ==>
          && SafeThroughout(env, now, calls[0], s)
          && SafeThroughoutAll(env, now, calls[1..], Exec(env, now, calls[0], s).state))
  }

  lemma PayoutFunded(env: Env, now: nat, c: Call, s: State)
    requires Solvent(s) && c.Settling() && Check(env, now, c, s) == None
    ensures s.balance >= s.jobs[c.id].reward
  {
    SumSplit(s.jobs, s.jobs.Keys - s.completed, c.id);
  }

  lemma InvIsSafe(env: Env, s: State, open: set<JobId>)
    requires Inv(env, s, open)
    ensures Safe(env, s)
  {
  }

  lemma {:induction false} ReentrancySafe(env: Env, now: nat, c: Call, s: State, open: set<JobId>)
    requires Inv(env, s, open)
    ensures SafeThroughout(env, now, c, s)
    decreases c, 1
  {
    assert Safe(env, s) && Safe(env, Exec(env, now, c, s).state) by {
      ExecKeeps(env, now, c, s, open);
      InvIsSafe(env, s, open);
      InvIsSafe(env, Exec(env, now, c, s).state, open);
    }
    if c.Settling() && Check(env, now, c, s) == None {
      PayoutFunded(env, now, c, s);
    }
    if c.CallsOut() && Begin(env, now, c, s).Ok? {
      BeginKeeps(env, now, c, s, open);
      ReentrancySafeAll(env, now, c.reply.calls, Begin(env, now, c, s).value, open + Opened(c));
    }
  }

  lemma {:induction false} ReentrancySafeAll(env: Env, now: nat, calls: seq<Call>, s: State, open: set<JobId>)
    requires Inv(env, s, open)
    ensures SafeThroughoutAll(env, now, calls, s)
    decreases calls, 0
  {
    if calls == [] {
    } else {
      ReentrancySafe(env, now, calls[0], s, open);
      ExecKeeps(env, now, calls[0], s, open);
      ReentrancySafeAll(env, now, calls[1..], Exec(env, now, calls[0], s).state, open);
    }
  }

  // ----- single calls, in full ------------------------------------------------------------------

  /** A call that passes its checks fails only if its callee does; in particular no payout fails
      for lack of funds. */
  lemma VerdictOf(env: Env, now: nat, c: Call, s: State, open: set<JobId>)
    requires Inv(env, s, open)
    ensures Exec(env, now, c, s).verdict.Success? <==>
            Check(env, now, c, s) == None && (c.CallsOut() ==> c.reply.accept)
    ensures c.Settling() ==>
            (Exec(env, now, c, s).verdict == Revert(TransferFailed) <==>
             Check(env, now, c, s) == None && !c.reply.accept)
    ensures c.Donate? || c.Foreign? ==> Check(env, now, c, s) == None
  {
    if c.Settling() && Check(env, now, c, s) == None {
      PayoutFunded(env, now, c, s);
    }
  }

  /** A settling call that succeeds pays once, at whatever depth it is made and whatever its callee does. */
  lemma SettlingPays(env: Env, now: nat, c: Call, s: State, open: set<JobId>)
    requires Inv(env, s, open) && c.Settling() && Exec(env, now, c, s).verdict.Success?
    ensures c.id in s.jobs && c.id !in s.completed
    ensures var t := Exec(env, now, c, s).state;
            PayoutOf(now, c, s) in t.paid && Payments(t.paid, c.id) == 1 && Settlements(t.log, c.id) == 1
  {
    BegunPaying(env, now, c, s);
    var begun := Begin(env, now, c, s).value;
    BeginKeeps(env, now, c, s, open);
    ExecAllKeeps(env, now, c.reply.calls, begun, open + Opened(c));
    var returned := ExecAll(env, now, c.reply.calls, begun);
    assert begun.paid[|s.paid|] in returned.paid;
    ExecKeeps(env, now, c, s, open);
    assert c.id in returned.completed && c.id !in open;
  }

  /** When submitProof is accepted, and that its sender then gets the whole reward, once, and the
      event shows sender and result. */
  lemma AcceptedProofPays(env: Env, now: nat, c: Call, s: State, open: set<JobId>)
    requires Inv(env, s, open) && c.SubmitProof?
    ensures Exec(env, now, c, s).verdict.Success? <==>
            && c.id in s.jobs && c.id !in s.completed && now <= s.jobs[c.id].deadline
            && |c.journal| >= 64 && c.journal[..32] == c.id
            && c.journal[32..64] == env.sha256(s.jobs[c.id].payload)
            && env.verify(c.seal, env.imageId, env.sha256(c.journal)) && c.reply.accept
    ensures var t := Exec(env, now, c, s).state;
            Exec(env, now, c, s).verdict.Success? ==>
              && Payout(c.id, c.sender, s.jobs[c.id].reward, now, Some(Proof(c.journal, c.seal))) in t.paid
              && Payments(t.paid, c.id) == 1 && Settlements(t.log, c.id) == 1
              && t.log != [] && t.log[|t.log| - 1] == Event.JobCompleted(c.id, c.sender, c.journal[64..])
  {
    VerdictOf(env, now, c, s, open);
    if Exec(env, now, c, s).verdict.Success? {
      SettlingPays(env, now, c, s, open);
    }
  }

  /** When expireJob is accepted: any recorded, unsettled job, from the first second after its
      deadline, whoever asks. Its owner then gets the whole reward back, once. */
  lemma ExpiryRefunds(env: Env, now: nat, c: Call, s: State, open: set<JobId>)
    requires Inv(env, s, open) && c.ExpireJob?
    ensures Exec(env, now, c, s).verdict.Success? <==>
            c.id in s.jobs && c.id !in s.completed && now > s.jobs[c.id].deadline && c.reply.accept
    ensures var t := Exec(env, now, c, s).state;
            Exec(env, now, c, s).verdict.Success? ==>
              && Payout(c.id, s.jobs[c.id].owner, s.jobs[c.id].reward, now, None) in t.paid
              && Payments(t.paid, c.id) == 1 && Settlements(t.log, c.id) == 1
              && t.log != [] && t.log[|t.log| - 1] == JobExpired(c.id)
  {
    VerdictOf(env, now, c, s, open);
    if Exec(env, now, c, s).verdict.Success? {
      SettlingPays(env, now, c, s, open);
    }
  }

  // ----- what took effect -----------------------------------------------------------------------

  /** A call that took effect, and when. */
  datatype Effect = Effect(now: nat, call: Call)

  /** The frames of a call tree that took effect, in the order in which they returned: none of a frame
      that reverted, nor of any frame inside it. */
  function Effects(env: Env, now: nat, c: Call, s: State): seq<Effect>
    decreases c, 1
  {
    if Exec(env, now, c, s).verdict.Revert? then []
    else if !c.CallsOut() then [Effect(now, c)]
    else EffectsOfAll(env, now, c.reply.calls, Begin(env, now, c, s).value) + [Effect(now, c)]
  }

  function EffectsOfAll(env: Env, now: nat, calls: seq<Call>, s: State): seq<Effect>
    decreases calls, 0
  {
    if calls == [] then []
    else Effects(env, now, calls[0], s) + EffectsOfAll(env, now, calls[1..], Exec(env, now, calls[0], s).state)
  }

  /** The call's guards hold and its payout is covered. */
  predicate Due(env: Env, e: Effect, s: State) {
    match e.call
    case SubmitJob(_, value, id, _, deadline) => id !in s.jobs && value > 0 && deadline > e.now
    case SubmitProof(_, id, journal, seal, _) =>
      && id in s.jobs && id !in s.completed && s.balance >= s.jobs[id].reward && e.now <= s.jobs[id].deadline
      && |journal| >= 64 && journal[..32] == id && journal[32..64] == env.sha256(s.jobs[id].payload)
      && env.verify(seal, env.imageId, env.sha256(journal))
    case ExpireJob(id, _) =>
      id in s.jobs && id !in s.completed && s.balance >= s.jobs[id].reward && e.now > s.jobs[id].deadline
    case _ => true
  }

  /** What the call does to a registry nobody calls meanwhile. */
  function Applied(env: Env, e: Effect, s: State): State
    requires Due(env, e, s)
  {
    match e.call
    case SubmitJob(sender, value, id, payload, deadline) =>
      s.(jobs := s.jobs[id := Record(sender, payload, value, deadline)], balance := s.balance + value,
         log := s.log + [JobSubmitted(id, sender, value, deadline)])
    case SubmitProof(sender, id, journal, seal, _) =>
      Paying(s, Payout(id, sender, s.jobs[id].reward, e.now, Some(Proof(journal, seal))))
      .(log := s.log + [Event.JobCompleted(id, sender, journal[64..])])
    case ExpireJob(id, _) =>
      Paying(s, Payout(id, s.jobs[id].owner, s.jobs[id].reward, e.now, None)).(log := s.log + [JobExpired(id)])
    case Donate(value) => s.(balance := s.balance + value, donated := s.donated + value)
    case Foreign(_) => s
  }

  /** The same state, up to the order of the payouts. */
  ghost predicate Like(s: State, t: State) {
    s.(paid := []) == t.(paid := []) && multiset(s.paid) == multiset(t.paid)
  }

  /** Taken one after the other, no call inside another, es lead from s to t. */
  ghost predicate Leads(env: Env, s: State, es: seq<Effect>, t: State)
    decreases es
  {
    if es == [] then Like(s, t)
    else Due(env, es[0], s) && Leads(env, Applied(env, es[0], s), es[1..], t)
  }

  lemma {:induction false} LikeLeads(env: Env, s: State, like: State, es: seq<Effect>, t: State)
    requires Like(s, like) && Leads(env, like, es, t)
    ensures Leads(env, s, es, t)
    decreases es
  {
    if es == [] {
    } else {
      LikeLeads(env, Applied(env, es[0], s), Applied(env, es[0], like), es[1..], t);
    }
  }

  lemma {:induction false} InTurn(env: Env, s: State, es: seq<Effect>, t: State, more: seq<Effect>, u: State)
    requires Leads(env, s, es, t) && Leads(env, t, more, u)
    ensures Leads(env, s, es + more, u)
    decreases es
  {
    if es == [] {
      assert es + more == more;
      LikeLeads(env, s, t, more, u);
    } else {
      assert (es + more)[1..] == es[1..] + more;
      InTurn(env, Applied(env, es[0], s), es[1..], t, more, u);
    }
  }

  lemma PayingCommutes(s: State, p: Payout, q: Payout)
    requires s.balance >= p.amount + q.amount
    ensures Like(Paying(Paying(s, q), p), Paying(Paying(s, p), q))
  {
    assert s.completed + {q.id} + {p.id} == s.completed + {p.id} + {q.id};
    assert s.paid + [q] + [p] == s.paid + ([q] + [p]) && s.paid + [p] + [q] == s.paid + ([p] + [q]);
  }

  lemma SettlingCommutes(env: Env, s: State, p: Payout, e: Effect)
    requires p.id in s.jobs && p.id !in s.completed && s.balance >= p.amount && Due(env, e, Paying(s, p))
    requires e.call.Settling()
    ensures Due(env, e, s) && e.call.id != p.id
    ensures Applied(env, e, s).balance >= p.amount
    ensures Like(Paying(Applied(env, e, s), p), Applied(env, e, Paying(s, p)))
  {
    var job := s.jobs[e.call.id];
    var q := match e.call
      case SubmitProof(sender, id, journal, seal, _) =>
        Payout(id, sender, job.reward, e.now, Some(Proof(journal, seal)))
      case ExpireJob(id, _) => Payout(id, job.owner, job.reward, e.now, None);
    PayingCommutes(s, p, q);
  }

  /** One effect while payout p is out has been due before it too, and does the same. */
  lemma CommutesOnce(env: Env, s: State, p: Payout, e: Effect)
    requires p.id in s.jobs && p.id !in s.completed && s.balance >= p.amount && Due(env, e, Paying(s, p))
    ensures Due(env, e, s)
    ensures var next := Applied(env, e, s);
            && p.id in next.jobs && next.jobs[p.id] == s.jobs[p.id] && p.id !in next.completed
            && next.balance >= p.amount
            && Like(Paying(next, p), Applied(env, e, Paying(s, p)))
  {
    if e.call.Settling() {
      SettlingCommutes(env, s, p, e);
    }
  }

  /** What took effect while payout p was out would have taken effect before it just as well. */
  lemma {:induction false} Commutes(env: Env, s: State, p: Payout, es: seq<Effect>, t: State) returns (u: State)
    requires p.id in s.jobs && p.id !in s.completed && s.balance >= p.amount
    requires Leads(env, Paying(s, p), es, t)
    ensures p.id in u.jobs && u.jobs[p.id] == s.jobs[p.id] && p.id !in u.completed && u.balance >= p.amount
    ensures Leads(env, s, es, u) && Like(Paying(u, p), t)
    decreases es
  {
    if es == [] {
      u := s;
    } else {
      var first, rest := es[0], es[1..];
      CommutesOnce(env, s, p, first);
      var next := Applied(env, first, s);
      LikeLeads(env, Paying(next, p), Applied(env, first, Paying(s, p)), rest, t);
      u := Commutes(env, next, p, rest, t);
    }
  }

  /** A settling frame, given that what happened inside it could have happened in turn. */
  lemma SettlingSerial(env: Env, now: nat, c: Call, s: State, begun: State, es: seq<Effect>, returned: State)
    requires c.Settling() && Begin(env, now, c, s) == Ok(begun) && Leads(env, begun, es, returned)
    ensures Leads(env, s, es + [Effect(now, c)], Finish(c, returned))
  {
    var e, p := Effect(now, c), PayoutOf(now, c, s);
    var t := Commutes(env, s, p, es, returned);
    assert Leads(env, t, [e], Finish(c, returned)) by {
      assert Due(env, e, t) && [e][1..] == [];
      assert Like(Applied(env, e, t), Finish(c, returned));
    }
    InTurn(env, s, es, t, [e], Finish(c, returned));
  }

  lemma PlainSerial(env: Env, now: nat, c: Call, s: State)
    requires !c.Settling() && Begin(env, now, c, s).Ok?
    ensures Leads(env, s, [Effect(now, c)], Begin(env, now, c, s).value)
  {
    assert [Effect(now, c)][1..] == [];
  }

  /** Re-entrancy changes nothing but the order of payouts: any call tree leaves the state that the
      calls of it that took effect leave when made one after the other, in the order they returned,
      by somebody who does not call back. */
  lemma {:induction false} ExecSerial(env: Env, now: nat, c: Call, s: State)
    ensures Leads(env, s, Effects(env, now, c, s), Exec(env, now, c, s).state)
    decreases c, 1
  {
    if Exec(env, now, c, s).verdict.Revert? {
    } else {
      var begun := Begin(env, now, c, s).value;
      if c.CallsOut() {
        var es, returned := EffectsOfAll(env, now, c.reply.calls, begun), ExecAll(env, now, c.reply.calls, begun);
        ExecAllSerial(env, now, c.reply.calls, begun);
        if c.Settling() {
          SettlingSerial(env, now, c, s, begun, es, returned);
        } else {
          PlainSerial(env, now, c, returned);
          InTurn(env, s, es, returned, [Effect(now, c)], returned);
        }
      } else {
        PlainSerial(env, now, c, s);
      }
    }
  }

  lemma {:induction false} ExecAllSerial(env: Env, now: nat, calls: seq<Call>, s: State)
    ensures Leads(env, s, EffectsOfAll(env, now, calls, s), ExecAll(env, now, calls, s))
    decreases calls, 0
  {
    if calls == [] {
    } else {
      var next := Exec(env, now, calls[0], s).state;
      ExecSerial(env, now, calls[0], s);
      ExecAllSerial(env, now, calls[1..], next);
      InTurn(env, s, Effects(env, now, calls[0], s), next,
             EffectsOfAll(env, now, calls[1..], next), ExecAll(env, now, calls, s));
    }
  }

  // ----- what the effects leave -----------------------------------------------------------------

  /** The event of a call. */
  function EventOf(e: Effect): seq<Event> {
    match e.call
    case SubmitJob(sender, value, id, _, deadline) => [JobSubmitted(id, sender, value, deadline)]
    case SubmitProof(sender, id, journal, _, _) =>
      if |journal| < 64 then [] else [Event.JobCompleted(id, sender, journal[64..])]
    case ExpireJob(id, _) => [JobExpired(id)]
    case _ => []
  }

  function EventsOf(es: seq<Effect>): seq<Event> {
    if es == [] then [] else EventOf(es[0]) + EventsOf(es[1..])
  }

  function DonationOf(e: Effect): nat {
    if e.call.Donate? then e.call.value else 0
  }

  function Donations(es: seq<Effect>): nat {
    if es == [] then 0 else DonationOf(es[0]) + Donations(es[1..])
  }

  /** The ether a call brings, to lock it or not. */
  function BroughtBy(e: Effect): nat {
    if e.call.Donate? || e.call.SubmitJob? then e.call.value else 0
  }

  function Brought(es: seq<Effect>): nat {
    if es == [] then 0 else BroughtBy(es[0]) + Brought(es[1..])
  }

  /** The payout is what call e asked for: a reward for its proof, to its sender, or a refund. */
  predicate Asks(e: Effect, p: Payout) {
    e.now == p.at &&
    match p.proof
    case Some(proof) =>
      e.call.SubmitProof? && e.call == SubmitProof(p.to, p.id, proof.journal, proof.seal, e.call.reply)
    case None => e.call.ExpireJob? && e.call.id == p.id
  }

  /** The record is what call e submitted: its sender owns it, and it is worth proving. */
  predicate Registers(e: Effect, id: JobId, r: Record) {
    e.call == SubmitJob(r.owner, r.reward, id, r.payload, r.deadline) && r.reward > 0 && r.deadline > e.now
  }

  /** From s to t nothing was taken back, every new payout and record goes back to an effect, and every
      effect left its own. */
  ghost predicate Explained(s: State, t: State, es: seq<Effect>) {
    && (forall p :: p in s.paid ==> p in t.paid)
    && (forall p :: p in t.paid ==> p in s.paid || exists e :: e in es && Asks(e, p))
    && (forall e :: e in es && e.call.Settling() ==> exists p :: p in t.paid && Asks(e, p))
    && (forall id :: id in s.jobs ==> id in t.jobs && t.jobs[id] == s.jobs[id])
    && (forall id :: id in t.jobs ==> id in s.jobs || exists e :: e in es && Registers(e, id, t.jobs[id]))
    && (forall e :: e in es && e.call.SubmitJob? ==> e.call.id in t.jobs && Registers(e, e.call.id, t.jobs[e.call.id]))
  }

  lemma AppliedExplained(env: Env, e: Effect, s: State)
    requires Due(env, e, s)
    ensures Explained(s, Applied(env, e, s), [e])
  {
    var t := Applied(env, e, s);
    assert e in [e];
    if e.call.Settling() {
      assert t.paid[|s.paid|] in t.paid && Asks(e, t.paid[|s.paid|]);
    } else if e.call.SubmitJob? {
      assert Registers(e, e.call.id, t.jobs[e.call.id]);
    }
  }

  lemma ExplainedOn(s: State, t: State, u: State, es: seq<Effect>)
    requires es != [] && Explained(s, t, [es[0]]) && Explained(t, u, es[1..])
    ensures Explained(s, u, es)
  {
    forall p | p in u.paid && p !in s.paid ensures exists e :: e in es && Asks(e, p) {
      var e :| (e in [es[0]] || e in es[1..]) && Asks(e, p);
      assert e in es;
    }
    forall id | id in u.jobs && id !in s.jobs ensures exists e :: e in es && Registers(e, id, u.jobs[id]) {
      var e :| (e in [es[0]] || e in es[1..]) && Registers(e, id, u.jobs[id]);
      assert e in es;
    }
    forall e | e in es ensures e in [es[0]] || e in es[1..] {
    }
  }

  lemma {:induction false} LeadsExplained(env: Env, s: State, es: seq<Effect>, t: State)
    requires Leads(env, s, es, t)
    ensures Explained(s, t, es)
    decreases es
  {
    if es == [] {
      forall p ensures p in s.paid <==> p in t.paid {
        assert p in multiset(s.paid) <==> p in multiset(t.paid);
      }
    } else {
      AppliedExplained(env, es[0], s);
      LeadsExplained(env, Applied(env, es[0], s), es[1..], t);
      ExplainedOn(s, Applied(env, es[0], s), t, es);
    }
  }

  lemma AppliedSums(env: Env, e: Effect, s: State)
    requires Due(env, e, s)
    ensures var t := Applied(env, e, s);
            && t.log == s.log + EventOf(e) && t.donated == s.donated + DonationOf(e)
            && SumRewards(t.jobs, t.jobs.Keys) + t.donated == SumRewards(s.jobs, s.jobs.Keys) + s.donated + BroughtBy(e)
  {
    var t := Applied(env, e, s);
    if e.call.SubmitJob? {
      SumSplit(t.jobs, t.jobs.Keys, e.call.id);
      assert t.jobs.Keys - {e.call.id} == s.jobs.Keys;
      SumAgrees(s.jobs, t.jobs, s.jobs.Keys);
    }
  }

  lemma ThreeParts(a: seq<Event>, b: seq<Event>, c: seq<Event>)
    ensures a + b + c == a + (b + c)
  {
  }

  /** The log is that of the effects. */
  lemma {:induction false} LeadsLog(env: Env, s: State, es: seq<Effect>, t: State)
    requires Leads(env, s, es, t)
    ensures t.log == s.log + EventsOf(es)
    decreases es
  {
    if es == [] {
      assert t.log == s.log;
    } else {
      AppliedSums(env, es[0], s);
      LeadsLog(env, Applied(env, es[0], s), es[1..], t);
      ThreeParts(s.log, EventOf(es[0]), EventsOf(es[1..]));
    }
  }

  /** The donations and all ether that came in are those of the effects. */
  lemma {:induction false} LeadsSums(env: Env, s: State, es: seq<Effect>, t: State)
    requires Leads(env, s, es, t)
    ensures t.donated == s.donated + Donations(es)
    ensures SumRewards(t.jobs, t.jobs.Keys) + t.donated == SumRewards(s.jobs, s.jobs.Keys) + s.donated + Brought(es)
    decreases es
  {
    if es == [] {
      assert t.donated == s.donated && t.jobs == s.jobs;
    } else {
      AppliedSums(env, es[0], s);
      LeadsSums(env, Applied(env, es[0], s), es[1..], t);
    }
  }

  function Submissions(log: seq<Event>, j: JobId): nat {
    if log == [] then 0
    else Submissions(log[..|log| - 1], j) + if log[|log| - 1].JobSubmitted? && log[|log| - 1].id == j then 1 else 0
  }

  /** Each record was announced by exactly one event, which shows its owner, reward and deadline. */
  ghost predicate Announced(s: State) {
    && (forall j: JobId :: Submissions(s.log, j) == if j in s.jobs then 1 else 0)
    && (forall e :: e in s.log && e.JobSubmitted? ==>
          e.id in s.jobs && e == JobSubmitted(e.id, s.jobs[e.id].owner, s.jobs[e.id].reward, s.jobs[e.id].deadline))
  }

  lemma OneMoreEvent(log: seq<Event>, e: Event, j: JobId)
    ensures Submissions(log + [e], j) == Submissions(log, j) + if e.JobSubmitted? && e.id == j then 1 else 0
  {
    assert (log + [e])[..|log|] == log;
  }

  lemma NewlyAnnounced(s: State, t: State, id: JobId, r: Record)
    requires Announced(s) && id !in s.jobs && t.jobs == s.jobs[id := r]
    requires t.log == s.log + [JobSubmitted(id, r.owner, r.reward, r.deadline)]
    ensures Announced(t)
  {
    forall j: JobId ensures Submissions(t.log, j) == if j in t.jobs then 1 else 0 {
      OneMoreEvent(s.log, JobSubmitted(id, r.owner, r.reward, r.deadline), j);
    }
  }

  lemma StillAnnounced(s: State, t: State, e: Event)
    requires Announced(s) && !e.JobSubmitted? && t.jobs == s.jobs && t.log == s.log + [e]
    ensures Announced(t)
  {
    forall j: JobId ensures Submissions(t.log, j) == Submissions(s.log, j) {
      OneMoreEvent(s.log, e, j);
    }
  }

  lemma AppliedAnnounces(env: Env, e: Effect, s: State)
    requires Announced(s) && Due(env, e, s)
    ensures Announced(Applied(env, e, s))
  {
    var t := Applied(env, e, s);
    match e.call
    case SubmitJob(sender, value, id, payload, deadline) =>
      NewlyAnnounced(s, t, id, Record(sender, payload, value, deadline));
    case SubmitProof(sender, id, journal, _, _) =>
      StillAnnounced(s, t, Event.JobCompleted(id, sender, journal[64..]));
    case ExpireJob(id, _) => StillAnnounced(s, t, JobExpired(id));
    case _ =>
  }

  lemma {:induction false} LeadsAnnounces(env: Env, s: State, es: seq<Effect>, t: State)
    requires Announced(s) && Leads(env, s, es, t)
    ensures Announced(t)
    decreases es
  {
    if es == [] {
    } else {
      AppliedAnnounces(env, es[0], s);
      LeadsAnnounces(env, Applied(env, es[0], s), es[1..], t);
    }
  }

  // ----- histories ----------------------------------------------------------------------------

  /** A transaction, mined at time `now`. */
  datatype Tx = Tx(hash: TxHash, now: nat, call: Call)

  /** The state after a sequence of transactions on a freshly deployed registry. */
  function After(env: Env, txs: seq<Tx>): State {
    if txs == [] then GENESIS
    else
      var last := txs[|txs| - 1];
      Exec(env, last.now, last.call, After(env, txs[..|txs| - 1])).state
  }

  lemma {:induction false} HistoryKeeps(env: Env, txs: seq<Tx>)
    ensures Inv(env, After(env, txs), {})
  {
    if txs == [] {
    } else {
      HistoryKeeps(env, txs[..|txs| - 1]);
      var last := txs[|txs| - 1];
      ExecKeeps(env, last.now, last.call, After(env, txs[..|txs| - 1]), {});
    }
  }

  lemma {:induction false} HistoryExtends(env: Env, txs: seq<Tx>, k: nat)
    requires k <= |txs|
    ensures Extends(After(env, txs[..k]), After(env, txs))
  {
    if k == |txs| {
      assert txs[..k] == txs;
    } else {
      var front, last := txs[..|txs| - 1], txs[|txs| - 1];
      assert front[..k] == txs[..k];
      HistoryExtends(env, front, k);
      HistoryKeeps(env, front);
      ExecKeeps(env, last.now, last.call, After(env, front), {});
      ExtendsTransitive(After(env, txs[..k]), After(env, front), After(env, txs));
    }
  }

  function TotalPaid(paid: seq<Payout>): nat {
    if paid == [] then 0 else TotalPaid(paid[..|paid| - 1]) + paid[|paid| - 1].amount
  }

  lemma {:induction false} TotalPaidIsSum(jobs: map<JobId, Record>, paid: seq<Payout>, ids: set<JobId>)
    requires ids <= jobs.Keys
    requires forall j: JobId :: Payments(paid, j) == if j in ids then 1 else 0
    requires forall p :: p in paid ==> p.id in jobs && p.amount == jobs[p.id].reward
    ensures TotalPaid(paid) == SumRewards(jobs, ids)
  {
    if paid == [] {
      assert forall j: JobId :: Payments(paid, j) == 0;
      assert ids == {};
    } else {
      var front, p := paid[..|paid| - 1], paid[|paid| - 1];
      assert Payments(paid, p.id) == Payments(front, p.id) + 1;
      assert forall q :: q in front ==> q in paid;
      SumSplit(jobs, ids, p.id);
      TotalPaidIsSum(jobs, front, ids - {p.id});
    }
  }

  lemma {:induction false} SumUnion(jobs: map<JobId, Record>, a: set<JobId>, b: set<JobId>)
    requires a + b <= jobs.Keys && a !! b
    ensures SumRewards(jobs, a + b) == SumRewards(jobs, a) + SumRewards(jobs, b)
  {
    if a == {} {
      assert a + b == b;
    } else {
      var id :| id in a;
      SumSplit(jobs, a, id);
      SumSplit(jobs, a + b, id);
      assert a + b - {id} == (a - {id}) + b;
      SumUnion(jobs, a - {id}, b);
    }
  }

  /** What took effect in a sequence of transactions. */
  function EffectsAfter(env: Env, txs: seq<Tx>): seq<Effect> {
    if txs == [] then []
    else
      var front, last := txs[..|txs| - 1], txs[|txs| - 1];
      EffectsAfter(env, front) + Effects(env, last.now, last.call, After(env, front))
  }

  /** Any history leaves, up to the order of payouts, the state that the calls of it that took effect
      leave without any re-entry. Its log is theirs; each of them left its payout or record, and no
      payout, record, event or donation is left by anything else, in particular not by a call inside a
      frame that reverted. */
  lemma {:induction false} HistorySerial(env: Env, txs: seq<Tx>)
    ensures var s, es := After(env, txs), EffectsAfter(env, txs);
            && Leads(env, GENESIS, es, s) && Explained(GENESIS, s, es)
            && s.log == EventsOf(es) && s.donated == Donations(es)
  {
    if txs == [] {
    } else {
      var front, last := txs[..|txs| - 1], txs[|txs| - 1];
      HistorySerial(env, front);
      ExecSerial(env, last.now, last.call, After(env, front));
      InTurn(env, GENESIS, EffectsAfter(env, front), After(env, front),
             Effects(env, last.now, last.call, After(env, front)), After(env, txs));
    }
    LeadsExplained(env, GENESIS, EffectsAfter(env, txs), After(env, txs));
    LeadsLog(env, GENESIS, EffectsAfter(env, txs), After(env, txs));
    LeadsSums(env, GENESIS, EffectsAfter(env, txs), After(env, txs));
  }

  /** Conservation: all ether brought by calls that took effect has either been paid out or is still
      held; it is the rewards ever locked, and donations. */
  lemma EtherConserved(env: Env, txs: seq<Tx>)
    ensures var s := After(env, txs);
            TotalPaid(s.paid) + s.balance == Brought(EffectsAfter(env, txs)) ==
            SumRewards(s.jobs, s.jobs.Keys) + s.donated
  {
    HistoryKeeps(env, txs);
    HistorySerial(env, txs);
    var s := After(env, txs);
    LeadsSums(env, GENESIS, EffectsAfter(env, txs), s);
    TotalPaidIsSum(s.jobs, s.paid, s.completed);
    SumUnion(s.jobs, s.completed, s.jobs.Keys - s.completed);
    assert s.completed + (s.jobs.Keys - s.completed) == s.jobs.Keys;
  }

  /** Single settlement over whole histories: a job is marked exactly when it has one settlement
      event and one payout, otherwise it has neither. The payout is the locked reward: in time, against
      a verified proof, to the sender of a call that took effect and brought this proof; or after the
      deadline, when such a call asked for it, to the owner, who is the sender of the call that submitted
      the job. Each settlement event reports a payout, each record has one submission event, and
      records never change. */
  lemma SingleSettlement(env: Env, txs: seq<Tx>, k: nat)
    requires k <= |txs|
    ensures var s, es := After(env, txs), EffectsAfter(env, txs);
            && Solvent(s)
            && (forall j: JobId :: Settlements(s.log, j) == Payments(s.paid, j) == if j in s.completed then 1 else 0)
            && (forall p :: p in s.paid ==> RightlyPaid(env, s.jobs, p))
            && (forall p :: p in s.paid ==> exists e :: e in es && Asks(e, p))
            && (forall j :: j in s.jobs ==> exists e :: e in es && Registers(e, j, s.jobs[j]))
            && (forall e :: e in s.log && !e.JobSubmitted? ==> exists p :: p in s.paid && Reports(e, p))
            && Announced(s)
            && (forall j :: j in After(env, txs[..k]).jobs ==> j in s.jobs && s.jobs[j] == After(env, txs[..k]).jobs[j])
    ensures k < |txs| ==> SafeThroughout(env, txs[k].now, txs[k].call, After(env, txs[..k]))
  {
    HistoryKeeps(env, txs);
    HistoryExtends(env, txs, k);
    HistorySerial(env, txs);
    LeadsAnnounces(env, GENESIS, EffectsAfter(env, txs), After(env, txs));
    if k < |txs| {
      HistoryKeeps(env, txs[..k]);
      ReentrancySafe(env, txs[k].now, txs[k].call, After(env, txs[..k]), {});
    }
  }

  // ----- the contract -------------------------------------------------------------------------

  class JobRegistry {
    const env: Env
    var jobs: map<JobId, Record>
    var completed: set<JobId>
    var balance: nat
    var log: seq<Event>
    var paid: seq<Payout>
    var donated: nat

    function Current(): State
      reads this
    {
      State(jobs, completed, balance, log, paid, donated)
    }

    constructor (env: Env)
      ensures Current() == GENESIS && this.env == env
    {
      this.env := env;
      jobs, completed, balance, log, paid, donated := map[], {}, 0, [], [], 0;
    }

    /** Rolls a reverted frame back. */
    method Restore(s: State)
      modifies this
      ensures Current() == s
    {
      jobs, completed, balance, log, paid, donated := s.jobs, s.completed, s.balance, s.log, s.paid, s.donated;
    }

    method Submit(now: nat, sender: Address, value: nat, id: JobId, payload: Bytes, deadline: nat)
      returns (v: Verdict)
      modifies this
      ensures Outcome(Current(), v) == Exec(env, now, SubmitJob(sender, value, id, payload, deadline), old(Current()))
      ensures v == if id in old(jobs) then Revert(JobAlreadyExists)
                   else if value == 0 then Revert(InsufficientReward)
                   else if deadline <= now then Revert(DeadlinePassed)
                   else Success
      ensures v.Revert? ==> Current() == old(Current())
      ensures v.Success? ==>
                && jobs == old(jobs)[id := Record(sender, payload, value, deadline)]
                && balance == old(balance) + value
                && log == old(log) + [JobSubmitted(id, sender, value, deadline)]
                && completed == old(completed) && paid == old(paid) && donated == old(donated)
    {
      if id in jobs { return Revert(JobAlreadyExists); }
      if value == 0 { return Revert(InsufficientReward); }
      if deadline <= now { return Revert(DeadlinePassed); }
      balance := balance + value;
      jobs := jobs[id := Record(sender, payload, value, deadline)];
      log := log + [JobSubmitted(id, sender, value, deadline)];
      return Success;
    }

    method Prove(now: nat, sender: Address, id: JobId, journal: Bytes, seal: Bytes, reply: Reply)
      returns (v: Verdict)
      modifies this
      ensures Outcome(Current(), v) == Exec(env, now, SubmitProof(sender, id, journal, seal, reply), old(Current()))
      ensures v == if id !in old(jobs) then Revert(JobNotFound)
                   else if id in old(completed) then Revert(JobAlreadyCompleted)
                   else if now > old(jobs)[id].deadline then Revert(DeadlinePassed)
                   else if |journal| < 64 then Revert(BadJournal(InvalidJournal))
                   else if journal[..32] != id then Revert(BadJournal(JobIdMismatch))
                   else if journal[32..64] != env.sha256(old(jobs)[id].payload) then Revert(BadJournal(PayloadMismatch))
                   else if !env.verify(seal, env.imageId, env.sha256(journal)) then Revert(VerifierReverted)
                   else if old(balance) < old(jobs)[id].reward || !reply.accept then Revert(TransferFailed)
                   else Success
      ensures v.Revert? ==> Current() == old(Current())
      ensures v.Success? ==>
                var p := Payout(id, sender, old(jobs)[id].reward, now, Some(Proof(journal, seal)));
                var returned := ExecAll(env, now, reply.calls, Paying(old(Current()), p));
                Current() == returned.(log := returned.log + [Event.JobCompleted(id, sender, journal[64..])])
      decreases reply, 2
    {
      if id !in jobs { return Revert(JobNotFound); }
      var job := jobs[id];
      if id in completed { return Revert(JobAlreadyCompleted); }
      if now > job.deadline { return Revert(DeadlinePassed); }
      if |journal| < 64 { return Revert(BadJournal(InvalidJournal)); }
      var result := journal[64..];
      if journal[0..32] != id { return Revert(BadJournal(JobIdMismatch)); }
      if journal[32..64] != env.sha256(job.payload) { return Revert(BadJournal(PayloadMismatch)); }
      if !env.verify(seal, env.imageId, env.sha256(journal)) { return Revert(VerifierReverted); }
      var entry := Current();
      completed := completed + {id};
      var success := Transfer(now, Payout(id, sender, job.reward, now, Some(Proof(journal, seal))), reply);
      if !success {
        Restore(entry);
        return Revert(TransferFailed);
      }
      log := log + [Event.JobCompleted(id, sender, result)];
      return Success;
    }

    method Expire(now: nat, id: JobId, reply: Reply) returns (v: Verdict)
      modifies this
      ensures Outcome(Current(), v) == Exec(env, now, ExpireJob(id, reply), old(Current()))
      ensures v == if id !in old(jobs) then Revert(JobNotFound)
                   else if id in old(completed) then Revert(JobAlreadyCompleted)
                   else if now <= old(jobs)[id].deadline then Revert(JobNotExpired)
                   else if old(balance) < old(jobs)[id].reward || !reply.accept then Revert(TransferFailed)
                   else Success
      ensures v.Revert? ==> Current() == old(Current())
      ensures v.Success? ==>
                var p := Payout(id, old(jobs)[id].owner, old(jobs)[id].reward, now, None);
                var returned := ExecAll(env, now, reply.calls, Paying(old(Current()), p));
                Current() == returned.(log := returned.log + [JobExpired(id)])
      decreases reply, 2
    {
      if id !in jobs { return Revert(JobNotFound); }
      var job := jobs[id];
      if id in completed { return Revert(JobAlreadyCompleted); }
      if now <= job.deadline { return Revert(JobNotExpired); }
      var entry := Current();
      completed := completed + {id};
      var success := Transfer(now, Payout(id, job.owner, job.reward, now, None), reply);
      if !success {
        Restore(entry);
        return Revert(TransferFailed);
      }
      log := log + [JobExpired(id)];
      return Success;
    }

    /** The low-level call that sends the reward and runs the recipient's code. */
    method Transfer(now: nat, p: Payout, reply: Reply) returns (success: bool)
      modifies this
      ensures success == (old(balance) >= p.amount && reply.accept)
      ensures success ==> Current() == ExecAll(env, now, reply.calls,
                  old(Current()).(balance := old(balance) - p.amount, paid := old(paid) + [p]))
      ensures !success ==> Current() == old(Current())
      decreases reply, 1
    {
      if balance < p.amount { return false; }
      var entry := Current();
      balance := balance - p.amount;
      paid := paid + [p];
      RunCallee(now, reply.calls);
      success := reply.accept;
      if !success {
        Restore(entry);
      }
    }

    /** A callee's calls back into the registry. */
    method RunCallee(now: nat, calls: seq<Call>)
      modifies this
      ensures Current() == ExecAll(env, now, calls, old(Current()))
      decreases calls, 0
    {
      for i := 0 to |calls|
        invariant ExecAll(env, now, calls, old(Current())) == ExecAll(env, now, calls[i..], Current())
      {
        assert calls[i..][1..] == calls[i + 1..];
        var _ := Perform(now, calls[i]);
      }
    }

    method Perform(now: nat, c: Call) returns (v: Verdict)
      modifies this
      ensures Outcome(Current(), v) == Exec(env, now, c, old(Current()))
      ensures v.Revert? ==> Current() == old(Current())
      ensures c.CallsOut() && !c.reply.accept ==> v.Revert?
      ensures c.Foreign? && c.reply.accept ==>
                v.Success? && Current() == ExecAll(env, now, c.reply.calls, old(Current()))
      ensures c.Donate? ==>
                && v.Success?
                && Current() == old(Current()).(balance := old(balance) + c.value, donated := old(donated) + c.value)
      decreases c, 3
    {
      match c
      case SubmitJob(sender, value, id, payload, deadline) =>
        v := Submit(now, sender, value, id, payload, deadline);
      case SubmitProof(sender, id, journal, seal, reply) =>
        v := Prove(now, sender, id, journal, seal, reply);
      case ExpireJob(id, reply) =>
        v := Expire(now, id, reply);
      case Donate(value) =>
        balance, donated := balance + value, donated + value;
        v := Success;
      case Foreign(reply) =>
        var entry := Current();
        RunCallee(now, reply.calls);
        v := Success;
        if !reply.accept {
          Restore(entry);
          v := Revert(FrameReverted);
        }
    }
  }
}
