/** The coordinator's handlers (crates/coordinator/src): claim arbitration, chain-checked
    completion, job creation and the rebroadcast of pending jobs. */
module Coordinator {
  import opened Core
  import opened Jobs

  /** The table after a request, and the message broadcast in return. */
  datatype Arbitration = Arbitration(table: Table, reply: GossipMessage)

  /** The first claim of a pending job wins; everything else is rejected, to no one in particular. */
  function Arbitrate(t: Table, id: JobId, worker: PeerId, now: nat): Arbitration {
    if id !in t then Arbitration(t, ClaimRejected(id, "job not found"))
    else if t[id].status.Pending? then
      Arbitration(UpdateEntry(t, id, Claim(worker, now)), ClaimAccepted(id, worker))
    else Arbitration(t, ClaimRejected(id, "job already assigned"))
  }

  datatype ClaimMessage = ClaimMessage(id: JobId, worker: PeerId, now: nat)

  /** The table after a sequence of claims. */
  function ArbitrateAll(t: Table, claims: seq<ClaimMessage>): Table {
    if claims == [] then t
    else
      var last := claims[|claims| - 1];
      Arbitrate(ArbitrateAll(t, claims[..|claims| - 1]), last.id, last.worker, last.now).table
  }

  ghost predicate Claimed(claims: seq<ClaimMessage>, id: JobId) {
    exists k :: 0 <= k < |claims| && claims[k].id == id
  }

  lemma {:induction false} UnclaimedStaysPending(t: Table, claims: seq<ClaimMessage>, id: JobId)
    ensures ArbitrateAll(t, claims).Keys == t.Keys
    ensures id in t && !Claimed(claims, id) ==> ArbitrateAll(t, claims)[id] == t[id]
    ensures id in t && Claimed(claims, id) ==> !ArbitrateAll(t, claims)[id].status.Pending?
    ensures id in t && !t[id].status.Pending? ==> ArbitrateAll(t, claims)[id] == t[id]
  {
    if claims == [] {
    } else {
      var front := claims[..|claims| - 1];
      UnclaimedStaysPending(t, front, id);
      if Claimed(front, id) {
        var k :| 0 <= k < |front| && front[k].id == id;
        assert claims[k].id == id;
      } else if Claimed(claims, id) {
        assert claims[|claims| - 1].id == id;
      }
    }
  }

  /** After any claims, the next one is accepted exactly when its job was pending at the start and
      had not been claimed before; the entry then names the claimer, and a rejected claim changes
      nothing. */
  lemma FirstClaimWins(t: Table, claims: seq<ClaimMessage>, next: ClaimMessage)
    ensures var before := ArbitrateAll(t, claims);
            var a := Arbitrate(before, next.id, next.worker, next.now);
            && (a.reply == ClaimAccepted(next.id, next.worker) <==>
                next.id in t && t[next.id].status.Pending? && !Claimed(claims, next.id))
            && (a.reply.ClaimAccepted? ==>
                a.table == before[next.id := t[next.id].(status := Assigned(next.worker, next.now))])
            && (!a.reply.ClaimAccepted? ==> a.reply.ClaimRejected? && a.reply.jobId == next.id && a.table == before)
  {
    UnclaimedStaysPending(t, claims, next.id);
  }

  /** The insert of a new job, whatever is stored under its id, and its offer. */
  function Create(t: Table, job: Job): Arbitration {
    Arbitration(t[job.id := job], JobAvailable(job))
  }

  /** What is known of the chain when a completion arrives by gossip. */
  datatype Query = NoContract | Failed | Answer(completed: bool)

  /** How submitting a new job to the contract went. */
  datatype Submission = Unconfigured | Rejected | Mined(txHash: TxHash)

  /** `order` lists each pending job of t once. */
  ghost predicate ListsPending(order: seq<JobId>, t: Table) {
    && (forall id :: id in order <==> id in t && t[id].status.Pending?)
    && (forall i, k :: 0 <= i < k < |order| ==> order[i] != order[k])
  }

  class AppState {
    const jobs: JobTable
    const defaultDeadlineSecs: nat
    var broadcasts: seq<GossipMessage>

    constructor (jobs: JobTable, defaultDeadlineSecs: nat)
      ensures this.jobs == jobs && this.defaultDeadlineSecs == defaultDeadlineSecs && broadcasts == []
    {
      this.jobs, this.defaultDeadlineSecs, broadcasts := jobs, defaultDeadlineSecs, [];
    }

    method HandleClaim(id: JobId, workerId: PeerId, now: nat)
      modifies this, jobs
      ensures var a := Arbitrate(old(jobs.entries), id, workerId, now);
              jobs.entries == a.table && broadcasts == old(broadcasts) + [a.reply]
      ensures id in old(jobs.entries) && old(jobs.entries)[id].status.Pending? ==>
                && jobs.entries == old(jobs.entries)[id := old(jobs.entries)[id].(status := Assigned(workerId, now))]
                && broadcasts == old(broadcasts) + [ClaimAccepted(id, workerId)]
      ensures id in old(jobs.entries) && !old(jobs.entries)[id].status.Pending? ==>
                && jobs.entries == old(jobs.entries)
                && broadcasts == old(broadcasts) + [ClaimRejected(id, "job already assigned")]
      ensures id !in old(jobs.entries) ==>
                && jobs.entries == old(jobs.entries)
                && broadcasts == old(broadcasts) + [ClaimRejected(id, "job not found")]
    {
      if id !in jobs.entries {
        broadcasts := broadcasts + [ClaimRejected(id, "job not found")];
        return;
      }
      var job := jobs.entries[id];
      var claimed := false;
      if job.status.Pending? {
        jobs.entries := jobs.entries[id := job.(status := Assigned(workerId, now))];
        claimed := true;
      }
      if claimed {
        broadcasts := broadcasts + [ClaimAccepted(id, workerId)];
      } else {
        broadcasts := broadcasts + [ClaimRejected(id, "job already assigned")];
      }
    }

    /** Only a completion the chain confirms changes an entry, and only an existing one. */
    method HandleJobCompleted(id: JobId, txHash: TxHash, query: Query)
      modifies jobs
      ensures jobs.entries == if query == Answer(true) then UpdateEntry(old(jobs.entries), id, Complete(txHash))
                              else old(jobs.entries)
      ensures query == Answer(true) && id in old(jobs.entries) && !old(jobs.entries)[id].status.Completed? ==>
                jobs.entries == old(jobs.entries)[id := old(jobs.entries)[id].(status := Completed(txHash))]
      ensures !(query == Answer(true) && id in old(jobs.entries) && !old(jobs.entries)[id].status.Completed?) ==>
                jobs.entries == old(jobs.entries)
    {
      if query.NoContract? || query.Failed? || !query.completed { return; }
      if id in jobs.entries {
        var job := jobs.entries[id];
        if !job.status.Completed? {
          jobs.entries := jobs.entries[id := job.(status := Completed(txHash))];
        }
        assert jobs.entries[id].status == Apply(Complete(txHash), job.status);
        assert jobs.entries == UpdateEntry(old(jobs.entries), id, Complete(txHash));
      }
    }

    /** The HTTP handler once the request is decoded and the job has its id. */
    method CreateJob(id: JobId, owner: Address, payload: Bytes, reward: nat, now: nat, submission: Submission)
      returns (created: Option<Job>)
      modifies this, jobs
      ensures created.None? <==> submission.Rejected?
      ensures created.None? ==> jobs.entries == old(jobs.entries) && broadcasts == old(broadcasts)
      ensures created.Some? ==>
                && created.value == Job(id, Pending, owner, payload, reward, now, now + defaultDeadlineSecs)
                && jobs.entries == old(jobs.entries)[id := created.value]
                && broadcasts == old(broadcasts) + [JobAvailable(created.value)]
                && Create(old(jobs.entries), created.value) == Arbitration(jobs.entries, JobAvailable(created.value))
    {
      var deadline := now + defaultDeadlineSecs;
      if submission.Rejected? { return None; }
      var job := Job(id, Pending, owner, payload, reward, now, deadline);
      jobs.entries := jobs.entries[id := job];
      broadcasts := broadcasts + [JobAvailable(job)];
      return Some(job);
    }

    /** One tick: the jobs pending now are collected, then offered again one by one. */
    method RebroadcastPending() returns (ghost order: seq<JobId>)
      modifies this
      ensures ListsPending(order, jobs.entries)
      ensures |broadcasts| == |old(broadcasts)| + |order| && broadcasts[..|old(broadcasts)|] == old(broadcasts)
      ensures forall i :: 0 <= i < |order| ==> broadcasts[|old(broadcasts)| + i] == JobAvailable(jobs.entries[order[i]])
    {
      var left := set id | id in jobs.entries && jobs.entries[id].status.Pending?;
      order := [];
      while left != {}
        invariant forall id :: id in left ==> id in jobs.entries && jobs.entries[id].status.Pending?
        invariant forall id :: id in order <==> id in jobs.entries && jobs.entries[id].status.Pending? && id !in left
        invariant forall i, k :: 0 <= i < k < |order| ==> order[i] != order[k]
        invariant |broadcasts| == |old(broadcasts)| + |order| && broadcasts[..|old(broadcasts)|] == old(broadcasts)
        invariant forall i :: 0 <= i < |order| ==>
                    broadcasts[|old(broadcasts)| + i] == JobAvailable(jobs.entries[order[i]])
        decreases left
      {
        var id :| id in left;
        left := left - {id};
        order := order + [id];
        broadcasts := broadcasts + [JobAvailable(jobs.entries[id])];
      }
    }
  }
}
