/** Types shared by the contract, the coordinator, the workers and the gossip network
    (crates/core/src). */
module Core {
  type Byte = x: int | 0 <= x < 256
  type Bytes = seq<Byte>
  type Bytes32 = b: Bytes | |b| == 32 witness seq(32, i => 0)

  /** A 20-byte account address. */
  type Address = b: Bytes | |b| == 20 witness seq(20, i => 0)

  type JobId = Bytes32
  type PeerId = Bytes32
  type MessageId = Bytes32
  type TxHash = Bytes32

  /** The hash function used by the guest, the contract and the id generators; nothing but its
      result length is assumed. */
  type Hash = Bytes -> Bytes32

  datatype Option<+T> = None | Some(value: T)

  datatype Result<+T, +E> = Ok(value: T) | Err(error: E)

  datatype JobStatus =
    | Pending
    | Assigned(worker: PeerId, assignedAt: nat)
    | Proving
    | Completed(txHash: TxHash)
    | Failed(reason: Bytes)
    | Expired

  datatype Job = Job(
    id: JobId,
    status: JobStatus,
    owner: Address,
    payload: Bytes,
    reward: nat,
    createdAt: nat,
    deadline: nat)

  datatype GossipMessage =
    | JobAvailable(job: Job)
    | ClaimJob(jobId: JobId, workerId: PeerId)
    | ClaimAccepted(jobId: JobId, workerId: PeerId)
    | ClaimRejected(jobId: JobId, reason: string)
    | JobCompleted(jobId: JobId, txHash: TxHash)

  lemma {:induction false} SubsetSize<T>(a: set<T>, b: set<T>)
    requires a <= b
    ensures |a| <= |b| && (|a| == |b| ==> a == b)
  {
    if a == {} {
    } else {
      var x :| x in a;
      SubsetSize(a - {x}, b - {x});
    }
  }
}
