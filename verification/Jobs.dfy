/** The coordinator's job table: what each handler does to an entry, and what any interleaving of
    handlers amounts to. */
module Jobs {
  import opened Core

  type Table = map<JobId, Job>

  /** The table is shared by the HTTP handlers, the gossip handler, the rebroadcaster and the
      indexer. */
  class JobTable {
    var entries: Table

    constructor (entries: Table)
      ensures this.entries == entries
    {
      this.entries := entries;
    }
  }

  // ----- one entry ----------------------------------------------------------------------------

  /** The three ways a handler changes the status of an existing entry. */
  datatype Update = Claim(worker: PeerId, now: nat) | Complete(txHash: TxHash) | Expire

  function Apply(u: Update, s: JobStatus): JobStatus {
    match u
    case Claim(worker, now) => if s.Pending? then Assigned(worker, now) else s
    case Complete(txHash) => if s.Completed? then s else Completed(txHash)
    case Expire => if s.Completed? || s.Expired? then s else Expired
  }

  function ApplyAll(us: seq<Update>, s: JobStatus): JobStatus {
    if us == [] then s else ApplyAll(us[1..], Apply(us[0], s))
  }

  /** The first update of a kind, if there is one. */
  function First(us: seq<Update>, kind: Update -> bool): (u: Option<Update>)
    ensures u.None? <==> forall i :: 0 <= i < |us| ==> !kind(us[i])
    ensures u.Some? ==> u.value in us && kind(u.value)
  {
    if us == [] then None else if kind(us[0]) then Some(us[0]) else First(us[1..], kind)
  }

  function Completions(): Update -> bool { (u: Update) => u.Complete? }

  function Expiries(): Update -> bool { (u: Update) => u.Expire? }

  function Claims(): Update -> bool { (u: Update) => u.Claim? }

  /** The status reached from s, read off the updates without running them. */
  function ClosedForm(us: seq<Update>, s: JobStatus): JobStatus {
    if s.Completed? then s
    else match First(us, Completions())
      case Some(u) => Completed(u.txHash)
      case None =>
        if s.Expired? || First(us, Expiries()).Some? then Expired
        else if s.Pending? then
          match First(us, Claims())
          case Some(u) => Assigned(u.worker, u.now)
          case None => Pending
        else s
  }

  lemma {:induction false} StatusClosedForm(us: seq<Update>, s: JobStatus)
    ensures ApplyAll(us, s) == ClosedForm(us, s)
  {
    if us == [] {
    } else {
      StatusClosedForm(us[1..], Apply(us[0], s));
    }
  }

  function Rank(s: JobStatus): nat {
    match s
    case Pending => 0
    case Expired => 2
    case Completed(_) => 3
    case _ => 1
  }

  lemma {:induction false} ApplyAllConcat(us: seq<Update>, vs: seq<Update>, s: JobStatus)
    ensures ApplyAll(us + vs, s) == ApplyAll(vs, ApplyAll(us, s))
  {
    if us == [] {
      assert us + vs == vs;
    } else {
      assert (us + vs)[1..] == us[1..] + vs;
      ApplyAllConcat(us[1..], vs, Apply(us[0], s));
    }
  }

  /** A job's status never moves back, and once Completed its hash never changes. */
  lemma StatusNeverRegresses(us: seq<Update>, k: nat, s: JobStatus)
    requires k <= |us|
    ensures Rank(ApplyAll(us[..k], s)) <= Rank(ApplyAll(us, s))
    ensures ApplyAll(us[..k], s).Completed? ==> ApplyAll(us, s) == ApplyAll(us[..k], s)
  {
    assert us == us[..k] + us[k..];
    ApplyAllConcat(us[..k], us[k..], s);
    StatusClosedForm(us[k..], ApplyAll(us[..k], s));
  }

  /** The final kind depends only on which updates there were, not on their order or number. */
  lemma StatusConfluent(us: seq<Update>, vs: seq<Update>, s: JobStatus)
    requires forall u :: u in us <==> u in vs
    ensures Rank(ApplyAll(us, s)) == Rank(ApplyAll(vs, s))
    ensures ApplyAll(us, s).Completed? == ApplyAll(vs, s).Completed?
    ensures ApplyAll(us, s).Assigned? == ApplyAll(vs, s).Assigned?
  {
    StatusClosedForm(us, s);
    StatusClosedForm(vs, s);
    SameKinds(us, vs, Completions());
    SameKinds(us, vs, Expiries());
    SameKinds(us, vs, Claims());
  }

  lemma SameKinds(us: seq<Update>, vs: seq<Update>, kind: Update -> bool)
    requires forall u :: u in us <==> u in vs
    ensures First(us, kind).Some? == First(vs, kind).Some?
  {
    if First(us, kind).Some? {
      assert First(us, kind).value in vs;
    }
    if First(vs, kind).Some? {
      assert First(vs, kind).value in us;
    }
  }

  // ----- the table ----------------------------------------------------------------------------

  function UpdateEntry(t: Table, id: JobId, u: Update): Table {
    if id in t then t[id := t[id].(status := Apply(u, t[id].status))] else t
  }

  /** The entry the indexer makes up for a job it only knows from a completion event. */
  function Placeholder(id: JobId, txHash: TxHash): Job {
    Job(id, Completed(txHash), seq(20, i => 0), [], 0, 0, 0)
  }

  function UpdateAll(t: Table, ops: seq<(JobId, Update)>): Table {
    if ops == [] then t else UpdateAll(UpdateEntry(t, ops[0].0, ops[0].1), ops[1..])
  }

  function UpdatesOf(ops: seq<(JobId, Update)>, id: JobId): seq<Update> {
    if ops == [] then [] else (if ops[0].0 == id then [ops[0].1] else []) + UpdatesOf(ops[1..], id)
  }

  /** Each entry evolves by its own updates alone, keeps every other field, and no entry appears
      or disappears. */
  lemma {:induction false} EntriesAreIndependent(t: Table, ops: seq<(JobId, Update)>, id: JobId)
    ensures UpdateAll(t, ops).Keys == t.Keys
    ensures id in t ==> UpdateAll(t, ops)[id] == t[id].(status := ClosedForm(UpdatesOf(ops, id), t[id].status))
  {
    if ops == [] {
      assert id in t ==> t[id] == t[id].(status := t[id].status);
    } else {
      var next := UpdateEntry(t, ops[0].0, ops[0].1);
      EntriesAreIndependent(next, ops[1..], id);
      if id in t {
        StatusClosedForm(UpdatesOf(ops, id), t[id].status);
        StatusClosedForm(UpdatesOf(ops[1..], id), next[id].status);
        if ops[0].0 == id {
          assert UpdatesOf(ops, id)[1..] == UpdatesOf(ops[1..], id);
        } else {
          assert UpdatesOf(ops, id) == UpdatesOf(ops[1..], id);
        }
      }
    }
  }

  // ----- snapshots (crates/coordinator/src/persistence.rs) -------------------------------------

  /** Every entry is stored under its own id. */
  ghost predicate OwnIds(t: Table) {
    forall id :: id in t ==> t[id].id == id
  }

  /** `entries` are the values of t, one for each key of `order`. */
  ghost predicate Lists(entries: seq<Job>, order: seq<JobId>, t: Table) {
    && |entries| == |order|
    && (forall id :: id in t <==> id in order)
    && (forall i, k :: 0 <= i < k < |order| ==> order[i] != order[k])
    && (forall i :: 0 <= i < |order| ==> entries[i] == t[order[i]])
  }

  method SaveJobs(t: Table) returns (entries: seq<Job>)
    ensures exists order :: Lists(entries, order, t)
  {
    ghost var order: seq<JobId> := [];
    entries := [];
    var left := t.Keys;
    while left != {}
      invariant left <= t.Keys
      invariant forall id :: id in order <==> id in t && id !in left
      invariant |entries| == |order|
      invariant forall i, k :: 0 <= i < k < |order| ==> order[i] != order[k]
      invariant forall i :: 0 <= i < |order| ==> entries[i] == t[order[i]]
      decreases left
    {
      var id :| id in left;
      entries := entries + [t[id]];
      order := order + [id];
      left := left - {id};
    }
    assert Lists(entries, order, t);
  }

  function Restored(entries: seq<Job>): Table {
    if entries == [] then map[]
    else Restored(entries[..|entries| - 1])[entries[|entries| - 1].id := entries[|entries| - 1]]
  }

  /** Entry i is the last in the file with its id. */
  ghost predicate IsLast(entries: seq<Job>, i: nat) {
    i < |entries| && forall k :: i < k < |entries| ==> entries[k].id != entries[i].id
  }

  lemma {:induction false} LastIsRestored(entries: seq<Job>, i: nat)
    requires IsLast(entries, i)
    ensures entries[i].id in Restored(entries) && Restored(entries)[entries[i].id] == entries[i]
  {
    var front := entries[..|entries| - 1];
    if i == |front| {
    } else {
      assert front[i] == entries[i] && entries[|front|].id != entries[i].id;
      LastIsRestored(front, i);
    }
  }

  lemma {:induction false} RestoredIsLast(entries: seq<Job>, id: JobId) returns (i: nat)
    requires id in Restored(entries)
    ensures IsLast(entries, i) && entries[i].id == id
  {
    var front, last := entries[..|entries| - 1], entries[|entries| - 1];
    if last.id == id {
      i := |front|;
    } else {
      i := RestoredIsLast(front, id);
      assert entries[i] == front[i];
    }
  }

  /** Of several entries with the same id the last one counts. */
  lemma LastEntryWins(entries: seq<Job>)
    ensures forall i: nat :: IsLast(entries, i) ==>
              entries[i].id in Restored(entries) && Restored(entries)[entries[i].id] == entries[i]
    ensures forall id :: id in Restored(entries) ==> exists i: nat :: IsLast(entries, i) && entries[i].id == id
  {
    forall i: nat | IsLast(entries, i)
      ensures entries[i].id in Restored(entries) && Restored(entries)[entries[i].id] == entries[i]
    {
      LastIsRestored(entries, i);
    }
    forall id | id in Restored(entries) ensures exists i: nat :: IsLast(entries, i) && entries[i].id == id {
      var i := RestoredIsLast(entries, id);
    }
  }

  /** A missing, empty or unreadable snapshot file gives an empty table. */
  method LoadJobs(file: Option<seq<Job>>) returns (table: JobTable)
    ensures fresh(table)
    ensures table.entries == if file.None? then map[] else Restored(file.value)
    ensures file.Some? ==>
              && (forall i: nat :: IsLast(file.value, i) ==>
                    file.value[i].id in table.entries && table.entries[file.value[i].id] == file.value[i])
              && (forall id :: id in table.entries ==>
                    exists i: nat :: IsLast(file.value, i) && file.value[i].id == id)
  {
    table := new JobTable(map[]);
    if file.Some? {
      for i := 0 to |file.value|
        invariant fresh(table)
        invariant table.entries == Restored(file.value[..i])
      {
        var job := file.value[i];
        assert file.value[..i + 1][..i] == file.value[..i];
        table.entries := table.entries[job.id := job];
      }
      assert file.value[..|file.value|] == file.value;
      LastEntryWins(file.value);
    }
  }

  lemma {:induction false} RestoredEntries(entries: seq<Job>)
    ensures OwnIds(Restored(entries))
    ensures forall id :: id in Restored(entries) ==> Restored(entries)[id] in entries
    ensures forall job :: job in entries ==> job.id in Restored(entries)
  {
    if entries == [] {
    } else {
      RestoredEntries(entries[..|entries| - 1]);
    }
  }

  lemma RestoredFromTable(t: Table, entries: seq<Job>, order: seq<JobId>, id: JobId)
    requires Lists(entries, order, t) && OwnIds(t) && id in Restored(entries)
    ensures id in t && Restored(entries)[id] == t[id]
  {
    RestoredEntries(entries);
    var i :| 0 <= i < |entries| && entries[i] == Restored(entries)[id];
    assert order[i] in t && t[order[i]].id == order[i];
  }

  lemma RestoredWhole(t: Table, entries: seq<Job>, order: seq<JobId>, id: JobId)
    requires Lists(entries, order, t) && OwnIds(t) && id in t
    ensures id in Restored(entries)
  {
    RestoredEntries(entries);
    var i :| 0 <= i < |order| && order[i] == id;
    assert entries[i] in entries;
  }

  /** Loading what was saved, in whatever order the table was walked, gives the table back exactly
      when every entry is stored under its own id. */
  lemma SnapshotRoundTrip(t: Table, entries: seq<Job>, order: seq<JobId>)
    requires Lists(entries, order, t)
    ensures Restored(entries) == t <==> OwnIds(t)
  {
    RestoredEntries(entries);
    if OwnIds(t) {
      forall id | id in Restored(entries) ensures id in t && Restored(entries)[id] == t[id] {
        RestoredFromTable(t, entries, order, id);
      }
      forall id | id in t ensures id in Restored(entries) {
        RestoredWhole(t, entries, order, id);
      }
    }
  }

  /** The invariant under which snapshots are faithful is kept by every operation on the table. */
  lemma OwnIdsKept(t: Table, job: Job, id: JobId, txHash: TxHash, ops: seq<(JobId, Update)>)
    requires OwnIds(t)
    ensures OwnIds(t[job.id := job])
    ensures OwnIds(t[id := Placeholder(id, txHash)])
    ensures OwnIds(UpdateAll(t, ops))
  {
    forall k | k in UpdateAll(t, ops) ensures UpdateAll(t, ops)[k].id == k {
      EntriesAreIndependent(t, ops, k);
    }
  }
}
