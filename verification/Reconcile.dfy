/** The indexer beside the coordinator's other tasks. All of them write the same table: between any two
    writes of the indexer, even within one poll, claims may be taken, completions confirmed and jobs
    inserted. The polls still bring every entry in line with the chain, except exactly those inserted
    after their settlement event was read. */
module Reconcile {
  import opened Core
  import opened Jobs
  import opened Indexer
  import Coordinator
  import Escrow

  /** One write to the table: the indexer applies a log entry, or another task updates or inserts one. */
  datatype Op = Read(entry: Entry) | Write(id: JobId, u: Update) | Insert(job: Job)

  /** Only the indexer expires jobs, and created jobs are pending. */
  predicate Proper(op: Op) {
    match op
    case Read(_) => true
    case Write(_, u) => !u.Expire?
    case Insert(job) => job.status.Pending?
  }

  ghost predicate AllProper(ops: seq<Op>) {
    forall k :: 0 <= k < |ops| ==> Proper(ops[k])
  }

  function Do(op: Op, t: Table): Table {
    match op
    case Read(e) => Settle(e, t)
    case Write(id, u) => UpdateEntry(t, id, u)
    case Insert(job) => Coordinator.Create(t, job).table
  }

  function DoAll(ops: seq<Op>, t: Table): Table {
    if ops == [] then t else Do(ops[|ops| - 1], DoAll(ops[..|ops| - 1], t))
  }

  /** The log entries the indexer applies, in order. */
  function ReadsOf(ops: seq<Op>): seq<Entry> {
    if ops == [] then []
    else
      var last := ops[|ops| - 1];
      ReadsOf(ops[..|ops| - 1]) + if last.Read? then [last.entry] else []
  }

  /** What the other tasks do, in order. */
  function WritesOf(ops: seq<Op>): seq<Op> {
    if ops == [] then []
    else
      var last := ops[|ops| - 1];
      WritesOf(ops[..|ops| - 1]) + if last.Read? then [] else [last]
  }

  // ----- one entry ------------------------------------------------------------------------------

  predicate ReadsFor(op: Op, j: JobId) {
    op.Read? && op.entry.event.Settles(j)
  }

  predicate InsertsFor(op: Op, j: JobId) {
    op.Insert? && op.job.id == j
  }

  /** The operation leaves the entry of j settled, if there is one. */
  predicate SettlesFor(op: Op, j: JobId) {
    ReadsFor(op, j) || (op.Write? && op.id == j && op.u.Complete?)
  }

  ghost predicate HasRead(ops: seq<Op>, j: JobId) {
    exists k :: 0 <= k < |ops| && ReadsFor(ops[k], j)
  }

  /** The entry of j was inserted after its settlement event was read, and nothing has settled it since. */
  ghost predicate Stale(ops: seq<Op>, j: JobId) {
    exists p :: StaleSince(ops, j, p)
  }

  ghost predicate StaleSince(ops: seq<Op>, j: JobId, p: int) {
    && 0 <= p < |ops| && InsertsFor(ops[p], j) && HasRead(ops[..p], j)
    && forall q :: p < q < |ops| ==> !SettlesFor(ops[q], j)
  }

  /** What an operation does to the entry of j. */
  function DoEntry(op: Op, j: JobId, o: Option<Job>): Option<Job> {
    match op
    case Read(e) => if e.event.Settles(j) then SettleEntry(e, j, o) else o
    case Write(id, u) => if id == j && o.Some? then Some(o.value.(status := Apply(u, o.value.status))) else o
    case Insert(job) => if job.id == j then Some(job) else o
  }

  function SettleEntry(e: Entry, j: JobId, o: Option<Job>): Option<Job> {
    match e.event
    case JobCompleted(_, _, _) =>
      if o.Some? then Some(o.value.(status := Apply(Complete(e.txHash), o.value.status)))
      else Some(Placeholder(j, e.txHash))
    case _ =>
      if o.Some? then Some(o.value.(status := Apply(Expire, o.value.status))) else o
  }

  lemma DoIsLocal(op: Op, t: Table, j: JobId)
    ensures Find(Do(op, t), j) == DoEntry(op, j, Find(t, j))
  {
  }

  /** Absent, pending, under way, expired or completed. */
  function Kind(o: Option<Job>): nat {
    if o.None? then 0 else 1 + Rank(o.value.status)
  }

  /** How the entry of j after all operations, a, is related to the one after the other tasks' alone, b. */
  ghost predicate Related(e: Entry, j: JobId, read: bool, stale: bool, a: Option<Job>, b: Option<Job>) {
    && (!read || stale ==> a == b)
    && (stale ==> read && a.Some? && Rank(a.value.status) < 2)
    && (read && !stale ==> Kind(a) == Kind(SettleEntry(e, j, b)))
  }

  lemma ReadKeepsRelated(e: Entry, j: JobId, read: bool, stale: bool, a: Option<Job>, b: Option<Job>)
    requires Related(e, j, read, stale, a, b) && e.event.Settles(j)
    ensures Related(e, j, true, false, SettleEntry(e, j, a), b)
  {
  }

  lemma OtherKeepsRelated(op: Op, e: Entry, j: JobId, read: bool, stale: bool, a: Option<Job>, b: Option<Job>)
    requires Related(e, j, read, stale, a, b) && e.event.Settles(j) && Proper(op) && !op.Read?
    ensures Related(e, j, read, if InsertsFor(op, j) then read else stale && !SettlesFor(op, j),
                    DoEntry(op, j, a), DoEntry(op, j, b))
  {
  }

  lemma HasReadStep(ops: seq<Op>, op: Op, j: JobId)
    ensures HasRead(ops + [op], j) <==> HasRead(ops, j) || ReadsFor(op, j)
  {
    var all := ops + [op];
    if k :| 0 <= k < |ops| && ReadsFor(ops[k], j) {
      assert ReadsFor(all[k], j);
    }
    if ReadsFor(op, j) {
      assert ReadsFor(all[|ops|], j);
    }
  }

  lemma StaleStep(ops: seq<Op>, op: Op, j: JobId)
    ensures Stale(ops + [op], j) <==>
            if InsertsFor(op, j) then HasRead(ops, j) else Stale(ops, j) && !SettlesFor(op, j)
  {
    var all := ops + [op];
    assert all[..|ops|] == ops;
    if p :| StaleSince(all, j, p) {
      if p < |ops| {
        assert all[..p] == ops[..p];
        assert forall q :: p < q < |ops| ==> all[q] == ops[q];
        assert all[|ops|] == op && !SettlesFor(op, j);
        assert StaleSince(ops, j, p);
        HasReadPrefix(ops, p, j);
      }
    }
    if InsertsFor(op, j) && HasRead(ops, j) {
      assert StaleSince(all, j, |ops|);
    } else if p :| StaleSince(ops, j, p) {
      if !SettlesFor(op, j) {
        assert all[..p] == ops[..p];
        assert StaleSince(all, j, p);
      }
    }
  }

  lemma HasReadPrefix(ops: seq<Op>, p: nat, j: JobId)
    requires p <= |ops| && HasRead(ops[..p], j)
    ensures HasRead(ops, j)
  {
    var k :| 0 <= k < p && ReadsFor(ops[..p][k], j);
    assert ReadsFor(ops[k], j);
  }

  /** All operations against the other tasks' alone, entry by entry. */
  lemma {:induction false} EntriesRelated(ops: seq<Op>, t: Table, e: Entry, j: JobId)
    requires AllProper(ops) && e.event.Settles(j)
    requires forall k :: 0 <= k < |ops| && ReadsFor(ops[k], j) ==> ops[k].entry == e
    ensures Related(e, j, HasRead(ops, j), Stale(ops, j), Find(DoAll(ops, t), j), Find(DoAll(WritesOf(ops), t), j))
  {
    if ops == [] {
    } else {
      var front, op := ops[..|ops| - 1], ops[|ops| - 1];
      assert ops == front + [op];
      EntriesRelated(front, t, e, j);
      HasReadStep(front, op, j);
      StaleStep(front, op, j);
      DoIsLocal(op, DoAll(front, t), j);
      LastWrite(ops, t, j);
      var a, b := Find(DoAll(front, t), j), Find(DoAll(WritesOf(front), t), j);
      if ReadsFor(op, j) {
        ReadKeepsRelated(e, j, HasRead(front, j), Stale(front, j), a, b);
      } else if !op.Read? {
        OtherKeepsRelated(op, e, j, HasRead(front, j), Stale(front, j), a, b);
      }
    }
  }

  lemma LastWrite(ops: seq<Op>, t: Table, j: JobId)
    requires ops != []
    ensures var op, before := ops[|ops| - 1], DoAll(WritesOf(ops[..|ops| - 1]), t);
            Find(DoAll(WritesOf(ops), t), j) == if op.Read? then Find(before, j) else DoEntry(op, j, Find(before, j))
  {
    var front, op := ops[..|ops| - 1], ops[|ops| - 1];
    if op.Read? {
      assert WritesOf(ops) == WritesOf(front);
    } else {
      assert WritesOf(ops) == WritesOf(front) + [op];
      assert WritesOf(ops)[..|WritesOf(front)|] == WritesOf(front);
      DoIsLocal(op, DoAll(WritesOf(front), t), j);
    }
  }

  lemma {:induction false} ReadsMembers(ops: seq<Op>, e: Entry)
    ensures e in ReadsOf(ops) <==> exists k :: 0 <= k < |ops| && ops[k] == Read(e)
  {
    if ops == [] {
    } else {
      var front := ops[..|ops| - 1];
      ReadsMembers(front, e);
      if k :| 0 <= k < |front| && front[k] == Read(e) {
        assert ops[k] == Read(e);
      }
      if k :| 0 <= k < |ops| && ops[k] == Read(e) {
        assert k < |front| ==> front[k] == Read(e);
      }
    }
  }

  // ----- the whole table ------------------------------------------------------------------------

  /** The same settlement events, in any order and any number of times. */
  ghost predicate SameSettlements(es: seq<Entry>, fs: seq<Entry>) {
    forall e: Entry :: !e.event.JobSubmitted? ==> (e in es <==> e in fs)
  }

  /** Both sides of the comparison: what the table shows for j, and what it would show had the events es
      been applied in order after everything the other tasks did. */
  ghost predicate InLine(ops: seq<Op>, es: seq<Entry>, t: Table, j: JobId) {
    Kind(Find(DoAll(ops, t), j)) == Kind(Find(SettleAll(es, DoAll(WritesOf(ops), t)), j))
  }

  lemma ReadOnce(ops: seq<Op>, es: seq<Entry>, j: JobId, e: Entry)
    requires OneSettlementPerJob(es) && e in es && e.event.Settles(j)
    requires SameSettlements(ReadsOf(ops), es)
    ensures forall k :: 0 <= k < |ops| && ReadsFor(ops[k], j) ==> ops[k].entry == e
    ensures HasRead(ops, j)
  {
    forall k | 0 <= k < |ops| && ReadsFor(ops[k], j) ensures ops[k].entry == e {
      ReadsMembers(ops, ops[k].entry);
    }
    ReadsMembers(ops, e);
    var k :| 0 <= k < |ops| && ops[k] == Read(e);
    assert ReadsFor(ops[k], j);
  }

  lemma NeverRead(ops: seq<Op>, es: seq<Entry>, j: JobId)
    requires SameSettlements(ReadsOf(ops), es)
    requires forall e :: e in es ==> !e.event.Settles(j)
    ensures forall k :: 0 <= k < |ops| ==> !ReadsFor(ops[k], j)
    ensures !HasRead(ops, j)
  {
    forall k | 0 <= k < |ops| ensures !ReadsFor(ops[k], j) {
      if ReadsFor(ops[k], j) {
        ReadsMembers(ops, ops[k].entry);
      }
    }
  }

  /** Once the event has been read, being stale is what keeps an entry from being settled. */
  lemma RelatedMeans(e: Entry, j: JobId, stale: bool, a: Option<Job>, b: Option<Job>)
    requires Related(e, j, true, stale, a, b) && e.event.Settles(j)
    ensures Kind(a) == Kind(SettleEntry(e, j, b)) <==> !stale
    ensures a.Some? ==> (Rank(a.value.status) >= 2 <==> !stale)
  {
  }

  /** In-order events come down to the one of the entry. */
  lemma FoldForEntry(es: seq<Entry>, t: Table, j: JobId, e: Entry)
    requires OneSettlementPerJob(es) && e in es && e.event.Settles(j)
    ensures Find(SettleAll(es, t), j) == SettleEntry(e, j, Find(t, j))
  {
    SettledEntry(es, t, j, e);
    DoIsLocal(Read(e), t, j);
  }

  lemma ReadInLine(ops: seq<Op>, es: seq<Entry>, t: Table, j: JobId, e: Entry)
    requires AllProper(ops) && OneSettlementPerJob(es) && e in es && e.event.Settles(j)
    requires SameSettlements(ReadsOf(ops), es)
    ensures InLine(ops, es, t, j) <==> !Stale(ops, j)
    ensures j in DoAll(ops, t) ==> (Rank(DoAll(ops, t)[j].status) >= 2 <==> !Stale(ops, j))
  {
    var all, writes := DoAll(ops, t), DoAll(WritesOf(ops), t);
    ReadOnce(ops, es, j, e);
    EntriesRelated(ops, t, e, j);
    RelatedMeans(e, j, Stale(ops, j), Find(all, j), Find(writes, j));
    FoldForEntry(es, writes, j, e);
  }

  lemma UnreadInLine(ops: seq<Op>, es: seq<Entry>, t: Table, j: JobId)
    requires AllProper(ops) && OneSettlementPerJob(es) && forall e :: e in es ==> !e.event.Settles(j)
    requires SameSettlements(ReadsOf(ops), es)
    ensures InLine(ops, es, t, j) && !Stale(ops, j)
  {
    NeverRead(ops, es, j);
    var any := Entry(Escrow.JobExpired(j), j);
    EntriesRelated(ops, t, any, j);
    SettledEntry(es, DoAll(WritesOf(ops), t), j, any);
  }

  ghost predicate HasSettlement(es: seq<Entry>, j: JobId) {
    exists e :: e in es && e.event.Settles(j)
  }

  lemma EntryInLine(ops: seq<Op>, es: seq<Entry>, t: Table, j: JobId)
    requires AllProper(ops) && OneSettlementPerJob(es) && SameSettlements(ReadsOf(ops), es)
    ensures InLine(ops, es, t, j) <==> !Stale(ops, j)
    ensures HasSettlement(es, j) && j in DoAll(ops, t) ==>
              (Rank(DoAll(ops, t)[j].status) >= 2 <==> !Stale(ops, j))
  {
    if e :| e in es && e.event.Settles(j) {
      ReadInLine(ops, es, t, j, e);
    } else {
      UnreadInLine(ops, es, t, j);
    }
  }

  lemma SameCover(es: seq<Entry>, fs: seq<Entry>, final: Chain, start: nat, lastBlock: nat, tried: nat)
    requires lastBlock <= tried < |final|
    requires Covers(es, final, start, lastBlock, tried) && Covers(fs, final, start, lastBlock, tried)
    ensures SameSettlements(es, fs)
  {
    forall e: Entry | !e.event.JobSubmitted? ensures e in es <==> e in fs {
      assert e in es <==> Known(final, start, lastBlock, tried, e);
    }
  }

  lemma KnownIsRead(rounds: seq<Round>, final: Chain, v: View, es: seq<Entry>)
    requires Reads(rounds, final) && v.lastBlock < |final|
    requires Covers(es, final, v.lastBlock, PollAll(rounds, final, v).lastBlock, Tried(rounds, final, v))
    ensures SameSettlements(AppliedAll(rounds, final, v), es)
  {
    PollsCoverKnown(rounds, final, v);
    SameCover(AppliedAll(rounds, final, v), es, final, v.lastBlock, PollAll(rounds, final, v).lastBlock,
              Tried(rounds, final, v));
  }

  /** After any polls, failed ones too, however the other tasks interleave with them: an entry is where
      the known events, applied after everything else, would have put it, if and only if it is not stale;
      and if one of them settles it, it is shown as settled if and only if it is not stale. */
  lemma PollsReconcile(ops: seq<Op>, rounds: seq<Round>, final: Chain, v: View, es: seq<Entry>, j: JobId)
    requires Reads(rounds, final) && v.lastBlock < |final| && OneSettlementPerJob(Flatten(final))
    requires AllProper(ops) && ReadsOf(ops) == AppliedAll(rounds, final, v)
    requires Covers(es, final, v.lastBlock, PollAll(rounds, final, v).lastBlock, Tried(rounds, final, v))
    ensures InLine(ops, es, v.table, j) <==> !Stale(ops, j)
    ensures HasSettlement(es, j) && j in DoAll(ops, v.table) ==>
              (Rank(DoAll(ops, v.table)[j].status) >= 2 <==> !Stale(ops, j))
  {
    KnownIsRead(rounds, final, v, es);
    OneSettlementTransfers(es, final, v.lastBlock, PollAll(rounds, final, v).lastBlock, Tried(rounds, final, v));
    EntryInLine(ops, es, v.table, j);
  }

  lemma CaughtUpCovers(rounds: seq<Round>, final: Chain, v: View)
    requires Reads(rounds, final) && v.lastBlock < |final|
    requires Tried(rounds, final, v) == PollAll(rounds, final, v).lastBlock
    ensures Covers(Window(final, v.lastBlock + 1, PollAll(rounds, final, v).lastBlock), final, v.lastBlock,
                   PollAll(rounds, final, v).lastBlock, Tried(rounds, final, v))
  {
    WindowCovers(final, v.lastBlock, PollAll(rounds, final, v).lastBlock);
  }

  /** Over the log of any history of the contract, once the polls have caught up, the known events are
      those of blocks start+1..last_block, in order: what one in-order pass at the end would show, the
      table shows already, except for the stale entries. */
  lemma IndexerReconciles(env: Escrow.Env, txs: seq<Escrow.Tx>, ops: seq<Op>, rounds: seq<Round>, final: Chain,
                          v: View, j: JobId)
    requires Reads(rounds, final) && v.lastBlock < |final| && Flatten(final) == Logged(env, txs)
    requires AllProper(ops) && ReadsOf(ops) == AppliedAll(rounds, final, v)
    requires Tried(rounds, final, v) == PollAll(rounds, final, v).lastBlock
    ensures var es := Window(final, v.lastBlock + 1, PollAll(rounds, final, v).lastBlock);
            && (InLine(ops, es, v.table, j) <==> !Stale(ops, j))
            && (HasSettlement(es, j) && j in DoAll(ops, v.table) ==>
                  (Rank(DoAll(ops, v.table)[j].status) >= 2 <==> !Stale(ops, j)))
  {
    ContractSettlesOnce(env, txs);
    CaughtUpCovers(rounds, final, v);
    PollsReconcile(ops, rounds, final, v, Window(final, v.lastBlock + 1, PollAll(rounds, final, v).lastBlock), j);
  }

  // ----- a stale entry stays stale --------------------------------------------------------------

  /** No job is settled by events in two different blocks. */
  ghost predicate SettledInOneBlock(final: Chain) {
    forall b, c, e, f, j: JobId :: 0 <= b < c < |final| && e in final[b] && f in final[c] ==>
      !(e.event.Settles(j) && f.event.Settles(j))
  }

  lemma {:induction false} FlattenPrefix(blocks: Chain, b: nat)
    requires b <= |blocks|
    ensures Flatten(blocks[..b]) <= Flatten(blocks)
  {
    if b == |blocks| {
      assert blocks[..b] == blocks;
    } else {
      assert blocks[..|blocks| - 1][..b] == blocks[..b];
      FlattenPrefix(blocks[..|blocks| - 1], b);
    }
  }

  /** Where in the whole log an entry of block b is found. */
  lemma FlattenAt(blocks: Chain, b: nat, e: Entry) returns (i: nat)
    requires b < |blocks| && e in blocks[b]
    ensures |Flatten(blocks[..b])| <= i < |Flatten(blocks[..b + 1])| <= |Flatten(blocks)|
    ensures Flatten(blocks)[i] == e
  {
    var upTo := blocks[..b + 1];
    assert upTo[..b] == blocks[..b];
    var k :| 0 <= k < |blocks[b]| && blocks[b][k] == e;
    i := |Flatten(blocks[..b])| + k;
    assert Flatten(upTo) == Flatten(blocks[..b]) + blocks[b];
    FlattenPrefix(blocks, b + 1);
  }

  /** Entries of different blocks are found at different places, in order. */
  lemma FlattenInOrder(blocks: Chain, b: nat, c: nat, e: Entry, f: Entry) returns (i: nat, k: nat)
    requires b < c < |blocks| && e in blocks[b] && f in blocks[c]
    ensures i < k < |Flatten(blocks)| && Flatten(blocks)[i] == e && Flatten(blocks)[k] == f
  {
    i := FlattenAt(blocks, b, e);
    k := FlattenAt(blocks, c, f);
    assert |Flatten(blocks[..b + 1])| <= |Flatten(blocks[..c])| by {
      assert blocks[..c][..b + 1] == blocks[..b + 1];
      FlattenPrefix(blocks[..c], b + 1);
    }
  }

  lemma LogSettlesOnce(env: Escrow.Env, txs: seq<Escrow.Tx>, i: nat, k: nat, j: JobId)
    requires i < k < |Logged(env, txs)| && Logged(env, txs)[i].event.Settles(j)
    ensures !Logged(env, txs)[k].event.Settles(j)
  {
    LoggedIsTheLog(env, txs);
    Escrow.HistoryKeeps(env, txs);
    var log := Escrow.After(env, txs).log;
    if log[k].Settles(j) {
      TwoSettlements(log, i, k, j);
    }
  }

  /** The contract's histories, however they are cut into blocks, settle each job in one block. */
  lemma ContractSettlesInOneBlock(env: Escrow.Env, txs: seq<Escrow.Tx>, final: Chain)
    requires Flatten(final) == Logged(env, txs)
    ensures SettledInOneBlock(final)
  {
    forall b, c, e, f, j: JobId | 0 <= b < c < |final| && e in final[b] && f in final[c] && e.event.Settles(j)
      ensures !f.event.Settles(j)
    {
      var i, k := FlattenInOrder(final, b, c, e, f);
      LogSettlesOnce(env, txs, i, k, j);
    }
  }

  /** What polls from block lastBlock on read of settlements is in later blocks. */
  lemma ReadsAreLater(later: seq<Op>, more: seq<Round>, final: Chain, v: View, f: Entry) returns (c: nat)
    requires Reads(more, final) && v.lastBlock < |final| && ReadsOf(later) == AppliedAll(more, final, v)
    requires f in ReadsOf(later) && !f.event.JobSubmitted?
    ensures v.lastBlock < c < |final| && f in final[c]
  {
    PollsCoverKnown(more, final, v);
    assert Known(final, v.lastBlock, PollAll(more, final, v).lastBlock, Tried(more, final, v), f);
    c :| v.lastBlock < c <= Tried(more, final, v) && f in final[c];
  }

  /** So they never read again what was settled before. */
  lemma LaterReadsMiss(later: seq<Op>, more: seq<Round>, final: Chain, v: View, j: JobId, b: nat, e: Entry)
    requires Reads(more, final) && v.lastBlock < |final| && SettledInOneBlock(final)
    requires ReadsOf(later) == AppliedAll(more, final, v)
    requires b <= v.lastBlock && e in final[b] && e.event.Settles(j)
    ensures forall k :: 0 <= k < |later| ==> !ReadsFor(later[k], j)
  {
    forall k | 0 <= k < |later| && later[k].Read? && !later[k].entry.event.JobSubmitted?
      ensures !ReadsFor(later[k], j)
    {
      ReadsMembers(later, later[k].entry);
      var _ := ReadsAreLater(later, more, final, v, later[k].entry);
    }
  }

  /** An entry that is stale when the polls have passed its settlement is stale for good as far as the
      indexer is concerned: whatever is polled later, it stays so until its id is inserted anew or
      another task confirms its completion. */
  lemma StaleForGood(env: Escrow.Env, txs: seq<Escrow.Tx>, ops: seq<Op>, later: seq<Op>, more: seq<Round>,
                     final: Chain, v: View, j: JobId, b: nat, e: Entry)
    requires Reads(more, final) && v.lastBlock < |final| && Flatten(final) == Logged(env, txs)
    requires ReadsOf(later) == AppliedAll(more, final, v)
    requires b <= v.lastBlock && e in final[b] && e.event.Settles(j)
    requires forall k :: 0 <= k < |later| ==> !InsertsFor(later[k], j)
    ensures Stale(ops + later, j) <==>
            && Stale(ops, j)
            && forall k :: 0 <= k < |later| ==> !(later[k].Write? && later[k].id == j && later[k].u.Complete?)
  {
    ContractSettlesInOneBlock(env, txs, final);
    LaterReadsMiss(later, more, final, v, j, b, e);
    StaleThroughout(ops, later, j);
  }

  lemma {:induction false} StaleThroughout(ops: seq<Op>, later: seq<Op>, j: JobId)
    requires forall k :: 0 <= k < |later| ==> !InsertsFor(later[k], j)
    ensures Stale(ops + later, j) <==> Stale(ops, j) && forall k :: 0 <= k < |later| ==> !SettlesFor(later[k], j)
  {
    if later == [] {
      assert ops + later == ops;
    } else {
      var front, op := later[..|later| - 1], later[|later| - 1];
      assert ops + later == ops + front + [op];
      StaleThroughout(ops, front, j);
      StaleStep(ops + front, op, j);
      assert forall k :: 0 <= k < |front| ==> front[k] == later[k];
    }
  }
}
