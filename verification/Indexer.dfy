/** The indexer (crates/indexer/src/lib.rs): a windowed reader of the contract's events that may
    fail at any query and try again. */
module Indexer {
  import opened Core
  import opened Jobs
  import Escrow

  /** A log entry: an event and the hash of the transaction that emitted it. */
  datatype Entry = Entry(event: Escrow.Event, txHash: TxHash)

  /** The logs of each block; the index is the block number. */
  type Chain = seq<seq<Entry>>

  function Flatten(blocks: Chain): seq<Entry> {
    if blocks == [] then [] else Flatten(blocks[..|blocks| - 1]) + blocks[|blocks| - 1]
  }

  /** The logs of blocks from..to, both included. */
  function Window(chain: Chain, from: nat, to: nat): seq<Entry>
    requires to < |chain|
  {
    if to < from then [] else Flatten(chain[from..to + 1])
  }

  function CompletedLogs(es: seq<Entry>): (r: seq<Entry>)
    ensures forall e :: e in r <==> e in es && e.event.JobCompleted?
  {
    if es == [] then []
    else (if es[0].event.JobCompleted? then [es[0]] else []) + CompletedLogs(es[1..])
  }

  function ExpiredLogs(es: seq<Entry>): (r: seq<Entry>)
    ensures forall e :: e in r <==> e in es && e.event.JobExpired?
  {
    if es == [] then []
    else (if es[0].event.JobExpired? then [es[0]] else []) + ExpiredLogs(es[1..])
  }

  // ----- what one event does ------------------------------------------------------------------

  function Settle(e: Entry, t: Table): Table {
    match e.event
    case JobSubmitted(_, _, _, _) => t
    case JobCompleted(id, _, _) =>
      if id in t then UpdateEntry(t, id, Complete(e.txHash)) else t[id := Placeholder(id, e.txHash)]
    case JobExpired(id) => UpdateEntry(t, id, Expire)
  }

  /** The reference: events applied once each, in order. */
  function SettleAll(es: seq<Entry>, t: Table): Table {
    if es == [] then t else SettleAll(es[1..], Settle(es[0], t))
  }

  function Find(t: Table, id: JobId): Option<Job> {
    if id in t then Some(t[id]) else None
  }

  /** At most one event settles each job. */
  ghost predicate OneSettlementPerJob(es: seq<Entry>) {
    forall e, f, j: JobId :: e in es && f in es && e.event.Settles(j) && f.event.Settles(j) ==> e == f
  }

  lemma {:induction false} SettleAllConcat(es: seq<Entry>, fs: seq<Entry>, t: Table)
    ensures SettleAll(es + fs, t) == SettleAll(fs, SettleAll(es, t))
  {
    if es == [] {
      assert es + fs == fs;
    } else {
      assert (es + fs)[1..] == es[1..] + fs;
      SettleAllConcat(es[1..], fs, Settle(es[0], t));
    }
  }

  /** Applying a job's settlement event again changes nothing, and it reads nothing but the job's
      own entry. */
  lemma SettleIsLocal(e: Entry, f: Entry, t: Table, u: Table, j: JobId)
    ensures !e.event.Settles(j) ==> Find(Settle(e, t), j) == Find(t, j)
    ensures Find(t, j) == Find(u, j) && e.event.Settles(j) ==> Find(Settle(e, t), j) == Find(Settle(e, u), j)
    ensures e.event.Settles(j) ==> Find(Settle(e, Settle(e, t)), j) == Find(Settle(e, t), j)
  {
  }

  lemma {:induction false} SettledEntry(es: seq<Entry>, t: Table, j: JobId, e: Entry)
    requires OneSettlementPerJob(es)
    ensures (forall f :: f in es ==> !f.event.Settles(j)) ==> Find(SettleAll(es, t), j) == Find(t, j)
    ensures e in es && e.event.Settles(j) ==> Find(SettleAll(es, t), j) == Find(Settle(e, t), j)
  {
    if es == [] {
    } else {
      assert OneSettlementPerJob(es[1..]);
      var next := Settle(es[0], t);
      SettledEntry(es[1..], next, j, e);
      SettleIsLocal(es[0], e, t, next, j);
      SettleIsLocal(e, e, t, next, j);
    }
  }

  /** The table depends only on which events were applied, not on their order nor on how often. */
  lemma SettleAllBySet(es: seq<Entry>, fs: seq<Entry>, t: Table)
    requires OneSettlementPerJob(es)
    requires forall e: Entry :: !e.event.JobSubmitted? ==> (e in es <==> e in fs)
    ensures SettleAll(es, t) == SettleAll(fs, t)
  {
    assert OneSettlementPerJob(fs);
    forall j: JobId
      ensures Find(SettleAll(es, t), j) == Find(SettleAll(fs, t), j)
    {
      if e :| e in es && e.event.Settles(j) {
        SettledEntry(es, t, j, e);
        SettledEntry(fs, t, j, e);
      } else {
        var any := Entry(Escrow.JobExpired(j), j);
        SettledEntry(es, t, j, any);
        SettledEntry(fs, t, j, any);
      }
    }
    SameEntries(SettleAll(es, t), SettleAll(fs, t));
  }

  lemma SameEntries(t: Table, u: Table)
    requires forall j: JobId :: Find(t, j) == Find(u, j)
    ensures t == u
  {
    assert forall j: JobId :: (j in t) == (Find(t, j).Some?) && (j in u) == (Find(u, j).Some?);
    forall j | j in t ensures j in u && t[j] == u[j] {
      assert Find(t, j) == Find(u, j);
    }
    forall j | j in u ensures j in t {
      assert Find(t, j) == Find(u, j);
    }
  }

  // ----- polling ------------------------------------------------------------------------------

  /** How the provider answers the three queries of one poll: the block number, or a failure, and
      whether each log query succeeds. */
  datatype Answers = Answers(head: Option<nat>, completedOk: bool, expiredOk: bool)

  datatype View = View(lastBlock: nat, table: Table)

  class Indexer {
    const jobs: JobTable
    var lastBlock: nat

    constructor (jobs: JobTable, startBlock: nat)
      ensures this.jobs == jobs && lastBlock == startBlock
    {
      this.jobs := jobs;
      lastBlock := startBlock;
    }

    method HandleJobCompleted(id: JobId, txHash: TxHash)
      modifies jobs
      ensures jobs.entries ==
              (if id in old(jobs.entries) then UpdateEntry(old(jobs.entries), id, Complete(txHash))
               else old(jobs.entries)[id := Placeholder(id, txHash)])
      ensures id !in old(jobs.entries) ==>
                jobs.entries == old(jobs.entries)[id := Job(id, Completed(txHash), seq(20, i => 0), [], 0, 0, 0)]
      ensures id in old(jobs.entries) ==>
                var job := old(jobs.entries)[id];
                jobs.entries ==
                old(jobs.entries)[id := if job.status.Completed? then job else job.(status := Completed(txHash))]
    {
      if id in jobs.entries {
        var job := jobs.entries[id];
        if !job.status.Completed? {
          job := job.(status := Completed(txHash));
        }
        jobs.entries := jobs.entries[id := job];
      } else {
        jobs.entries := jobs.entries[id := Job(id, Completed(txHash), seq(20, i => 0), [], 0, 0, 0)];
      }
    }

    method HandleJobExpired(id: JobId)
      modifies jobs
      ensures jobs.entries == UpdateEntry(old(jobs.entries), id, Expire)
      ensures id !in old(jobs.entries) ==> jobs.entries == old(jobs.entries)
      ensures id in old(jobs.entries) ==>
                var job := old(jobs.entries)[id];
                jobs.entries ==
                old(jobs.entries)[id := if job.status.Completed? then job else job.(status := Expired)]
    {
      if id in jobs.entries {
        var job := jobs.entries[id];
        if !(job.status.Completed? || job.status.Expired?) {
          job := job.(status := Expired);
        }
        jobs.entries := jobs.entries[id := job];
      }
    }

    method ProcessJobCompletedEvents(chain: Chain, from: nat, to: nat)
      requires to < |chain|
      modifies jobs
      ensures jobs.entries == SettleAll(CompletedLogs(Window(chain, from, to)), old(jobs.entries))
    {
      var logs := CompletedLogs(Window(chain, from, to));
      for i := 0 to |logs|
        invariant SettleAll(logs, old(jobs.entries)) == SettleAll(logs[i..], jobs.entries)
      {
        assert logs[i..][1..] == logs[i + 1..];
        assert logs[i] in logs;
        HandleJobCompleted(logs[i].event.id, logs[i].txHash);
      }
    }

    method ProcessJobExpiredEvents(chain: Chain, from: nat, to: nat)
      requires to < |chain|
      modifies jobs
      ensures jobs.entries == SettleAll(ExpiredLogs(Window(chain, from, to)), old(jobs.entries))
    {
      var logs := ExpiredLogs(Window(chain, from, to));
      for i := 0 to |logs|
        invariant SettleAll(logs, old(jobs.entries)) == SettleAll(logs[i..], jobs.entries)
      {
        assert logs[i..][1..] == logs[i + 1..];
        assert logs[i] in logs;
        HandleJobExpired(logs[i].event.id);
      }
    }

    /** One poll; `ok` is false when a query failed. */
    method PollEvents(chain: Chain, a: Answers) returns (ok: bool)
      requires a.head.Some? ==> a.head.value < |chain|
      modifies this, jobs
      ensures View(lastBlock, jobs.entries) == Poll(chain, a, View(old(lastBlock), old(jobs.entries)))
      ensures var fetched := a.head.Some? && a.head.value > old(lastBlock) && a.completedOk;
              && lastBlock == (if fetched && a.expiredOk then a.head.value else old(lastBlock))
              && (!fetched ==> jobs.entries == old(jobs.entries))
      ensures ok <==> a.head.Some? && (a.head.value <= old(lastBlock) || (a.completedOk && a.expiredOk))
    {
      if a.head.None? { return false; }
      var currentBlock := a.head.value;
      if currentBlock <= lastBlock { return true; }
      var from, to := lastBlock + 1, currentBlock;
      if !a.completedOk { return false; }
      ghost var window := Window(chain, from, to);
      SettleAllConcat(CompletedLogs(window), if a.expiredOk then ExpiredLogs(window) else [], jobs.entries);
      ProcessJobCompletedEvents(chain, from, to);
      if !a.expiredOk { return false; }
      ProcessJobExpiredEvents(chain, from, to);
      lastBlock := currentBlock;
      return true;
    }
  }

  /** The events a poll applies, in the order it applies them. */
  function Applied(chain: Chain, a: Answers, lastBlock: nat): seq<Entry>
    requires a.head.Some? ==> a.head.value < |chain|
  {
    if a.head.None? || a.head.value <= lastBlock || !a.completedOk then []
    else
      var window := Window(chain, lastBlock + 1, a.head.value);
      CompletedLogs(window) + if a.expiredOk then ExpiredLogs(window) else []
  }

  function Poll(chain: Chain, a: Answers, v: View): View
    requires a.head.Some? ==> a.head.value < |chain|
  {
    var advances := a.head.Some? && a.head.value > v.lastBlock && a.completedOk && a.expiredOk;
    View(if advances then a.head.value else v.lastBlock, SettleAll(Applied(chain, a, v.lastBlock), v.table))
  }

  // ----- runs of polls ------------------------------------------------------------------------

  /** A poll and the chain as it was when the poll read it. */
  datatype Round = Round(chain: Chain, answers: Answers)

  /** Rounds that all read prefixes of the append-only chain `final`. */
  ghost predicate Reads(rounds: seq<Round>, final: Chain) {
    forall r :: r in rounds ==> r.chain <= final && (r.answers.head.Some? ==> r.answers.head.value < |r.chain|)
  }

  function PollAll(rounds: seq<Round>, final: Chain, v: View): View
    requires Reads(rounds, final)
  {
    if rounds == [] then v
    else
      var last := rounds[|rounds| - 1];
      Poll(last.chain, last.answers, PollAll(rounds[..|rounds| - 1], final, v))
  }

  /** The greatest height whose completions a poll has applied. */
  function Tried(rounds: seq<Round>, final: Chain, v: View): (h: nat)
    requires Reads(rounds, final)
    ensures v.lastBlock <= PollAll(rounds, final, v).lastBlock <= h
    ensures v.lastBlock < |final| ==> h < |final|
  {
    if rounds == [] then v.lastBlock
    else
      NextTried(Tried(rounds[..|rounds| - 1], final, v), rounds[|rounds| - 1].answers)
  }

  lemma WindowStable(chain: Chain, final: Chain, from: nat, to: nat)
    requires chain <= final && to < |chain|
    ensures Window(chain, from, to) == Window(final, from, to)
  {
    if from <= to {
      assert chain[from..to + 1] == final[from..to + 1];
    }
  }

  lemma {:induction false} FlattenMembers(blocks: Chain, e: Entry)
    ensures e in Flatten(blocks) <==> exists b :: 0 <= b < |blocks| && e in blocks[b]
  {
    if blocks == [] {
    } else {
      FlattenMembers(blocks[..|blocks| - 1], e);
    }
  }

  lemma WindowMembers(chain: Chain, from: nat, to: nat, e: Entry)
    requires to < |chain|
    ensures e in Window(chain, from, to) <==> exists b :: from <= b <= to && e in chain[b]
  {
    if from <= to {
      var w := chain[from..to + 1];
      FlattenMembers(w, e);
      if b :| from <= b <= to && e in chain[b] {
        assert w[b - from] == chain[b];
      }
    }
  }

  /** The event is in a fully read block, or is a completion in a block whose poll then failed. */
  ghost predicate Known(final: Chain, start: nat, lastBlock: nat, tried: nat, e: Entry)
    requires lastBlock <= tried < |final|
  {
    exists b :: start < b <= tried && e in final[b] && (b <= lastBlock || e.event.JobCompleted?)
  }

  /** The settlement events among es are exactly the known ones. */
  ghost predicate Covers(es: seq<Entry>, final: Chain, start: nat, lastBlock: nat, tried: nat)
    requires lastBlock <= tried < |final|
  {
    forall e: Entry :: !e.event.JobSubmitted? ==> (e in es <==> Known(final, start, lastBlock, tried, e))
  }

  /** Everything the polls applied, repetitions included. */
  function AppliedAll(rounds: seq<Round>, final: Chain, v: View): seq<Entry>
    requires Reads(rounds, final)
  {
    if rounds == [] then []
    else
      var front, last := rounds[..|rounds| - 1], rounds[|rounds| - 1];
      AppliedAll(front, final, v) + Applied(last.chain, last.answers, PollAll(front, final, v).lastBlock)
  }

  lemma {:induction false} PollsApplyAll(rounds: seq<Round>, final: Chain, v: View)
    requires Reads(rounds, final)
    ensures PollAll(rounds, final, v).table == SettleAll(AppliedAll(rounds, final, v), v.table)
  {
    if rounds == [] {
    } else {
      var front, last := rounds[..|rounds| - 1], rounds[|rounds| - 1];
      PollsApplyAll(front, final, v);
      var w := PollAll(front, final, v);
      SettleAllConcat(AppliedAll(front, final, v), Applied(last.chain, last.answers, w.lastBlock), v.table);
    }
  }

  /** The events a poll up to `head` applies are exactly those that become known. */
  lemma KnownGrows(final: Chain, start: nat, lastBlock: nat, tried: nat, head: nat, expiredOk: bool, e: Entry)
    requires start <= lastBlock <= tried < |final| && lastBlock < head < |final| && !e.event.JobSubmitted?
    ensures Known(final, start, if expiredOk then head else lastBlock, if head > tried then head else tried, e) <==>
            Known(final, start, lastBlock, tried, e) ||
            (e in Window(final, lastBlock + 1, head) && (e.event.JobCompleted? || expiredOk))
  {
    WindowMembers(final, lastBlock + 1, head, e);
  }

  lemma CoversGrows(es: seq<Entry>, final: Chain, start: nat, lastBlock: nat, tried: nat, a: Answers)
    requires start <= lastBlock <= tried < |final| && Covers(es, final, start, lastBlock, tried)
    requires a.head.Some? && lastBlock < a.head.value < |final| && a.completedOk
    ensures Covers(es + Applied(final, a, lastBlock), final, start,
                   if a.expiredOk then a.head.value else lastBlock,
                   if a.head.value > tried then a.head.value else tried)
  {
    var applied := Applied(final, a, lastBlock);
    forall e: Entry | !e.event.JobSubmitted?
      ensures e in es + applied <==>
              Known(final, start, if a.expiredOk then a.head.value else lastBlock,
                    if a.head.value > tried then a.head.value else tried, e)
    {
      KnownGrows(final, start, lastBlock, tried, a.head.value, a.expiredOk, e);
      AppliedMembers(final, a, lastBlock, e);
      assert Known(final, start, lastBlock, tried, e) <==> e in es;
    }
  }

  lemma AppliedMembers(chain: Chain, a: Answers, lastBlock: nat, e: Entry)
    requires a.head.Some? && lastBlock < a.head.value < |chain| && a.completedOk && !e.event.JobSubmitted?
    ensures e in Applied(chain, a, lastBlock) <==>
            e in Window(chain, lastBlock + 1, a.head.value) && (e.event.JobCompleted? || a.expiredOk)
  {
  }

  function NextTried(tried: nat, a: Answers): nat {
    if a.head.Some? && a.completedOk && a.head.value > tried then a.head.value else tried
  }

  lemma OneMorePoll(es: seq<Entry>, chain: Chain, final: Chain, start: nat, w: View, tried: nat, a: Answers)
    requires start <= w.lastBlock <= tried < |final| && Covers(es, final, start, w.lastBlock, tried)
    requires chain <= final && (a.head.Some? ==> a.head.value < |chain|)
    ensures Poll(chain, a, w).lastBlock <= NextTried(tried, a) < |final|
    ensures Covers(es + Applied(chain, a, w.lastBlock), final, start, Poll(chain, a, w).lastBlock, NextTried(tried, a))
  {
    if a.head.Some? && a.head.value > w.lastBlock && a.completedOk {
      WindowStable(chain, final, w.lastBlock + 1, a.head.value);
      CoversGrows(es, final, start, w.lastBlock, tried, a);
    } else {
      assert es + Applied(chain, a, w.lastBlock) == es;
    }
  }

  lemma {:induction false} PollsCoverKnown(rounds: seq<Round>, final: Chain, v: View)
    requires Reads(rounds, final) && v.lastBlock < |final|
    ensures Covers(AppliedAll(rounds, final, v), final, v.lastBlock, PollAll(rounds, final, v).lastBlock,
                   Tried(rounds, final, v))
  {
    if rounds == [] {
    } else {
      var front, last := rounds[..|rounds| - 1], rounds[|rounds| - 1];
      PollsCoverKnown(front, final, v);
      OneMorePoll(AppliedAll(front, final, v), last.chain, final, v.lastBlock, PollAll(front, final, v),
                  Tried(front, final, v), last.answers);
    }
  }

  lemma OneSettlementTransfers(es: seq<Entry>, final: Chain, start: nat, lastBlock: nat, tried: nat)
    requires lastBlock <= tried < |final| && Covers(es, final, start, lastBlock, tried)
    requires OneSettlementPerJob(Flatten(final))
    ensures OneSettlementPerJob(es)
  {
    forall e | e in es && !e.event.JobSubmitted? ensures e in Flatten(final) {
      assert Known(final, start, lastBlock, tried, e);
      FlattenMembers(final, e);
    }
  }

  /** After any polls, failed ones included, the table is the starting table with the known events
      applied, in any order and any number of times: a failed poll only applies completions early. */
  lemma PollsApplyKnown(rounds: seq<Round>, final: Chain, v: View, es: seq<Entry>)
    requires Reads(rounds, final) && v.lastBlock < |final| && OneSettlementPerJob(Flatten(final))
    requires Covers(es, final, v.lastBlock, PollAll(rounds, final, v).lastBlock, Tried(rounds, final, v))
    ensures PollAll(rounds, final, v).table == SettleAll(es, v.table)
  {
    var all := AppliedAll(rounds, final, v);
    PollsApplyAll(rounds, final, v);
    PollsCoverKnown(rounds, final, v);
    OneSettlementTransfers(all, final, v.lastBlock, PollAll(rounds, final, v).lastBlock, Tried(rounds, final, v));
    SettleAllBySet(all, es, v.table);
  }

  lemma WindowCovers(final: Chain, start: nat, lastBlock: nat)
    requires lastBlock < |final|
    ensures Covers(Window(final, start + 1, lastBlock), final, start, lastBlock, lastBlock)
  {
    forall e: Entry
      ensures e in Window(final, start + 1, lastBlock) <==> Known(final, start, lastBlock, lastBlock, e)
    {
      WindowMembers(final, start + 1, lastBlock, e);
    }
  }

  /** Refinement: unless a failed poll has read completions above last_block, the table is the
      starting table with the events of blocks start+1..last_block applied once each, in order. */
  lemma IndexerRefinesFold(rounds: seq<Round>, final: Chain, v: View)
    requires Reads(rounds, final) && v.lastBlock < |final| && OneSettlementPerJob(Flatten(final))
    requires Tried(rounds, final, v) == PollAll(rounds, final, v).lastBlock
    ensures var w := PollAll(rounds, final, v);
            w.table == SettleAll(Window(final, v.lastBlock + 1, w.lastBlock), v.table)
  {
    var w, tried := PollAll(rounds, final, v), Tried(rounds, final, v);
    var window := Window(final, v.lastBlock + 1, w.lastBlock);
    assert Covers(window, final, v.lastBlock, w.lastBlock, tried) by {
      WindowCovers(final, v.lastBlock, w.lastBlock);
    }
    PollsApplyKnown(rounds, final, v, window);
  }

  /** A poll that succeeds at a height no lower than any tried before catches up. */
  lemma SuccessCatchesUp(rounds: seq<Round>, final: Chain, v: View)
    requires Reads(rounds, final) && rounds != []
    requires var a := rounds[|rounds| - 1].answers;
             a.head.Some? && a.completedOk && a.expiredOk && a.head.value >= Tried(rounds[..|rounds| - 1], final, v)
    ensures Tried(rounds, final, v) == PollAll(rounds, final, v).lastBlock
  {
  }

  // ----- the chain is the contract's ----------------------------------------------------------

  function Stamp(events: seq<Escrow.Event>, txHash: TxHash): seq<Entry> {
    seq(|events|, i requires 0 <= i < |events| => Entry(events[i], txHash))
  }

  /** The log of a history of contract transactions. */
  function Logged(env: Escrow.Env, txs: seq<Escrow.Tx>): seq<Entry> {
    if txs == [] then []
    else
      var front, last := txs[..|txs| - 1], txs[|txs| - 1];
      var before, after := Escrow.After(env, front).log, Escrow.After(env, txs).log;
      Logged(env, front) + Stamp(if |before| <= |after| then after[|before|..] else [], last.hash)
  }

  lemma {:induction false} LoggedIsTheLog(env: Escrow.Env, txs: seq<Escrow.Tx>)
    ensures var log := Escrow.After(env, txs).log;
            |Logged(env, txs)| == |log| && forall i :: 0 <= i < |log| ==> Logged(env, txs)[i].event == log[i]
  {
    if txs == [] {
    } else {
      var front := txs[..|txs| - 1];
      LoggedIsTheLog(env, front);
      Escrow.HistoryExtends(env, txs, |txs| - 1);
      var before, after := Escrow.After(env, front).log, Escrow.After(env, txs).log;
      assert after == before + after[|before|..];
    }
  }

  lemma {:induction false} TwoSettlements(log: seq<Escrow.Event>, i: nat, k: nat, j: JobId)
    requires i < k < |log| && log[i].Settles(j) && log[k].Settles(j)
    ensures Escrow.Settlements(log, j) >= 2
  {
    if k == |log| - 1 {
      OneSettlement(log[..k], i, j);
    } else {
      TwoSettlements(log[..|log| - 1], i, k, j);
    }
  }

  lemma {:induction false} OneSettlement(log: seq<Escrow.Event>, i: nat, j: JobId)
    requires i < |log| && log[i].Settles(j)
    ensures Escrow.Settlements(log, j) >= 1
  {
    if i == |log| - 1 {
    } else {
      OneSettlement(log[..|log| - 1], i, j);
    }
  }

  /** The contract's histories supply what the indexer relies on. */
  lemma ContractSettlesOnce(env: Escrow.Env, txs: seq<Escrow.Tx>)
    ensures OneSettlementPerJob(Logged(env, txs))
  {
    LoggedIsTheLog(env, txs);
    Escrow.HistoryKeeps(env, txs);
    var es, log := Logged(env, txs), Escrow.After(env, txs).log;
    forall e, f, j: JobId | e in es && f in es && e.event.Settles(j) && f.event.Settles(j)
      ensures e == f
    {
      var i :| 0 <= i < |es| && es[i] == e;
      var k :| 0 <= k < |es| && es[k] == f;
      assert log[i].Settles(j) && log[k].Settles(j);
      assert Escrow.Settlements(log, j) <= 1;
      if i < k {
        TwoSettlements(log, i, k, j);
      } else if k < i {
        TwoSettlements(log, k, i, j);
      }
    }
  }

  /** End to end: over the log of any history of contract transactions, however it is cut into
      blocks, the indexer agrees with one in-order pass. */
  lemma IndexerAgreesWithContract(env: Escrow.Env, txs: seq<Escrow.Tx>, rounds: seq<Round>, final: Chain, v: View)
    requires Flatten(final) == Logged(env, txs)
    requires Reads(rounds, final) && v.lastBlock < |final|
    requires Tried(rounds, final, v) == PollAll(rounds, final, v).lastBlock
    ensures var w := PollAll(rounds, final, v);
            w.table == SettleAll(Window(final, v.lastBlock + 1, w.lastBlock), v.table)
  {
    ContractSettlesOnce(env, txs);
    IndexerRefinesFold(rounds, final, v);
  }
}
