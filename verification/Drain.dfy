/** The claim protocol comes to rest: without new offers a run takes only finitely many steps, and where no
    step is left every queue is empty and, with no more workers than the fanout, every winner has started
    and every worker is idle again. */
module Drain {
  import opened Core
  import opened Jobs
  import opened Star
  import Worker

  // ----- the measure ----------------------------------------------------------------------------

  function Times(n: nat, c: nat): nat {
    if n == 0 then 0 else c + Times(n - 1, c)
  }

  /** Enough for the reply to a claim to go out and be taken in. */
  function ClaimWeight(fanout: nat): nat {
    5 * fanout + 2
  }

  /** An offer may cause a claim, an acceptance a proving task. */
  function MessageWeight(m: GossipMessage, fanout: nat): nat {
    if m.JobAvailable? then ClaimWeight(fanout) + 1 else if m.ClaimAccepted? then 4 else 1
  }

  function QueueWeight(q: seq<GossipMessage>, fanout: nat): nat {
    if q == [] then 0 else MessageWeight(q[0], fanout) + QueueWeight(q[1..], fanout)
  }

  /** The steps a proving task still has to take. */
  function TaskWeight(w: Worker.State): nat {
    match w.status
    case Proving(_) => 3
    case Submitting(job) => if Worker.Task(Worker.AtSubmitting, job) in w.tasks then 2 else 1
    case _ => 0
  }

  function HandlerWeight(h: Handler): nat {
    if h.Ready? then 0 else 1 + Times(|h.left|, 5)
  }

  function OfferWeight(o: Offer, fanout: nat): nat {
    Times(|o.left|, ClaimWeight(fanout) + 2)
  }

  ghost function OffersWeight(offers: multiset<Offer>, fanout: nat): nat {
    if offers == multiset{} then 0
    else
      var o :| o in offers;
      OfferWeight(o, fanout) + OffersWeight(offers - multiset{o}, fanout)
  }

  /** What the workers in `ids` and the queues to them still hold. */
  ghost function WorkersWeight(workers: Workers, down: Queues, ids: set<PeerId>, fanout: nat): nat
    requires ids <= workers.Keys && ids <= down.Keys
  {
    if ids == {} then 0
    else
      var w :| w in ids;
      TaskWeight(workers[w]) + QueueWeight(down[w], fanout) + WorkersWeight(workers, down, ids - {w}, fanout)
  }

  ghost function Measure(s: Net, fanout: nat): nat
    requires s.down.Keys == s.workers.Keys
  {
    OffersWeight(s.offers, fanout) + Times(|s.claims|, ClaimWeight(fanout)) + HandlerWeight(s.handler) +
    WorkersWeight(s.workers, s.down, s.workers.Keys, fanout)
  }

  ghost predicate MeasureBelow(t: Net, s: Net, fanout: nat)
    requires s.down.Keys == s.workers.Keys
  {
    t.down.Keys == t.workers.Keys && Measure(t, fanout) < Measure(s, fanout)
  }

  lemma OffersPick(offers: multiset<Offer>, fanout: nat) returns (p: Offer)
    requires offers != multiset{}
    ensures p in offers
    ensures OffersWeight(offers, fanout) == OfferWeight(p, fanout) + OffersWeight(offers - multiset{p}, fanout)
  {
    p :| p in offers && OffersWeight(offers, fanout) ==
                        OfferWeight(p, fanout) + OffersWeight(offers - multiset{p}, fanout);
  }

  lemma {:induction false} OffersSplit(offers: multiset<Offer>, o: Offer, fanout: nat)
    requires o in offers
    ensures OffersWeight(offers, fanout) == OfferWeight(o, fanout) + OffersWeight(offers - multiset{o}, fanout)
  {
    var p := OffersPick(offers, fanout);
    if p == o {
    } else {
      var rest := offers - multiset{p} - multiset{o};
      OffersSplit(offers - multiset{p}, o, fanout);
      assert offers - multiset{o} - multiset{p} == rest && p in offers - multiset{o};
      OffersSplit(offers - multiset{o}, p, fanout);
    }
  }

  lemma {:induction false} WorkersSplit(workers: Workers, down: Queues, ids: set<PeerId>, w: PeerId, fanout: nat)
    requires ids <= workers.Keys && ids <= down.Keys && w in ids
    ensures WorkersWeight(workers, down, ids, fanout) ==
            TaskWeight(workers[w]) + QueueWeight(down[w], fanout) + WorkersWeight(workers, down, ids - {w}, fanout)
  {
    var v :| v in ids && WorkersWeight(workers, down, ids, fanout) ==
                         TaskWeight(workers[v]) + QueueWeight(down[v], fanout) +
                         WorkersWeight(workers, down, ids - {v}, fanout);
    if v == w {
    } else {
      WorkersSplit(workers, down, ids - {v}, w, fanout);
      WorkersSplit(workers, down, ids - {w}, v, fanout);
      assert ids - {v} - {w} == ids - {w} - {v};
    }
  }

  lemma {:induction false} WorkersSame(workers: Workers, down: Queues, workers': Workers, down': Queues,
                                       ids: set<PeerId>, fanout: nat)
    requires ids <= workers.Keys && ids <= down.Keys && ids <= workers'.Keys && ids <= down'.Keys
    requires forall w :: w in ids ==> workers[w] == workers'[w] && down[w] == down'[w]
    ensures WorkersWeight(workers, down, ids, fanout) == WorkersWeight(workers', down', ids, fanout)
  {
    if ids == {} {
    } else {
      var w :| w in ids;
      WorkersSplit(workers, down, ids, w, fanout);
      WorkersSplit(workers', down', ids, w, fanout);
      WorkersSame(workers, down, workers', down', ids - {w}, fanout);
    }
  }

  /** Only one worker and its queue change. */
  lemma WorkersUpdate(s: Net, w: PeerId, state: Worker.State, q: seq<GossipMessage>, fanout: nat)
    requires s.down.Keys == s.workers.Keys && w in s.workers
    ensures WorkersWeight(s.workers[w := state], s.down[w := q], s.workers.Keys, fanout) +
            TaskWeight(s.workers[w]) + QueueWeight(s.down[w], fanout) ==
            WorkersWeight(s.workers, s.down, s.workers.Keys, fanout) + TaskWeight(state) + QueueWeight(q, fanout)
  {
    var ids := s.workers.Keys;
    WorkersSplit(s.workers, s.down, ids, w, fanout);
    WorkersSplit(s.workers[w := state], s.down[w := q], ids, w, fanout);
    WorkersSame(s.workers, s.down, s.workers[w := state], s.down[w := q], ids - {w}, fanout);
  }

  lemma {:induction false} QueueAppend(q: seq<GossipMessage>, m: GossipMessage, fanout: nat)
    ensures QueueWeight(q + [m], fanout) == QueueWeight(q, fanout) + MessageWeight(m, fanout)
  {
    if q == [] {
      assert [m][1..] == [];
    } else {
      assert (q + [m])[1..] == q[1..] + [m];
      QueueAppend(q[1..], m, fanout);
    }
  }

  lemma {:induction false} TimesMono(m: nat, n: nat, c: nat)
    requires m <= n
    ensures Times(m, c) <= Times(n, c)
  {
    if m == n {
    } else {
      TimesMono(m, n - 1, c);
    }
  }

  lemma {:induction false} TimesFive(n: nat)
    ensures Times(n, 5) == 5 * n
  {
    if n == 0 {
    } else {
      TimesFive(n - 1);
    }
  }

  // ----- each kind of step ----------------------------------------------------------------------

  /** A message is put on the connection to a worker. */
  lemma EnqueueWeighs(s: Net, to: PeerId, msg: GossipMessage, fanout: nat)
    requires s.down.Keys == s.workers.Keys && to in s.down
    ensures WorkersWeight(s.workers, Enqueue(s.down, to, msg), s.workers.Keys, fanout) ==
            WorkersWeight(s.workers, s.down, s.workers.Keys, fanout) + MessageWeight(msg, fanout)
  {
    QueueAppend(s.down[to], msg, fanout);
    WorkersUpdate(s, to, s.workers[to], s.down[to] + [msg], fanout);
    assert s.workers[to := s.workers[to]] == s.workers;
  }

  lemma OffersSwap(offers: multiset<Offer>, o: Offer, p: Offer, fanout: nat)
    requires o in offers
    ensures OffersWeight(offers - multiset{o} + multiset{p}, fanout) + OfferWeight(o, fanout) ==
            OffersWeight(offers, fanout) + OfferWeight(p, fanout)
  {
    var rest := offers - multiset{o};
    OffersSplit(offers, o, fanout);
    OffersSplit(rest + multiset{p}, p, fanout);
    assert rest + multiset{p} - multiset{p} == rest;
  }

  lemma OneLessToSend(o: Offer, to: PeerId, fanout: nat)
    requires to in o.left
    ensures OfferWeight(o, fanout) ==
            ClaimWeight(fanout) + 2 + OfferWeight(o.(left := o.left - {to}), fanout)
  {
    assert |o.left - {to}| == |o.left| - 1;
  }

  lemma OfferToDecreases(fanout: nat, s: Net, step: Step)
    requires s.down.Keys == s.workers.Keys && step.OfferTo? && Enabled(fanout, s, step)
    ensures MeasureBelow(Next(s, step), s, fanout)
  {
    OffersSwap(s.offers, step.offer, step.offer.(left := step.offer.left - {step.to}), fanout);
    OneLessToSend(step.offer, step.to, fanout);
    EnqueueWeighs(s, step.to, JobAvailable(step.offer.job), fanout);
    assert Next(s, step).down.Keys == s.down.Keys;
  }

  lemma TakeClaimDecreases(fanout: nat, s: Net, step: Step)
    requires s.down.Keys == s.workers.Keys && step.TakeClaim? && Enabled(fanout, s, step)
    ensures MeasureBelow(Next(s, step), s, fanout)
  {
    var less := s.claims - multiset{(step.id, step.worker)};
    assert |less| == |s.claims| - 1;
    ReplyIsCheaper(|step.targets|, |less|, fanout);
  }

  lemma ReplyIsCheaper(targets: nat, claims: nat, fanout: nat)
    requires targets <= fanout
    ensures 1 + Times(targets, 5) + Times(claims, ClaimWeight(fanout)) < Times(claims + 1, ClaimWeight(fanout))
  {
    TimesMono(targets, fanout, 5);
    TimesFive(fanout);
  }

  lemma ReplyToDecreases(fanout: nat, s: Net, step: Step)
    requires s.down.Keys == s.workers.Keys && step.ReplyTo? && Enabled(fanout, s, step)
    requires s.handler.msg.ClaimAccepted? || s.handler.msg.ClaimRejected?
    ensures MeasureBelow(Next(s, step), s, fanout)
  {
    EnqueueWeighs(s, step.to, s.handler.msg, fanout);
    assert |s.handler.left - {step.to}| == |s.handler.left| - 1;
    assert Next(s, step).down.Keys == s.down.Keys;
  }

  /** What taking a message costs a worker, against the message. */
  lemma MessageTaken(me: PeerId, w: Worker.State, msg: GossipMessage, now: nat, fanout: nat)
    ensures var r := Worker.OnMessage(me, w, msg, now);
            TaskWeight(r.state) + Times(|ClaimsOf(r.sent)|, ClaimWeight(fanout)) <
            TaskWeight(w) + MessageWeight(msg, fanout)
  {
    var r := Worker.OnMessage(me, w, msg, now);
    if r.sent != [] {
      assert r.sent[1..] == [];
      assert |ClaimsOf(r.sent)| == 1;
      assert Times(1, ClaimWeight(fanout)) == ClaimWeight(fanout) + Times(0, ClaimWeight(fanout));
    }
  }

  lemma {:induction false} TimesAdd(m: nat, n: nat, c: nat)
    ensures Times(m + n, c) == Times(m, c) + Times(n, c)
  {
    if m == 0 {
    } else {
      TimesAdd(m - 1, n, c);
    }
  }

  lemma DeliverWeighs(s: Net, to: PeerId, now: nat, r: Worker.Reaction, fanout: nat)
    requires s.down.Keys == s.workers.Keys && to in s.workers && s.down[to] != []
    requires r == Worker.OnMessage(to, s.workers[to], s.down[to][0], now)
    ensures WorkersWeight(s.workers[to := r.state], s.down[to := s.down[to][1..]], s.workers.Keys, fanout) +
            Times(|s.claims + ClaimsOf(r.sent)|, ClaimWeight(fanout)) <
            WorkersWeight(s.workers, s.down, s.workers.Keys, fanout) + Times(|s.claims|, ClaimWeight(fanout))
  {
    MessageTaken(to, s.workers[to], s.down[to][0], now, fanout);
    TimesAdd(|s.claims|, |ClaimsOf(r.sent)|, ClaimWeight(fanout));
    WorkersUpdate(s, to, r.state, s.down[to][1..], fanout);
  }

  lemma DeliverDecreases(fanout: nat, s: Net, step: Step)
    requires s.down.Keys == s.workers.Keys && step.Deliver? && Enabled(fanout, s, step)
    ensures MeasureBelow(Next(s, step), s, fanout)
  {
    var to, rest := step.to, s.down[step.to][1..];
    var r := Worker.OnMessage(to, s.workers[to], s.down[to][0], step.now);
    DeliverWeighs(s, to, step.now, r, fanout);
    assert s.workers[to := r.state].Keys == s.workers.Keys && s.down[to := rest].Keys == s.down.Keys;
  }

  /** Every step of a proving task is one less to go. */
  lemma TaskGoesOn(w: PeerId, state: Worker.State, e: Worker.Event)
    requires Worker.Agrees(state) && !e.Receive? && Worker.Possible(state, e)
    ensures TaskWeight(Worker.React(w, state, e).state) < TaskWeight(state)
  {
    Worker.SoleTask(state, e.task);
    Worker.ReactKeepsAgreement(w, state, e);
  }

  lemma TaskWeighs(s: Net, w: PeerId, state: Worker.State, fanout: nat)
    requires s.down.Keys == s.workers.Keys && w in s.workers && TaskWeight(state) < TaskWeight(s.workers[w])
    ensures s.workers[w := state].Keys == s.workers.Keys
    ensures WorkersWeight(s.workers[w := state], s.down, s.workers.Keys, fanout) <
            WorkersWeight(s.workers, s.down, s.workers.Keys, fanout)
  {
    WorkersUpdate(s, w, state, s.down[w], fanout);
    assert s.down[w := s.down[w]] == s.down;
  }

  lemma TaskStepDecreases(fanout: nat, s: Net, step: Step)
    requires Inv(s) && step.TaskStep? && Enabled(fanout, s, step)
    ensures MeasureBelow(Next(s, step), s, fanout)
  {
    TaskGoesOn(step.worker, s.workers[step.worker], step.event);
    TaskWeighs(s, step.worker, Worker.React(step.worker, s.workers[step.worker], step.event).state, fanout);
  }

  /** A new offer: a job is created or a pending one offered again. */
  predicate IsOffer(step: Step) {
    step.Create? || step.Rebroadcast?
  }

  /** The chain settles a job. */
  predicate IsChain(step: Step) {
    step.ChainUpdate? || step.ChainInsert?
  }

  /** The brokered messages: every other step. */
  predicate Moves(step: Step) {
    !IsOffer(step) && !IsChain(step)
  }

  lemma ReplyDoneDecreases(fanout: nat, s: Net, step: Step)
    requires s.down.Keys == s.workers.Keys && step.ReplyDone? && Enabled(fanout, s, step)
    ensures MeasureBelow(Next(s, step), s, fanout)
  {
  }

  lemma ChainKeepsMeasure(fanout: nat, s: Net, step: Step)
    requires s.down.Keys == s.workers.Keys && IsChain(step)
    ensures Next(s, step).down.Keys == Next(s, step).workers.Keys
    ensures Measure(Next(s, step), fanout) == Measure(s, fanout)
  {
  }

  lemma MoveDecreases(fanout: nat, s: Net, step: Step)
    requires Inv(s) && Enabled(fanout, s, step) && Moves(step)
    ensures MeasureBelow(Next(s, step), s, fanout)
  {
    match step
    case OfferTo(_, _) => OfferToDecreases(fanout, s, step);
    case TakeClaim(_, _, _, _) => TakeClaimDecreases(fanout, s, step);
    case ReplyTo(_) => ReplyToDecreases(fanout, s, step);
    case ReplyDone => ReplyDoneDecreases(fanout, s, step);
    case Deliver(_, _) => DeliverDecreases(fanout, s, step);
    case TaskStep(_, _) => TaskStepDecreases(fanout, s, step);
  }

  /** Every step that is not a new offer strictly decreases the measure, save what the chain does, which
      leaves it alone. */
  lemma MeasureDecreases(fanout: nat, s: Net, step: Step)
    requires Inv(s) && Enabled(fanout, s, step) && !IsOffer(step)
    ensures Inv(Next(s, step))
    ensures if Moves(step) then Measure(Next(s, step), fanout) < Measure(s, fanout)
            else Measure(Next(s, step), fanout) == Measure(s, fanout)
  {
    StepKeeps(fanout, s, step);
    if Moves(step) {
      MoveDecreases(fanout, s, step);
    } else {
      ChainKeepsMeasure(fanout, s, step);
    }
  }

  // ----- runs without new offers ----------------------------------------------------------------

  ghost predicate NoOffers(steps: seq<Step>) {
    forall k :: 0 <= k < |steps| ==> !IsOffer(steps[k])
  }

  function CountMoves(steps: seq<Step>): nat {
    if steps == [] then 0 else CountMoves(steps[..|steps| - 1]) + if Moves(steps[|steps| - 1]) then 1 else 0
  }

  /** A run without new offers takes no more steps than the measure says, not counting those of the chain. */
  lemma {:induction false} RunsEnd(fanout: nat, s: Net, steps: seq<Step>)
    requires Inv(s) && Legal(fanout, s, steps) && NoOffers(steps)
    ensures Inv(Run(s, steps)) && CountMoves(steps) + Measure(Run(s, steps), fanout) <= Measure(s, fanout)
  {
    if steps == [] {
    } else {
      var front := steps[..|steps| - 1];
      RunsEnd(fanout, s, front);
      MeasureDecreases(fanout, Run(s, front), steps[|steps| - 1]);
    }
  }

  // ----- where no step is left ------------------------------------------------------------------

  /** Whatever is still to be sent is to be sent to workers there are. */
  ghost predicate Addressed(s: Net) {
    && (s.handler.Replying? ==> s.handler.left <= s.workers.Keys)
    && (forall o :: o in s.offers ==> o.left <= s.workers.Keys)
  }

  lemma StepAddressed(fanout: nat, s: Net, step: Step)
    requires Addressed(s) && Enabled(fanout, s, step)
    ensures Addressed(Next(s, step))
  {
    WorkersStay(fanout, s, step);
  }

  lemma {:induction false} RunAddressed(fanout: nat, s: Net, steps: seq<Step>)
    requires Addressed(s) && Legal(fanout, s, steps)
    ensures Addressed(Run(s, steps))
  {
    if steps == [] {
    } else {
      RunAddressed(fanout, s, steps[..|steps| - 1]);
      StepAddressed(fanout, Run(s, steps[..|steps| - 1]), steps[|steps| - 1]);
    }
  }

  /** Nothing can happen but new offers and what the chain does. */
  ghost predicate AtRest(fanout: nat, s: Net) {
    forall step :: Enabled(fanout, s, step) ==> !Moves(step)
  }

  /** No message is on its way or about to be, and no task is running. */
  ghost predicate Quiet(s: Net) {
    && s.handler.Ready? && s.claims == multiset{}
    && (forall o :: o in s.offers ==> o.left == {})
    && (forall w :: w in s.workers ==> w in s.down && s.down[w] == [])
    && (forall w :: w in s.workers ==> s.workers[w].status.Idle? || s.workers[w].status.Claiming?)
  }

  lemma {:induction false} SomeTargets(workers: set<PeerId>, fanout: nat) returns (targets: set<PeerId>)
    ensures ValidTargets(workers, fanout, targets)
  {
    targets := Subsets(workers, if |workers| <= fanout then |workers| else fanout);
  }

  /** A worker with a task can go on with it. */
  lemma TaskCanGoOn(fanout: nat, s: Net, w: PeerId) returns (step: Step)
    requires w in s.workers && Worker.Agrees(s.workers[w])
    requires !s.workers[w].status.Idle? && !s.workers[w].status.Claiming?
    ensures Enabled(fanout, s, step) && Moves(step)
  {
    var task :| task in s.workers[w].tasks;
    match task.stage
    case AtProving => step := TaskStep(w, Worker.Proved(task, true));
    case AtSubmitting => step := TaskStep(w, Worker.Submitted(task, Worker.Rejected));
    case AtClosing => step := TaskStep(w, Worker.Close(task));
  }

  /** The coordinator can go on with a reply, or take a claim. */
  lemma CoordinatorCanGoOn(fanout: nat, s: Net) returns (step: Step)
    requires Inv(s) && Addressed(s) && (s.handler.Replying? || s.claims != multiset{})
    ensures Enabled(fanout, s, step) && Moves(step)
  {
    if s.handler.Replying? && s.handler.left == {} {
      step := ReplyDone;
    } else if s.handler.Replying? {
      var to :| to in s.handler.left;
      step := ReplyTo(to);
    } else {
      var c :| c in s.claims;
      var targets := SomeTargets(s.workers.Keys, fanout);
      step := TakeClaim(c.0, c.1, 0, targets);
    }
  }

  /** As long as anything is still on its way, there is a step to take. */
  lemma NextMove(fanout: nat, s: Net) returns (step: Step)
    requires Inv(s) && Addressed(s) && !Quiet(s)
    ensures Enabled(fanout, s, step) && Moves(step)
  {
    if s.handler.Replying? || s.claims != multiset{} {
      step := CoordinatorCanGoOn(fanout, s);
    } else if o :| o in s.offers && o.left != {} {
      var to :| to in o.left;
      step := OfferTo(o, to);
    } else if w :| w in s.workers && s.down[w] != [] {
      step := Deliver(w, 0);
    } else {
      var w :| w in s.workers && !s.workers[w].status.Idle? && !s.workers[w].status.Claiming?;
      step := TaskCanGoOn(fanout, s, w);
    }
  }

  /** At rest, everything has been delivered. */
  lemma RestIsQuiet(fanout: nat, s: Net)
    requires Inv(s) && Addressed(s) && AtRest(fanout, s)
    ensures Quiet(s)
  {
    if !Quiet(s) {
      var _ := NextMove(fanout, s);
    }
  }

  // ----- every claim is answered ----------------------------------------------------------------

  /** w's claim of job id is on its way to the coordinator, or an answer to it is on its way to w. */
  ghost predicate Awaited(h: Handler, down: Queues, claims: Claims, id: JobId, w: PeerId) {
    || (id, w) in claims
    || (h.Replying? && Decides(h.msg, id) && w in h.left)
    || (w in down && !Silent(down[w], id))
  }

  ghost predicate ClaimsAnswered(s: Net) {
    forall w :: w in s.workers && s.workers[w].status.Claiming? ==>
      Awaited(s.handler, s.down, s.claims, s.workers[w].status.job.id, w)
  }

  /** A message more does not take an answer away. */
  lemma EnqueueAwaited(h: Handler, down: Queues, to: PeerId, msg: GossipMessage, claims: Claims, id: JobId, w: PeerId)
    requires Awaited(h, down, claims, id, w) && to in down
    ensures Awaited(h, Enqueue(down, to, msg), claims, id, w)
  {
    if w == to && !Silent(down[w], id) {
      var i :| 0 <= i < |down[w]| && Decides(down[w][i], id);
      assert Enqueue(down, to, msg)[w][i] == down[w][i];
    }
  }

  /** The answer put on w's connection is the one that was about to be. */
  lemma ReplyAwaited(h: Handler, down: Queues, to: PeerId, claims: Claims, id: JobId, w: PeerId)
    requires h.Replying? && to in down && Awaited(h, down, claims, id, w)
    ensures Awaited(h.(left := h.left - {to}), Enqueue(down, to, h.msg), claims, id, w)
  {
    if w == to && Decides(h.msg, id) {
      assert Enqueue(down, to, h.msg)[w][|down[w]|] == h.msg;
    } else {
      EnqueueAwaited(h, down, to, h.msg, claims, id, w);
    }
  }

  /** A claim is taken by answering it, to all. */
  lemma TakenIsAnswered(fanout: nat, s: Net, step: Step)
    requires ClaimsAnswered(s) && step.TakeClaim? && Enabled(fanout, s, step) && |s.workers.Keys| <= fanout
    ensures ClaimsAnswered(Next(s, step))
  {
    SubsetSize(step.targets, s.workers.Keys);
    assert Decides(Next(s, step).handler.msg, step.id);
  }

  /** A worker goes on waiting only while its answer is still to come, and starts to by claiming. */
  lemma DeliveredAwaits(s: Net, to: PeerId, now: nat)
    requires ClaimsAnswered(s) && to in s.workers && to in s.down && s.down[to] != []
    ensures ClaimsAnswered(Next(s, Deliver(to, now)))
  {
    var t, msg := Next(s, Deliver(to, now)), s.down[to][0];
    var before, after := s.workers[to].status, t.workers[to].status;
    if before.Claiming? && after.Claiming? {
      var id := before.job.id;
      if !Silent(s.down[to], id) {
        var i :| 0 <= i < |s.down[to]| && Decides(s.down[to][i], id);
        assert t.down[to][i - 1] == s.down[to][i];
      }
    } else if after.Claiming? {
      var r := Worker.OnMessage(to, s.workers[to], msg, now);
      assert r.sent == [ClaimJob(after.job.id, to)] && r.sent[1..] == [];
    }
  }

  lemma OfferAnswers(s: Net, offer: Offer, to: PeerId)
    requires ClaimsAnswered(s) && to in s.down
    ensures ClaimsAnswered(Next(s, OfferTo(offer, to)))
  {
    forall id, w | Awaited(s.handler, s.down, s.claims, id, w)
      ensures Awaited(s.handler, Enqueue(s.down, to, JobAvailable(offer.job)), s.claims, id, w)
    {
      EnqueueAwaited(s.handler, s.down, to, JobAvailable(offer.job), s.claims, id, w);
    }
  }

  lemma ReplyAnswers(s: Net, to: PeerId)
    requires ClaimsAnswered(s) && s.handler.Replying? && to in s.down
    ensures ClaimsAnswered(Next(s, ReplyTo(to)))
  {
    var t := Next(s, ReplyTo(to));
    forall id, w | Awaited(s.handler, s.down, s.claims, id, w) ensures Awaited(t.handler, t.down, t.claims, id, w) {
      ReplyAwaited(s.handler, s.down, to, s.claims, id, w);
    }
  }

  lemma TaskAnswers(s: Net, w: PeerId, e: Worker.Event)
    requires ClaimsAnswered(s) && w in s.workers && Worker.Agrees(s.workers[w])
    requires !e.Receive? && Worker.Possible(s.workers[w], e)
    ensures ClaimsAnswered(Next(s, TaskStep(w, e)))
  {
    Worker.SoleTask(s.workers[w], e.task);
  }

  lemma OthersAnswer(fanout: nat, s: Net, step: Step)
    requires ClaimsAnswered(s) && Enabled(fanout, s, step)
    requires step.Create? || step.Rebroadcast? || step.ReplyDone? || step.ChainUpdate? || step.ChainInsert?
    ensures ClaimsAnswered(Next(s, step))
  {
  }

  lemma StepAnswers(fanout: nat, s: Net, step: Step)
    requires Inv(s) && ClaimsAnswered(s) && Enabled(fanout, s, step) && |s.workers.Keys| <= fanout
    ensures ClaimsAnswered(Next(s, step))
  {
    match step
    case OfferTo(offer, to) => OfferAnswers(s, offer, to);
    case ReplyTo(to) => ReplyAnswers(s, to);
    case TakeClaim(_, _, _, _) => TakenIsAnswered(fanout, s, step);
    case Deliver(to, now) => DeliveredAwaits(s, to, now);
    case TaskStep(w, e) => TaskAnswers(s, w, e);
    case _ => OthersAnswer(fanout, s, step);
  }

  /** With no more workers than the fanout, every claim that waits for an answer will get one. */
  lemma {:induction false} ReachableAnswered(fanout: nat, s: Net, steps: seq<Step>)
    requires Start(s) && Legal(fanout, s, steps) && |s.workers.Keys| <= fanout
    ensures ClaimsAnswered(Run(s, steps)) && Run(s, steps).workers.Keys == s.workers.Keys
  {
    if steps == [] {
    } else {
      var before := Run(s, steps[..|steps| - 1]);
      ReachableAnswered(fanout, s, steps[..|steps| - 1]);
      ReachableInv(fanout, s, steps[..|steps| - 1]);
      StepAnswers(fanout, before, steps[|steps| - 1]);
      WorkersStay(fanout, before, steps[|steps| - 1]);
    }
  }

  // ----- coming to rest -------------------------------------------------------------------------

  lemma OneMore(fanout: nat, s: Net, steps: seq<Step>, before: Net)
    requires steps != [] && Legal(fanout, s, steps[..|steps| - 1]) && Run(s, steps[..|steps| - 1]) == before
    ensures Legal(fanout, s, steps) <==> Enabled(fanout, before, steps[|steps| - 1])
    ensures Run(s, steps) == Next(before, steps[|steps| - 1])
  {
  }

  /** Two runs that have come to the same state go on alike. */
  lemma GoOnAlike(fanout: nat, s: Net, all: seq<Step>, mid: Net, more: seq<Step>, before: Net)
    requires all != [] && more != [] && all[|all| - 1] == more[|more| - 1] && Legal(fanout, mid, more)
    requires Legal(fanout, s, all[..|all| - 1]) && Run(s, all[..|all| - 1]) == before
    requires Legal(fanout, mid, more[..|more| - 1]) && Run(mid, more[..|more| - 1]) == before
    ensures Legal(fanout, s, all) && Run(s, all) == Run(mid, more)
  {
    OneMore(fanout, mid, more, before);
    OneMore(fanout, s, all, before);
  }

  lemma FrontOf<T>(a: seq<T>, b: seq<T>)
    requires b != []
    ensures (a + b)[..|a + b| - 1] == a + b[..|b| - 1] && (a + b)[|a + b| - 1] == b[|b| - 1]
  {
  }

  lemma {:induction false} ConcatAs(fanout: nat, s: Net, mid: Net, steps: seq<Step>, more: seq<Step>, all: seq<Step>)
    requires Legal(fanout, s, steps) && Run(s, steps) == mid && Legal(fanout, mid, more) && all == steps + more
    ensures Legal(fanout, s, all) && Run(s, all) == Run(mid, more)
    decreases more
  {
    if more == [] {
      assert all == steps;
    } else {
      FrontOf(steps, more);
      ConcatAs(fanout, s, mid, steps, more[..|more| - 1], all[..|all| - 1]);
      GoOnAlike(fanout, s, all, mid, more, Run(mid, more[..|more| - 1]));
    }
  }

  lemma Concat(fanout: nat, s: Net, steps: seq<Step>, more: seq<Step>)
    requires Legal(fanout, s, steps) && Legal(fanout, Run(s, steps), more)
    ensures Legal(fanout, s, steps + more) && Run(s, steps + more) == Run(Run(s, steps), more)
  {
    ConcatAs(fanout, s, Run(s, steps), steps, more, steps + more);
  }

  lemma Prepend(fanout: nat, s: Net, step: Step, rest: seq<Step>)
    requires Enabled(fanout, s, step) && Legal(fanout, Next(s, step), rest)
    ensures Legal(fanout, s, [step] + rest) && Run(s, [step] + rest) == Run(Next(s, step), rest)
  {
    assert [step][..0] == [];
    Concat(fanout, s, [step], rest);
  }

  lemma AMove(fanout: nat, s: Net) returns (step: Step)
    requires !AtRest(fanout, s)
    ensures Enabled(fanout, s, step) && Moves(step)
  {
    step :| Enabled(fanout, s, step) && Moves(step);
  }

  lemma NoOffersFirst(step: Step, rest: seq<Step>)
    requires Moves(step) && NoOffers(rest)
    ensures NoOffers([step] + rest)
  {
  }

  /** From anywhere, some run without new offers comes to rest. */
  lemma {:induction false} ComesToRest(fanout: nat, s: Net) returns (steps: seq<Step>)
    requires Inv(s)
    ensures Legal(fanout, s, steps) && NoOffers(steps) && AtRest(fanout, Run(s, steps))
    decreases Measure(s, fanout)
  {
    if AtRest(fanout, s) {
      steps := [];
    } else {
      var step := AMove(fanout, s);
      MeasureDecreases(fanout, s, step);
      var rest := ComesToRest(fanout, Next(s, step));
      Prepend(fanout, s, step, rest);
      NoOffersFirst(step, rest);
      steps := [step] + rest;
    }
  }

  /** The protocol settles. After any history: once there are no new offers, only a bounded number of
      steps is left, and they can be taken; and where none is left all messages have been delivered, no
      worker proves, and with no more workers than the fanout each job still assigned has been started by
      its winner, and all workers, whether they won or lost, are idle again. */
  lemma OffersSettle(fanout: nat, start: Net, steps: seq<Step>, more: seq<Step>)
    requires Start(start) && Legal(fanout, start, steps)
    requires Legal(fanout, Run(start, steps), more) && NoOffers(more)
    ensures Run(start, steps).down.Keys == Run(start, steps).workers.Keys
    ensures CountMoves(more) <= Measure(Run(start, steps), fanout)
    ensures exists rest :: Legal(fanout, Run(Run(start, steps), more), rest) && NoOffers(rest) &&
              AtRest(fanout, Run(Run(Run(start, steps), more), rest))
    ensures var s := Run(Run(start, steps), more);
            AtRest(fanout, s) ==>
              && Quiet(s)
              && (|start.workers.Keys| <= fanout ==>
                    && (forall id :: id in s.table && s.table[id].status.Assigned? ==>
                          (id, s.table[id].status.worker) in s.started)
                    && (forall w :: w in s.workers ==> s.workers[w].status.Idle? && s.workers[w].tasks == multiset{}))
  {
    var s := Run(start, steps);
    ReachableInv(fanout, start, steps);
    RunsEnd(fanout, s, more);
    var rest := ComesToRest(fanout, Run(s, more));
    if AtRest(fanout, Run(s, more)) {
      RestSettles(fanout, start, steps, more);
    }
  }

  lemma RestSettles(fanout: nat, start: Net, steps: seq<Step>, more: seq<Step>)
    requires Start(start) && Legal(fanout, start, steps) && Legal(fanout, Run(start, steps), more)
    requires Inv(Run(Run(start, steps), more)) && AtRest(fanout, Run(Run(start, steps), more))
    ensures var s := Run(Run(start, steps), more);
            && Quiet(s)
            && (|start.workers.Keys| <= fanout ==>
                  && (forall id :: id in s.table && s.table[id].status.Assigned? ==>
                        (id, s.table[id].status.worker) in s.started)
                  && (forall w :: w in s.workers ==> s.workers[w] == Worker.INITIAL))
  {
    var s := Run(Run(start, steps), more);
    RunAddressed(fanout, start, steps);
    RunAddressed(fanout, Run(start, steps), more);
    RestIsQuiet(fanout, s);
    Concat(fanout, start, steps, more);
    if |start.workers.Keys| <= fanout {
      ReachableAnswered(fanout, start, steps + more);
      AllIdle(s);
      forall id | id in s.table && s.table[id].status.Assigned?
        ensures (id, s.table[id].status.worker) in s.started
      {
        DrainedWhenQuiet(s, id);
        EveryWinnerStarts(fanout, start, steps + more, id);
      }
    }
  }

  lemma NoAnswerToCome(s: Net, id: JobId, w: PeerId)
    requires Quiet(s) && s.down.Keys == s.workers.Keys
    ensures !Awaited(s.handler, s.down, s.claims, id, w)
  {
  }

  /** Where nothing is on its way, nobody waits for an answer. */
  lemma AllIdle(s: Net)
    requires Inv(s) && ClaimsAnswered(s) && Quiet(s)
    ensures forall w :: w in s.workers ==> s.workers[w] == Worker.INITIAL
  {
    forall w | w in s.workers ensures s.workers[w] == Worker.INITIAL {
      assert Worker.Agrees(s.workers[w]);
      if s.workers[w].status.Claiming? {
        NoAnswerToCome(s, s.workers[w].status.job.id, w);
        assert false;
      }
    }
  }

  lemma DrainedWhenQuiet(s: Net, id: JobId)
    requires Inv(s) && Quiet(s) && id in s.table && s.table[id].status.Assigned?
    ensures Drained(s, id)
  {
  }

  // ----- with more workers than the fanout ------------------------------------------------------

  lemma QuietRests(fanout: nat, s: Net)
    requires Inv(s) && Quiet(s)
    ensures AtRest(fanout, s)
  {
    forall w | w in s.workers ensures s.workers[w].tasks == multiset{} {
      assert Worker.Agrees(s.workers[w]);
    }
  }

  /** A message that comes too late to be an offer leaves an idle worker alone. */
  lemma LateMessage(fanout: nat, s: Net, w: PeerId, v: PeerId) returns (step: Step)
    requires Forsaken(s, w) && v in s.workers && v in s.down && s.down[v] != []
    ensures Enabled(fanout, s, step) && Moves(step) && Forsaken(Next(s, step), w)
  {
    var msg := s.down[v][0];
    var now := if msg.JobAvailable? then msg.job.deadline else 0;
    assert Worker.OnMessage(v, s.workers[v], msg, now) == Worker.Reaction(s.workers[v], []);
    assert ClaimsOf([]) == multiset{};
    step := Deliver(v, now);
  }

  lemma LateOffer(fanout: nat, s: Net, w: PeerId, o: Offer, to: PeerId)
    requires Forsaken(s, w) && o in s.offers && to in o.left && to in s.down
    ensures Enabled(fanout, s, OfferTo(o, to)) && Forsaken(Next(s, OfferTo(o, to)), w)
  {
    assert to != w;
  }

  lemma LateReply(fanout: nat, s: Net, w: PeerId) returns (step: Step)
    requires s.down.Keys == s.workers.Keys && Addressed(s) && Forsaken(s, w) && s.handler.Replying?
    ensures Enabled(fanout, s, step) && Moves(step) && Forsaken(Next(s, step), w)
  {
    if s.handler.left == {} {
      step := ReplyDone;
    } else {
      var to :| to in s.handler.left;
      LateReplyTo(s, w, to);
      step := ReplyTo(to);
    }
  }

  lemma LateReplyTo(s: Net, w: PeerId, to: PeerId)
    requires Forsaken(s, w) && s.handler.Replying? && to in s.handler.left && to in s.down
    ensures var h := s.handler.(left := s.handler.left - {to});
            Forsaken(s.(handler := h, down := Enqueue(s.down, to, s.handler.msg)), w)
  {
    assert to != w;
  }

  lemma SomebodyHasMail(s: Net, w: PeerId) returns (v: PeerId)
    requires s.down.Keys == s.workers.Keys && Forsaken(s, w) && !Quiet(s) && s.handler.Ready?
    requires forall o :: o in s.offers ==> o.left == {}
    ensures v in s.workers && v in s.down && s.down[v] != []
  {
    v :| v in s.workers && s.down[v] != [];
  }

  /** Everything that is on its way to the others can be delivered too late. */
  lemma NextLateMove(fanout: nat, s: Net, w: PeerId) returns (step: Step)
    requires s.down.Keys == s.workers.Keys && Addressed(s) && Forsaken(s, w) && !Quiet(s)
    ensures Enabled(fanout, s, step) && Moves(step) && Forsaken(Next(s, step), w)
  {
    if s.handler.Replying? {
      step := LateReply(fanout, s, w);
    } else if o :| o in s.offers && o.left != {} {
      var to :| to in o.left;
      LateOffer(fanout, s, w, o, to);
      step := OfferTo(o, to);
    } else {
      var v := SomebodyHasMail(s, w);
      step := LateMessage(fanout, s, w, v);
    }
  }

  lemma {:induction false} RestsForsaken(fanout: nat, s: Net, w: PeerId) returns (steps: seq<Step>)
    requires Inv(s) && Addressed(s) && Forsaken(s, w)
    ensures Legal(fanout, s, steps) && Forsaken(Run(s, steps), w) && AtRest(fanout, Run(s, steps))
    decreases Measure(s, fanout)
  {
    if Quiet(s) {
      steps := [];
      QuietRests(fanout, s);
    } else {
      var step := NextLateMove(fanout, s, w);
      MeasureDecreases(fanout, s, step);
      StepAddressed(fanout, s, step);
      var rest := RestsForsaken(fanout, Next(s, step), w);
      Prepend(fanout, s, step, rest);
      steps := [step] + rest;
    }
  }

  /** In every run of these workers, all of them are idle at rest. */
  ghost predicate AlwaysIdleAtRest(workers: set<PeerId>, fanout: nat) {
    forall steps, w :: Legal(fanout, Idle(workers), steps) && AtRest(fanout, Run(Idle(workers), steps)) ==>
      w in workers ==> w in Run(Idle(workers), steps).workers && Run(Idle(workers), steps).workers[w].status.Idle?
  }

  lemma WaitsAfter(workers: set<PeerId>, fanout: nat, w: PeerId, steps: seq<Step>)
    requires w in workers && Legal(fanout, Idle(workers), steps) && Forsaken(Run(Idle(workers), steps), w)
    ensures !AlwaysIdleAtRest(workers, fanout)
  {
    var start := Idle(workers);
    assert start.workers.Keys == workers && Start(start) && Addressed(start);
    ReachableInv(fanout, start, steps);
    RunAddressed(fanout, start, steps);
    var more := RestsForsaken(fanout, Run(start, steps), w);
    Concat(fanout, start, steps, more);
    assert !Run(start, steps + more).workers[w].status.Idle?;
  }

  lemma WaitsForGood(workers: set<PeerId>, fanout: nat)
    requires |workers| > fanout >= 1
    ensures !AlwaysIdleAtRest(workers, fanout)
  {
    var start := Idle(workers);
    var zero: Bytes32 := seq(32, i => 0);
    var w :| w in workers;
    var told := Subsets(workers - {w}, fanout);
    var others := Subsets(workers - {w}, fanout - 1);
    var job := Job(zero, Pending, seq(20, i => 0), [], 0, 0, 1);
    var steps := WinsUnheard(workers, fanout, job, w, others + {w}, told);
    WaitsAfter(workers, fanout, w, steps);
  }

  lemma NobodyMovesOnce(s: Net, step: Step)
    requires NothingHeard(s) && Enabled(0, s, step)
    requires forall w :: w in s.workers ==> s.workers[w] == Worker.INITIAL
    ensures Next(s, step).workers == s.workers
  {
    assert !step.Deliver? && !step.TaskStep?;
  }

  lemma {:induction false} NobodyMoves(s: Net, steps: seq<Step>)
    requires NothingHeard(s) && Legal(0, s, steps)
    requires forall w :: w in s.workers ==> s.workers[w] == Worker.INITIAL
    ensures Run(s, steps).workers == s.workers
  {
    if steps == [] {
    } else {
      NobodyMoves(s, steps[..|steps| - 1]);
      SilentWithoutFanout(s, steps[..|steps| - 1]);
      NobodyMovesOnce(Run(s, steps[..|steps| - 1]), steps[|steps| - 1]);
    }
  }

  /** So all workers are sure to be idle at rest exactly when there are no more of them than the fanout,
      or when nobody is ever told anything. */
  lemma IdleAtRestIff(workers: set<PeerId>, fanout: nat)
    ensures AlwaysIdleAtRest(workers, fanout) <==> |workers| <= fanout || fanout == 0
  {
    var start := Idle(workers);
    assert start.workers.Keys == workers && Start(start) && Addressed(start);
    if |workers| > fanout && fanout > 0 {
      WaitsForGood(workers, fanout);
    } else {
      forall steps, w | Legal(fanout, start, steps) && AtRest(fanout, Run(start, steps)) && w in workers
        ensures w in Run(start, steps).workers && Run(start, steps).workers[w].status.Idle?
      {
        if |workers| <= fanout {
          var none: seq<Step> := [];
          ReachableInv(fanout, start, steps);
          RestSettles(fanout, start, none, steps);
          ReachableAnswered(fanout, start, steps);
        } else {
          NobodyMoves(start, steps);
        }
      }
    }
  }
}
