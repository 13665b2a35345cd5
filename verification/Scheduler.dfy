/** The sender's queue under every sequence of offers, answers, cancels and completions. */
module Scheduler {
  import opened Prelude
  import opened TransferState

  /** Files streaming at once. */
  const MAX_CONCURRENT: nat := 4

  /** The queue state together with the history its promises are about. */
  datatype Sched<F> = Sched(
    out: OutState<F>,
    nextId: nat,
    files: map<nat, F>,
    accepted: seq<nat>,
    started: seq<(nat, F)>,
    rejected: set<nat>,
    withdrawn: set<nat>,
    unqueued: set<nat>,
    finished: set<nat>)

  datatype Op<F> = Offer(file: F) | Accept(id: nat) | Reject(id: nat) | Cancel(id: nat) | Finish(id: nat)

  function Init<F>(): Sched<F> {
    Sched(OutState(map[], [], {}, {}), 0, map[], [], [], {}, {}, {}, {})
  }

  function Pump<F>(s: Sched<F>): Sched<F> {
    var (out, started) := s.out.Schedule(MAX_CONCURRENT);
    s.(out := out, started := s.started + started)
  }

  predicate Has<F>(entries: seq<(nat, F)>, id: nat) {
    exists i :: 0 <= i < |entries| && entries[i].0 == id
  }

  /** One handler run. A completion of an id that is not streaming cannot happen and changes nothing. */
  function Step<F>(s: Sched<F>, op: Op<F>): Sched<F> {
    match op
    case Offer(file) =>
      s.(out := s.out.(offered := s.out.offered[s.nextId := file]),
         files := s.files[s.nextId := file],
         nextId := s.nextId + 1)
    case Accept(id) =>
      Pump(s.(out := s.out.EnqueueAccepted(id),
              accepted := if id in s.out.offered then s.accepted + [id] else s.accepted))
    case Reject(id) =>
      s.(out := s.out.(offered := s.out.offered - {id}),
         rejected := if id in s.out.offered then s.rejected + {id} else s.rejected)
    case Cancel(id) =>
      s.(out := s.out.CancelOutgoing(id),
         withdrawn := if id in s.out.offered then s.withdrawn + {id} else s.withdrawn,
         unqueued := if Has(s.out.queue, id) then s.unqueued + {id} else s.unqueued)
    case Finish(id) =>
      if id in s.out.active then
        Pump(s.(out := s.out.(active := s.out.active - {id}, cancelled := s.out.cancelled - {id}),
                finished := s.finished + {id}))
      else s
  }

  function Exec<F>(s: Sched<F>, ops: seq<Op<F>>): Sched<F>
    decreases |ops|
  {
    if ops == [] then s else Exec(Step(s, ops[0]), ops[1..])
  }

  // ----- vocabulary -----

  function Drop(ids: seq<nat>, gone: set<nat>): seq<nat> {
    if ids == [] then []
    else Drop(ids[..|ids| - 1], gone) + (if ids[|ids| - 1] in gone then [] else [ids[|ids| - 1]])
  }

  function One(b: bool): nat { if b then 1 else 0 }

  /** In how many of the seven places an id is: offered, queued, streaming, or one of four ends. */
  function Places<F>(s: Sched<F>, id: nat): nat {
    One(id in s.out.offered) + One(Has(s.out.queue, id)) + One(id in s.out.active)
    + One(id in s.rejected) + One(id in s.withdrawn) + One(id in s.unqueued) + One(id in s.finished)
  }

  // ----- what holds between handler runs -----

  /** Every id ever offered is in exactly one place, and nothing else is anywhere. */
  ghost predicate Conserved<F>(s: Sched<F>) {
    && (forall id {:trigger Places(s, id)} :: Places(s, id) == One(id in s.files))
    && (forall id :: id in s.files ==> id < s.nextId)
  }

  /** Wherever a file is, it is the file that was offered. */
  ghost predicate PayloadsKept<F>(s: Sched<F>) {
    && (forall id :: id in s.out.offered ==> id in s.files && s.out.offered[id] == s.files[id])
    && (forall i :: 0 <= i < |s.out.queue| ==>
          s.out.queue[i].0 in s.files && s.out.queue[i].1 == s.files[s.out.queue[i].0])
    && (forall i :: 0 <= i < |s.started| ==>
          s.started[i].0 in s.files && s.started[i].1 == s.files[s.started[i].0])
  }

  /** Started once each, in the order accepted, and exactly the streaming and the finished ones. */
  ghost predicate Ordered<F>(s: Sched<F>) {
    && Distinct(Ids(s.started + s.out.queue))
    && Ids(s.started + s.out.queue) == Drop(s.accepted, s.unqueued)
    && (forall id :: Has(s.started, id) <==> id in s.out.active || id in s.finished)
    && (forall id :: id in s.accepted <==> Has(s.started, id) || Has(s.out.queue, id) || id in s.unqueued)
  }

  /** The cap holds, and no slot idles while a file waits. */
  ghost predicate Capped<F>(s: Sched<F>) {
    |s.out.active| <= MAX_CONCURRENT && (s.out.queue != [] ==> |s.out.active| == MAX_CONCURRENT)
  }

  ghost predicate Inv<F>(s: Sched<F>) {
    Conserved(s) && PayloadsKept(s) && Ordered(s) && Capped(s)
  }

  // ----- pumping -----

  lemma HasAppend<F>(a: seq<(nat, F)>, b: seq<(nat, F)>, id: nat)
    ensures Has(a + b, id) <==> Has(a, id) || Has(b, id)
  {
    var c := a + b;
    if Has(a, id) {
      var i :| 0 <= i < |a| && a[i].0 == id;
      assert c[i].0 == id;
    }
    if Has(b, id) {
      var i :| 0 <= i < |b| && b[i].0 == id;
      assert c[|a| + i].0 == id;
    }
  }

  lemma IdsAppend<F>(a: seq<(nat, F)>, b: seq<(nat, F)>)
    ensures Ids(a + b) == Ids(a) + Ids(b)
  {
  }

  lemma InIds<F>(entries: seq<(nat, F)>, id: nat)
    ensures id in Ids(entries) <==> Has(entries, id)
  {
    var ids := Ids(entries);
    if id in ids {
      var i :| 0 <= i < |ids| && ids[i] == id;
      assert entries[i].0 == id;
    }
    if Has(entries, id) {
      var i :| 0 <= i < |entries| && entries[i].0 == id;
      assert ids[i] == id;
    }
  }

  /** One round of the scheduling loop: the queue's head becomes active. */
  function StartHead<F>(s: Sched<F>): Sched<F>
    requires s.out.queue != []
  {
    s.(out := s.out.(queue := s.out.queue[1..], active := s.out.active + {s.out.queue[0].0}),
       started := s.started + [s.out.queue[0]])
  }

  lemma HeadIsAlone<F>(s: Sched<F>)
    requires Distinct(Ids(s.started + s.out.queue)) && s.out.queue != []
    ensures !Has(s.out.queue[1..], s.out.queue[0].0)
  {
    var ids, n := Ids(s.started + s.out.queue), |s.started|;
    forall i | 0 <= i < |s.out.queue| - 1 ensures s.out.queue[1..][i].0 != s.out.queue[0].0 {
      assert ids[n] != ids[n + 1 + i];
    }
  }

  lemma StartHeadMoves<F>(s: Sched<F>, id: nat)
    requires Ordered(s) && s.out.queue != []
    ensures Has(s.out.queue, s.out.queue[0].0) && !Has(s.out.queue[1..], s.out.queue[0].0)
    ensures Has(s.out.queue, id) <==> id == s.out.queue[0].0 || Has(s.out.queue[1..], id)
    ensures Has(StartHead(s).started, id) <==> id == s.out.queue[0].0 || Has(s.started, id)
  {
    var head, rest := s.out.queue[0], s.out.queue[1..];
    assert s.out.queue == [head] + rest;
    assert [head][0].0 == head.0;
    HasAppend([head], rest, id);
    HasAppend(s.started, [head], id);
    HeadIsAlone(s);
  }

  lemma StartHeadConserves<F>(s: Sched<F>)
    requires Conserved(s) && Ordered(s) && s.out.queue != []
    ensures Conserved(StartHead(s))
    ensures s.out.queue[0].0 !in s.out.active
  {
    var head, s' := s.out.queue[0], StartHead(s);
    StartHeadMoves(s, head.0);
    assert Places(s, head.0) == One(head.0 in s.files);
    forall id ensures Places(s', id) == One(id in s'.files) {
      StartHeadMoves(s, id);
      assert Places(s, id) == One(id in s.files);
    }
  }

  lemma StartHeadOrders<F>(s: Sched<F>)
    requires Ordered(s) && s.out.queue != []
    ensures Ordered(StartHead(s))
  {
    var s' := StartHead(s);
    forall id
      ensures Has(s'.started, id) <==> id in s'.out.active || id in s'.finished
      ensures id in s'.accepted <==> Has(s'.started, id) || Has(s'.out.queue, id) || id in s'.unqueued
    {
      StartHeadMoves(s, id);
    }
    assert s'.started + s'.out.queue == s.started + s.out.queue;
  }

  lemma PumpUnfolds<F>(s: Sched<F>)
    requires s.out.queue != [] && |s.out.active| < MAX_CONCURRENT
    ensures Pump(s) == Pump(StartHead(s))
  {
    var head := s.out.queue[0];
    var more := StartHead(s).out.Schedule(MAX_CONCURRENT).1;
    assert s.started + ([head] + more) == (s.started + [head]) + more;
  }

  lemma {:induction false} PumpMoves<F>(s: Sched<F>)
    requires Conserved(s) && Ordered(s)
    ensures Conserved(Pump(s)) && Ordered(Pump(s))
    decreases |s.out.queue|
  {
    if s.out.queue != [] && |s.out.active| < MAX_CONCURRENT {
      StartHeadConserves(s);
      StartHeadOrders(s);
      PumpUnfolds(s);
      PumpMoves(StartHead(s));
    } else {
      assert s.started + [] == s.started;
      assert Pump(s) == s;
    }
  }

  lemma {:induction false} PumpKeepsPayloads<F>(s: Sched<F>)
    requires PayloadsKept(s)
    ensures PayloadsKept(Pump(s))
    decreases |s.out.queue|
  {
    if s.out.queue != [] && |s.out.active| < MAX_CONCURRENT {
      PumpUnfolds(s);
      PumpKeepsPayloads(StartHead(s));
    } else {
      assert s.started + [] == s.started;
    }
  }

  lemma QueueIsDistinct<F>(s: Sched<F>)
    requires Distinct(Ids(s.started + s.out.queue))
    ensures Distinct(Ids(s.out.queue))
  {
    var all, n := Ids(s.started + s.out.queue), |s.started|;
    forall i, j | 0 <= i < j < |s.out.queue| ensures Ids(s.out.queue)[i] != Ids(s.out.queue)[j] {
      assert all[n + i] != all[n + j];
    }
  }

  lemma QueuedIsIdle<F>(s: Sched<F>, i: nat)
    requires Conserved(s) && i < |s.out.queue|
    ensures s.out.queue[i].0 !in s.out.active
  {
    var id := s.out.queue[i].0;
    assert Has(s.out.queue, id);
    assert Places(s, id) == One(id in s.files);
  }

  /** Pumping starts the head of the queue, as many files as there are free slots. */
  lemma PumpStarts<F>(s: Sched<F>)
    requires Conserved(s) && Ordered(s) && |s.out.active| <= MAX_CONCURRENT
    ensures var n := Min(|s.out.queue|, MAX_CONCURRENT - |s.out.active|);
            && Pump(s).out.queue == s.out.queue[n..]
            && Pump(s).started == s.started + s.out.queue[..n]
            && |Pump(s).out.active| == |s.out.active| + n
  {
    QueueIsDistinct(s);
    forall i | 0 <= i < |s.out.queue| ensures s.out.queue[i].0 !in s.out.active {
      QueuedIsIdle(s, i);
    }
    ScheduleStarts(s.out, MAX_CONCURRENT);
  }

  /** Pumping restores the invariant. */
  lemma PumpRestores<F>(s: Sched<F>)
    requires Conserved(s) && PayloadsKept(s) && Ordered(s) && |s.out.active| <= MAX_CONCURRENT
    ensures Inv(Pump(s))
  {
    PumpMoves(s);
    PumpKeepsPayloads(s);
    PumpStarts(s);
  }

  // ----- one step -----

  lemma OfferKeeps<F>(s: Sched<F>, file: F)
    requires Inv(s)
    ensures Inv(Step(s, Offer(file)))
  {
    var s' := Step(s, Offer(file));
    forall id ensures Places(s', id) == One(id in s'.files) {
      assert Places(s, id) == One(id in s.files);
    }
  }

  function Enqueue<F>(s: Sched<F>, id: nat): Sched<F>
    requires id in s.out.offered
  {
    s.(out := s.out.EnqueueAccepted(id), accepted := s.accepted + [id])
  }

  lemma EnqueueMoves<F>(s: Sched<F>, id: nat, k: nat)
    requires id in s.out.offered
    ensures Has(Enqueue(s, id).out.queue, k) <==> Has(s.out.queue, k) || k == id
  {
    var entry := (id, s.out.offered[id]);
    HasAppend(s.out.queue, [entry], k);
    assert [entry][0].0 == id;
  }

  lemma EnqueueConserves<F>(s: Sched<F>, id: nat)
    requires Conserved(s) && id in s.out.offered
    ensures Conserved(Enqueue(s, id))
    ensures !Has(s.started + s.out.queue, id) || !Ordered(s)
  {
    var t := Enqueue(s, id);
    assert Places(s, id) == One(id in s.files);
    forall k ensures Places(t, k) == One(k in t.files) {
      EnqueueMoves(s, id, k);
      assert Places(s, k) == One(k in s.files);
    }
    HasAppend(s.started, s.out.queue, id);
  }

  lemma EnqueueIds<F>(s: Sched<F>, id: nat)
    requires id in s.out.offered && id !in s.unqueued && !Has(s.started + s.out.queue, id)
    requires Distinct(Ids(s.started + s.out.queue))
    requires Ids(s.started + s.out.queue) == Drop(s.accepted, s.unqueued)
    ensures var t := Enqueue(s, id);
            && Distinct(Ids(t.started + t.out.queue))
            && Ids(t.started + t.out.queue) == Drop(t.accepted, t.unqueued)
  {
    var t, entry := Enqueue(s, id), (id, s.out.offered[id]);
    assert t.started + t.out.queue == (s.started + s.out.queue) + [entry];
    IdsAppend(s.started + s.out.queue, [entry]);
    InIds(s.started + s.out.queue, id);
    assert t.accepted[..|s.accepted|] == s.accepted;
  }

  lemma EnqueueOrders<F>(s: Sched<F>, id: nat)
    requires Ordered(s) && id in s.out.offered && id !in s.unqueued
    requires !Has(s.started + s.out.queue, id)
    ensures Ordered(Enqueue(s, id))
  {
    var t := Enqueue(s, id);
    EnqueueIds(s, id);
    forall k ensures k in t.accepted <==> Has(t.started, k) || Has(t.out.queue, k) || k in t.unqueued {
      EnqueueMoves(s, id, k);
    }
  }

  lemma AcceptKeeps<F>(s: Sched<F>, id: nat)
    requires Inv(s)
    ensures Inv(Step(s, Accept(id)))
  {
    if id in s.out.offered {
      assert Places(s, id) == One(id in s.files);
      EnqueueConserves(s, id);
      EnqueueOrders(s, id);
      PumpRestores(Enqueue(s, id));
    } else {
      PumpRestores(s);
    }
  }

  lemma RejectKeeps<F>(s: Sched<F>, id: nat)
    requires Inv(s)
    ensures Inv(Step(s, Reject(id)))
  {
    var s' := Step(s, Reject(id));
    forall k ensures Places(s', k) == One(k in s'.files) {
      assert Places(s, k) == One(k in s.files);
    }
  }

  lemma {:induction false} DropAppend(a: seq<nat>, b: seq<nat>, gone: set<nat>)
    ensures Drop(a + b, gone) == Drop(a, gone) + Drop(b, gone)
    decreases |b|
  {
    if b == [] {
      assert a + b == a;
    } else {
      var n := |b| - 1;
      assert (a + b)[..|a| + n] == a + b[..n];
      DropAppend(a, b[..n], gone);
    }
  }

  lemma {:induction false} WithoutIs<F>(queue: seq<(nat, F)>, id: nat)
    ensures forall k :: Has(Without(queue, id), k) <==> k != id && Has(queue, k)
    ensures forall e :: e in Without(queue, id) ==> e in queue
    ensures Ids(Without(queue, id)) == Drop(Ids(queue), {id})
    ensures |Without(queue, id)| <= |queue|
  {
    if queue == [] {
    } else {
      var head, rest := queue[0], queue[1..];
      WithoutIs(rest, id);
      assert queue == [head] + rest;
      var kept := if head.0 == id then [] else [head];
      forall k ensures Has(Without(queue, id), k) <==> k != id && Has(queue, k) {
        HasAppend([head], rest, k);
        HasAppend(kept, Without(rest, id), k);
        assert [head][0].0 == head.0;
        if head.0 != id { assert kept[0].0 == head.0; }
      }
      DropAppend([head.0], Ids(rest), {id});
      assert Drop([head.0], {id}) == Drop([], {id}) + (if head.0 == id then [] else [head.0]);
      assert Ids(queue) == [head.0] + Ids(rest);
      IdsAppend(kept, Without(rest, id));
    }
  }

  lemma {:induction false} DropTwice(ids: seq<nat>, gone: set<nat>, id: nat)
    ensures Drop(Drop(ids, gone), {id}) == Drop(ids, gone + {id})
    decreases |ids|
  {
    if ids == [] {
    } else {
      var n := |ids| - 1;
      DropTwice(ids[..n], gone, id);
      var last := if ids[n] in gone then [] else [ids[n]];
      DropAppend(Drop(ids[..n], gone), last, {id});
      assert last != [] ==> last[..0] == [];
    }
  }

  lemma {:induction false} DropAbsent(ids: seq<nat>, id: nat)
    requires id !in ids
    ensures Drop(ids, {id}) == ids
    decreases |ids|
  {
    if ids == [] {
    } else {
      DropAbsent(ids[..|ids| - 1], id);
    }
  }

  lemma {:induction false} DropDistinct(ids: seq<nat>, gone: set<nat>)
    requires Distinct(ids)
    ensures Distinct(Drop(ids, gone))
    ensures forall id :: id in Drop(ids, gone) ==> id in ids
    decreases |ids|
  {
    if ids == [] {
    } else {
      var front, last := ids[..|ids| - 1], ids[|ids| - 1];
      assert last !in front;
      DropDistinct(front, gone);
    }
  }

  lemma CancelConserves<F>(s: Sched<F>, id: nat)
    requires Conserved(s)
    ensures Conserved(Step(s, Cancel(id)))
  {
    var s' := Step(s, Cancel(id));
    WithoutIs(s.out.queue, id);
    forall k ensures Places(s', k) == One(k in s'.files) {
      assert Places(s, k) == One(k in s.files);
    }
  }

  lemma CancelOrders<F>(s: Sched<F>, id: nat)
    requires Ordered(s)
    requires Has(s.out.queue, id) ==> !Has(s.started, id)
    ensures Ordered(Step(s, Cancel(id)))
  {
    WithoutIs(s.out.queue, id);
    var s' := Step(s, Cancel(id));
    var ids, queued := Ids(s.started), Ids(s.out.queue);
    IdsAppend(s.started, s.out.queue);
    IdsAppend(s.started, s'.out.queue);
    DropDistinct(ids + queued, {id});
    DropAppend(ids, queued, {id});
    if Has(s.out.queue, id) {
      InIds(s.started, id);
      DropAbsent(ids, id);
      DropTwice(s.accepted, s.unqueued, id);
    } else {
      InIds(s.out.queue, id);
      DropAbsent(queued, id);
    }
  }

  lemma CancelKeeps<F>(s: Sched<F>, id: nat)
    requires Inv(s)
    ensures Inv(Step(s, Cancel(id)))
  {
    WithoutIs(s.out.queue, id);
    assert Places(s, id) == One(id in s.files);
    CancelConserves(s, id);
    CancelOrders(s, id);
    var s' := Step(s, Cancel(id));
    forall i | 0 <= i < |s'.out.queue|
      ensures s'.out.queue[i].0 in s.files && s'.out.queue[i].1 == s.files[s'.out.queue[i].0]
    {
      assert s'.out.queue[i] in s.out.queue;
    }
  }

  lemma FinishKeeps<F>(s: Sched<F>, id: nat)
    requires Inv(s)
    ensures Inv(Step(s, Finish(id)))
  {
    if id in s.out.active {
      var t := s.(out := s.out.(active := s.out.active - {id}, cancelled := s.out.cancelled - {id}),
                  finished := s.finished + {id});
      forall k ensures Places(t, k) == One(k in t.files) {
        assert Places(s, k) == One(k in s.files);
      }
      PumpRestores(t);
    }
  }

  lemma StepKeeps<F>(s: Sched<F>, op: Op<F>)
    requires Inv(s)
    ensures Inv(Step(s, op))
  {
    match op
    case Offer(file) => OfferKeeps(s, file);
    case Accept(id) => AcceptKeeps(s, id);
    case Reject(id) => RejectKeeps(s, id);
    case Cancel(id) => CancelKeeps(s, id);
    case Finish(id) => FinishKeeps(s, id);
  }

  // ----- over whole runs -----

  /** The cap, conservation and order hold after every run of handlers. */
  lemma {:induction false} ExecKeeps<F>(s: Sched<F>, ops: seq<Op<F>>)
    requires Inv(s)
    ensures Inv(Exec(s, ops))
    decreases |ops|
  {
    if ops == [] {
    } else {
      StepKeeps(s, ops[0]);
      ExecKeeps(Step(s, ops[0]), ops[1..]);
    }
  }

  /** From the empty sender, every run is safe: conserved, in order, capped, nothing started twice. */
  lemma RunsAreSafe<F>(ops: seq<Op<F>>)
    ensures Inv(Exec(Init<F>(), ops))
  {
    ExecKeeps(Init<F>(), ops);
  }

  lemma {:induction false} AcceptedByOps<F>(s: Sched<F>, ops: seq<Op<F>>, id: nat)
    requires id in Exec(s, ops).accepted
    ensures id in s.accepted || Accept(id) in ops
    decreases |ops|
  {
    if ops == [] {
    } else {
      AcceptedByOps(Step(s, ops[0]), ops[1..], id);
    }
  }

  /** No file starts streaming unless the peer accepted it. */
  lemma StartedOnlyAfterAccept<F>(ops: seq<Op<F>>, id: nat)
    requires Has(Exec(Init<F>(), ops).started, id)
    ensures Accept(id) in ops
  {
    RunsAreSafe(ops);
    AcceptedByOps(Init<F>(), ops, id);
  }

  // ----- progress -----

  predicate Completes<F>(s: Sched<F>, op: Op<F>) {
    op.Finish? && op.id in s.out.active
  }

  /** How many operations of a run complete a streaming file. */
  function Completions<F>(s: Sched<F>, ops: seq<Op<F>>): nat
    decreases |ops|
  {
    if ops == [] then 0 else One(Completes(s, ops[0])) + Completions(Step(s, ops[0]), ops[1..])
  }

  function Load<F>(s: Sched<F>): nat {
    |s.out.queue| + |s.out.active|
  }

  ghost predicate Served<F>(s: Sched<F>, id: nat) {
    Has(s.started, id) || id in s.unqueued
  }

  /** `id` waits at index `i` or nearer the front. */
  ghost predicate WaitsWithin<F>(s: Sched<F>, id: nat, i: int) {
    exists j :: 0 <= j < |s.out.queue| && j <= i && s.out.queue[j].0 == id
  }

  /** A completion frees one slot, which goes to the head of the queue if there is one. */
  lemma FinishAdvances<F>(s: Sched<F>, id: nat)
    requires Inv(s) && id in s.out.active
    ensures var n, s' := Min(|s.out.queue|, 1), Step(s, Finish(id));
            && s'.out.queue == s.out.queue[n..]
            && s'.started == s.started + s.out.queue[..n]
            && Load(s') == Load(s) - 1
  {
    var t := s.(out := s.out.(active := s.out.active - {id}, cancelled := s.out.cancelled - {id}),
                finished := s.finished + {id});
    forall k ensures Places(t, k) == One(k in t.files) {
      assert Places(s, k) == One(k in s.files);
    }
    PumpStarts(t);
  }

  lemma AcceptKeepsPlaces<F>(s: Sched<F>, id: nat)
    requires Inv(s) && s.out.queue != []
    ensures var s' := Step(s, Accept(id)); s.out.queue <= s'.out.queue && s'.started == s.started
  {
    var out := s.out.EnqueueAccepted(id);
    assert out.Schedule(MAX_CONCURRENT) == (out, []);
    assert s.started + [] == s.started;
  }

  lemma {:induction false} WithoutAdvances<F>(queue: seq<(nat, F)>, id: nat, i: nat)
    requires i < |queue| && queue[i].0 != id
    ensures exists j :: 0 <= j < |Without(queue, id)| && j <= i && Without(queue, id)[j] == queue[i]
    decreases |queue|
  {
    if i == 0 {
      assert Without(queue, id)[0] == queue[0];
    } else {
      WithoutAdvances(queue[1..], id, i - 1);
      var rest := Without(queue[1..], id);
      var j :| 0 <= j < |rest| && j <= i - 1 && rest[j] == queue[1..][i - 1];
      var k := if queue[0].0 == id then j else j + 1;
      assert Without(queue, id)[k] == queue[i];
    }
  }

  lemma StepServes<F>(s: Sched<F>, op: Op<F>, id: nat)
    requires Served(s, id)
    ensures Served(Step(s, op), id)
  {
    var more := Step(s, op).started[|s.started|..];
    assert s.started <= Step(s, op).started;
    assert Step(s, op).started == s.started + more;
    HasAppend(s.started, more, id);
  }

  lemma StepAdvances<F>(s: Sched<F>, op: Op<F>, i: nat)
    requires Inv(s) && i < |s.out.queue|
    ensures var id, s' := s.out.queue[i].0, Step(s, op);
            Served(s', id) || WaitsWithin(s', id, i - One(Completes(s, op)))
  {
    var id, s' := s.out.queue[i].0, Step(s, op);
    match op
    case Offer(file) => assert s'.out.queue[i].0 == id;
    case Accept(k) =>
      AcceptKeepsPlaces(s, k);
      assert s'.out.queue[i].0 == id;
    case Reject(k) => assert s'.out.queue[i].0 == id;
    case Cancel(k) =>
      if k == id {
        assert Has(s.out.queue, k);
      } else {
        WithoutAdvances(s.out.queue, k, i);
      }
    case Finish(k) =>
      if k in s.out.active {
        FinishAdvances(s, k);
        if i == 0 {
          assert s'.started[|s.started|].0 == id;
        } else {
          assert s'.out.queue[i - 1].0 == id;
        }
      } else {
        assert s'.out.queue[i].0 == id;
      }
  }

  lemma {:induction false} ServedForever<F>(s: Sched<F>, ops: seq<Op<F>>, id: nat)
    requires Served(s, id)
    ensures Served(Exec(s, ops), id)
    decreases |ops|
  {
    if ops == [] {
    } else {
      StepServes(s, ops[0], id);
      ServedForever(Step(s, ops[0]), ops[1..], id);
    }
  }

  /** A file at queue index `i` has started by the (i+1)th completion, unless it was cancelled in the queue. */
  lemma {:induction false} StartsByCompletion<F>(s: Sched<F>, ops: seq<Op<F>>, i: nat)
    requires Inv(s) && i < |s.out.queue|
    requires Completions(s, ops) >= i + 1
    ensures Served(Exec(s, ops), s.out.queue[i].0)
    decreases |ops|
  {
    if ops == [] {
    } else {
      var id, s' := s.out.queue[i].0, Step(s, ops[0]);
      StepAdvances(s, ops[0], i);
      StepKeeps(s, ops[0]);
      if Served(s', id) {
        ServedForever(s', ops[1..], id);
      } else {
        var j :| 0 <= j < |s'.out.queue| && j <= i - One(Completes(s, ops[0])) && s'.out.queue[j].0 == id;
        StartsByCompletion(s', ops[1..], j);
      }
    }
  }

  lemma {:induction false} CompletionsBound<F>(s: Sched<F>, ops: seq<Op<F>>)
    ensures Completions(s, ops) <= |ops|
    decreases |ops|
  {
    if ops == [] {
    } else {
      CompletionsBound(Step(s, ops[0]), ops[1..]);
    }
  }

  lemma CompletionDrains<F>(s: Sched<F>, op: Op<F>)
    requires Inv(s) && Completes(s, op)
    ensures Inv(Step(s, op)) && Load(Step(s, op)) == Load(s) - 1
  {
    assert op == Finish(op.id);
    FinishAdvances(s, op.id);
    StepKeeps(s, op);
  }

  /** Completions alone drain queue and slots: each takes away exactly one, and one is possible until none is left. */
  lemma {:induction false} CompletionsDrain<F>(s: Sched<F>, ops: seq<Op<F>>)
    requires Inv(s) && Completions(s, ops) == |ops|
    ensures Load(Exec(s, ops)) == Load(s) - |ops|
    ensures Load(Exec(s, ops)) > 0 ==> Exec(s, ops).out.active != {}
    ensures Load(Exec(s, ops)) == 0 ==> Exec(s, ops).out.queue == []
    decreases |ops|
  {
    if ops == [] {
    } else {
      var s' := Step(s, ops[0]);
      CompletionsBound(s', ops[1..]);
      assert Completes(s, ops[0]) && Completions(s', ops[1..]) == |ops[1..]|;
      CompletionDrains(s, ops[0]);
      CompletionsDrain(s', ops[1..]);
      assert Exec(s, ops) == Exec(s', ops[1..]);
    }
  }

  // ----- cancel flags -----

  /** A cancel sets the flag of its id, the completion of its id clears it, and nothing else touches a flag. */
  lemma StepFlags<F>(s: Sched<F>, op: Op<F>)
    ensures Step(s, op).out.cancelled
            == s.out.cancelled + (if op.Cancel? then {op.id} else {}) - (if Completes(s, op) then {op.id} else {})
  {
    match op
    case Accept(id) => ScheduleFlags(s.out.EnqueueAccepted(id), MAX_CONCURRENT);
    case Finish(id) =>
      ScheduleFlags(s.out.(active := s.out.active - {id}, cancelled := s.out.cancelled - {id}), MAX_CONCURRENT);
    case _ =>
  }

  lemma {:induction false} StaysUnflagged<F>(s: Sched<F>, ops: seq<Op<F>>, id: nat)
    requires id !in s.out.cancelled && forall i :: 0 <= i < |ops| ==> ops[i] != Cancel(id)
    ensures id !in Exec(s, ops).out.cancelled
    decreases |ops|
  {
    if ops == [] {
    } else {
      StepFlags(s, ops[0]);
      StaysUnflagged(Step(s, ops[0]), ops[1..], id);
    }
  }

  lemma {:induction false} StaysFlagged<F>(s: Sched<F>, ops: seq<Op<F>>, id: nat)
    requires id in s.out.cancelled && forall i :: 0 <= i < |ops| ==> ops[i] != Finish(id)
    ensures id in Exec(s, ops).out.cancelled
    decreases |ops|
  {
    if ops == [] {
    } else {
      StepFlags(s, ops[0]);
      StaysFlagged(Step(s, ops[0]), ops[1..], id);
    }
  }

  /** A flag lasts from its cancel to the end of its coroutine, over any run, and goes with it. */
  lemma FlagLastsToTheEnd<F>(s: Sched<F>, ops: seq<Op<F>>, more: seq<Op<F>>, id: nat)
    requires forall i :: 0 <= i < |ops| ==> ops[i] != Finish(id)
    requires forall i :: 0 <= i < |more| ==> more[i] != Cancel(id)
    ensures var flagged := Exec(Step(s, Cancel(id)), ops);
            && id in flagged.out.cancelled
            && (id in flagged.out.active ==> id !in Exec(Step(flagged, Finish(id)), more).out.cancelled)
  {
    StepFlags(s, Cancel(id));
    StaysFlagged(Step(s, Cancel(id)), ops, id);
    var flagged := Exec(Step(s, Cancel(id)), ops);
    if id in flagged.out.active {
      StepFlags(flagged, Finish(id));
      StaysUnflagged(Step(flagged, Finish(id)), more, id);
    }
  }
}
