/** The receiving half of a transfer: one router per file channel, one buffer per file id. */
module Receiver {
  import opened Prelude
  import opened Protocol
  import opened TransferState
  import opened SendTask

  /** A file handed to the browser for download. */
  datatype Saved = Saved(meta: FileStart, bytes: seq<byte>)

  /** The receiving end of one channel: how many frames it has taken, and the id `Start` told it. */
  datatype Router = Router(read: nat, cur: Option<nat>)

  /** `dropped` remembers every id the receiver cancelled or was told is aborted. */
  datatype RecvState = RecvState(
    routers: seq<Router>,
    incoming: map<nat, IncState>,
    saved: seq<Saved>,
    dropped: set<nat>)
  {
    function Entry(id: nat): IncState {
      if id in incoming then incoming[id] else EMPTY_INCOMING
    }

    function Finalize(id: nat): RecvState {
      if id !in incoming then this
      else
        var inc := incoming[id];
        match inc.meta
        case None => this.(incoming := incoming - {id})
        case Some(meta) =>
          this.(incoming := incoming - {id}, saved := saved + [Saved(meta, Flatten(inc.chunks))])
    }

    function OnStart(meta: FileStart): RecvState {
      var inc := Entry(meta.id);
      this.(incoming := incoming[meta.id := inc.(meta := if inc.meta.None? then Some(meta) else inc.meta)])
    }

    function OnBytes(id: nat, bytes: seq<byte>, now: real): RecvState {
      if id !in incoming then this
      else
        var inc := incoming[id];
        this.(incoming := incoming[id := inc.(chunks := inc.chunks + [bytes]).AccountChunk(|bytes| as real, now)])
    }

    /** The message handler of channel `k`. */
    function Receive(k: nat, frame: Frame, now: real): RecvState
      requires k < |routers|
    {
      var r := routers[k];
      var taken := this.(routers := routers[k := r.(read := r.read + 1)]);
      match frame
      case Text(Start(meta)) =>
        this.(routers := routers[k := Router(r.read + 1, Some(meta.id))]).OnStart(meta)
      case Text(End(_)) => if r.cur.Some? then taken.Finalize(r.cur.value) else taken
      case Text(_) => taken
      case Binary(bytes) => if r.cur.Some? then taken.OnBytes(r.cur.value, bytes, now) else taken
    }

    /** A local cancel, or the sender's abort: forget the partial file. */
    function Drop(id: nat): RecvState {
      this.(incoming := incoming - {id}, dropped := dropped + {id})
    }
  }

  // ----- what a channel cannot do, whatever is sent on it -----

  /**
   * Frames out of place move the reading position and nothing else: a control frame that belongs on the other
   * channel, and bytes or an end before the channel has named its file.
   */
  lemma StrayFramesChangeNothing(recv: RecvState, k: nat, frame: Frame, now: real)
    requires k < |recv.routers|
    requires (frame.Text? && !frame.control.Start? && !frame.control.End?)
             || (recv.routers[k].cur == None && !(frame.Text? && frame.control.Start?))
    ensures recv.Receive(k, frame, now)
            == recv.(routers := recv.routers[k := recv.routers[k].(read := recv.routers[k].read + 1)])
  {
  }

  /** An end closes the file that its own channel named, whatever id it carries. */
  lemma EndNamesNothing(recv: RecvState, k: nat, a: nat, b: nat, now: real)
    requires k < |recv.routers|
    ensures recv.Receive(k, Text(End(a)), now) == recv.Receive(k, Text(End(b)), now)
    ensures forall id :: recv.routers[k].cur != Some(id) && id in recv.incoming ==>
              id in recv.Receive(k, Text(End(a)), now).incoming
  {
  }

  /** The first start of a buffer counts: a later one takes back neither its bytes nor its description. */
  lemma FirstStartCounts(recv: RecvState, first: FileStart, bytes: seq<byte>, now: real, second: FileStart)
    requires second.id == first.id
    ensures var begun := recv.OnStart(first).OnBytes(first.id, bytes, now); begun.OnStart(second) == begun
  {
  }

  /** A buffer is taken out at its end in any case, and saved exactly if its file was described. */
  lemma FinalizeTakesOut(recv: RecvState, id: nat)
    ensures id !in recv.Finalize(id).incoming
    ensures recv.Finalize(id).saved != recv.saved <==> id in recv.incoming && recv.incoming[id].meta.Some?
    ensures forall i :: i != id ==> (i in recv.Finalize(id).incoming <==> i in recv.incoming)
  {
    var saved := recv.Finalize(id).saved;
    if id in recv.incoming && recv.incoming[id].meta.Some? {
      assert |saved| == |recv.saved| + 1;
    }
  }

  // ----- the receiver against the channels it reads -----

  ghost predicate EndSeen(t: Task, r: Router) {
    t.phase == Ended(Sent) && r.read == |t.frames|
  }

  ghost predicate RouterOk(t: Task, r: Router) {
    r.read <= |t.frames| && r.cur == (if r.read == 0 then None else Some(t.id))
  }

  /** The buffer holds exactly what the channel has delivered, under the right name. */
  ghost predicate EntryOk(t: Task, r: Router, inc: IncState) {
    && 0 < r.read <= |t.frames| && !EndSeen(t, r)
    && inc.meta == Some(MetaOf(t.id, t.file))
    && inc.chunks == Payloads(t.frames[..r.read])
    && inc.received == |Flatten(inc.chunks)| as real
  }

  ghost predicate DistinctIds(tasks: seq<Task>) {
    forall j, k :: 0 <= j < k < |tasks| ==> tasks[j].id != tasks[k].id
  }

  ghost predicate IsSaved(saved: seq<Saved>, id: nat) {
    exists i :: 0 <= i < |saved| && saved[i].meta.id == id
  }

  /** Every buffer belongs to one channel and mirrors it. */
  ghost predicate Mirrors(tasks: seq<Task>, recv: RecvState)
    requires |recv.routers| == |tasks|
  {
    && (forall k :: 0 <= k < |tasks| ==> RouterOk(tasks[k], recv.routers[k]))
    && (forall k :: 0 <= k < |tasks| && tasks[k].id in recv.incoming ==>
          EntryOk(tasks[k], recv.routers[k], recv.incoming[tasks[k].id]))
    && (forall id :: id in recv.incoming ==> exists k :: 0 <= k < |tasks| && tasks[k].id == id)
  }

  ghost predicate SavedFrom(t: Task, r: Router, s: Saved) {
    EndSeen(t, r) && s == Saved(MetaOf(t.id, t.file), t.file.bytes)
  }

  ghost predicate HasSource(tasks: seq<Task>, routers: seq<Router>, s: Saved)
    requires |routers| == |tasks|
  {
    exists k :: 0 <= k < |tasks| && SavedFrom(tasks[k], routers[k], s)
  }

  /** What was saved is whole, under its own name, and saved once. */
  ghost predicate SavesExactly(tasks: seq<Task>, recv: RecvState)
    requires |recv.routers| == |tasks|
  {
    && (forall i :: 0 <= i < |recv.saved| ==> HasSource(tasks, recv.routers, recv.saved[i]))
    && (forall i, j :: 0 <= i < j < |recv.saved| ==> recv.saved[i].meta.id != recv.saved[j].meta.id)
  }

  /** A channel that has begun still has its buffer, or was dropped, or was read to the end and saved. */
  ghost predicate NothingLost(tasks: seq<Task>, recv: RecvState)
    requires |recv.routers| == |tasks|
  {
    forall k :: 0 <= k < |tasks| && 0 < recv.routers[k].read && tasks[k].id !in recv.incoming ==>
      tasks[k].id in recv.dropped || (EndSeen(tasks[k], recv.routers[k]) && IsSaved(recv.saved, tasks[k].id))
  }

  ghost predicate RecvInv(tasks: seq<Task>, recv: RecvState) {
    && |recv.routers| == |tasks|
    && DistinctIds(tasks)
    && (forall k :: 0 <= k < |tasks| ==> Inv(tasks[k]))
    && Mirrors(tasks, recv)
    && SavesExactly(tasks, recv)
    && NothingLost(tasks, recv)
  }

  // ----- delivering one frame -----

  lemma PrefixStep(frames: seq<Frame>, n: nat)
    requires n < |frames|
    ensures Payloads(frames[..n + 1])
            == Payloads(frames[..n]) + (if frames[n].Binary? then [frames[n].bytes] else [])
  {
    assert frames[..n + 1] == frames[..n] + [frames[n]];
    PayloadsPush(frames[..n], frames[n]);
  }

  /** The kind of frame a router finds next is decided by its position. */
  lemma NextFrame(t: Task, r: Router)
    requires Inv(t) && RouterOk(t, r) && r.read < |t.frames|
    ensures r.read == 0 ==> t.frames[0] == Text(Start(MetaOf(t.id, t.file)))
    ensures r.read > 0 ==> t.frames[r.read].Binary? || t.frames[r.read] == Text(End(t.id))
    ensures t.frames[r.read] == Text(End(t.id)) <==> EndSeen(t, r.(read := r.read + 1))
  {
  }

  lemma StartEntry(t: Task, r: Router)
    requires Inv(t) && RouterOk(t, r) && r.read == 0 < |t.frames|
    ensures EntryOk(t, Router(1, Some(t.id)), EMPTY_INCOMING.(meta := Some(MetaOf(t.id, t.file))))
  {
    PrefixStep(t.frames, 0);
    NextFrame(t, r);
  }

  lemma BytesEntry(t: Task, r: Router, inc: IncState, now: real)
    requires Inv(t) && RouterOk(t, r) && EntryOk(t, r, inc)
    requires r.read < |t.frames| && t.frames[r.read].Binary?
    ensures var bytes := t.frames[r.read].bytes;
            EntryOk(t, r.(read := r.read + 1), inc.(chunks := inc.chunks + [bytes]).AccountChunk(|bytes| as real, now))
  {
    PrefixStep(t.frames, r.read);
    NextFrame(t, r);
    FlattenPush(inc.chunks, t.frames[r.read].bytes);
  }

  /** When `End` arrives, the buffer is the file. */
  lemma EndEntry(t: Task, r: Router, inc: IncState)
    requires Inv(t) && RouterOk(t, r) && EntryOk(t, r, inc)
    requires r.read < |t.frames| && t.frames[r.read] == Text(End(t.id))
    ensures EndSeen(t, r.(read := r.read + 1))
    ensures Flatten(inc.chunks) == t.file.bytes
  {
    NextFrame(t, r);
    PrefixStep(t.frames, r.read);
    assert t.frames[..r.read + 1] == t.frames;
    assert Payloads(t.frames) == inc.chunks;
    SentIsWhole(t);
  }

  /** Only the channel's own router and buffer move. */
  ghost predicate Others(before: RecvState, after: RecvState, k: nat, id: nat)
  {
    && |after.routers| == |before.routers|
    && (forall j :: 0 <= j < |before.routers| && j != k ==> after.routers[j] == before.routers[j])
    && (forall i :: i != id ==> (i in after.incoming <==> i in before.incoming))
    && (forall i :: i != id && i in before.incoming ==> after.incoming[i] == before.incoming[i])
    && after.dropped == before.dropped
  }

  /** What a step of channel `k` owes: its own router and buffer are right, and it saves only at its end. */
  ghost predicate LocalStep(tasks: seq<Task>, before: RecvState, after: RecvState, k: nat)
    requires |before.routers| == |tasks| && k < |tasks|
  {
    && Others(before, after, k, tasks[k].id)
    && RouterOk(tasks[k], after.routers[k])
    && before.routers[k].read < after.routers[k].read
    && (tasks[k].id in after.incoming ==> EntryOk(tasks[k], after.routers[k], after.incoming[tasks[k].id]))
    && (after.saved == before.saved
        || (after.saved == before.saved + [Saved(MetaOf(tasks[k].id, tasks[k].file), tasks[k].file.bytes)]
            && EndSeen(tasks[k], after.routers[k])))
    && (tasks[k].id !in after.incoming ==>
          tasks[k].id in after.dropped || (EndSeen(tasks[k], after.routers[k]) && after.saved != before.saved))
  }

  lemma LocalMirrors(tasks: seq<Task>, before: RecvState, after: RecvState, k: nat)
    requires |before.routers| == |tasks| && k < |tasks| && DistinctIds(tasks)
    requires Mirrors(tasks, before) && LocalStep(tasks, before, after, k)
    ensures Mirrors(tasks, after)
  {
    forall id | id in after.incoming ensures exists j :: 0 <= j < |tasks| && tasks[j].id == id {
      if id == tasks[k].id {
        assert tasks[k].id == id;
      } else {
        assert id in before.incoming;
      }
    }
  }

  lemma OldSavesStand(tasks: seq<Task>, before: RecvState, after: RecvState, k: nat, i: nat)
    requires |before.routers| == |tasks| && k < |tasks| && i < |before.saved|
    requires SavesExactly(tasks, before) && LocalStep(tasks, before, after, k)
    ensures exists j :: 0 <= j < |tasks| && j != k && SavedFrom(tasks[j], after.routers[j], before.saved[i])
  {
    assert HasSource(tasks, before.routers, before.saved[i]);
    var j :| 0 <= j < |tasks| && SavedFrom(tasks[j], before.routers[j], before.saved[i]);
    assert j != k;
    assert SavedFrom(tasks[j], after.routers[j], before.saved[i]);
  }

  lemma LocalSaves(tasks: seq<Task>, before: RecvState, after: RecvState, k: nat)
    requires |before.routers| == |tasks| && k < |tasks| && DistinctIds(tasks)
    requires SavesExactly(tasks, before) && LocalStep(tasks, before, after, k)
    ensures SavesExactly(tasks, after)
  {
    forall i | 0 <= i < |after.saved|
      ensures HasSource(tasks, after.routers, after.saved[i])
      ensures i < |before.saved| ==> after.saved[i].meta.id != tasks[k].id
    {
      if i < |before.saved| {
        OldSavesStand(tasks, before, after, k, i);
        var j :| 0 <= j < |tasks| && j != k && SavedFrom(tasks[j], after.routers[j], before.saved[i]);
      } else {
        assert SavedFrom(tasks[k], after.routers[k], after.saved[i]);
      }
    }
  }

  lemma SavedGrows(before: seq<Saved>, after: seq<Saved>, id: nat)
    requires before <= after
    ensures IsSaved(before, id) ==> IsSaved(after, id)
  {
    if i :| 0 <= i < |before| && before[i].meta.id == id {
      assert after[i].meta.id == id;
    }
  }

  lemma LocalLoses(tasks: seq<Task>, before: RecvState, after: RecvState, k: nat)
    requires |before.routers| == |tasks| && k < |tasks| && DistinctIds(tasks)
    requires NothingLost(tasks, before) && LocalStep(tasks, before, after, k)
    ensures NothingLost(tasks, after)
  {
    forall j | 0 <= j < |tasks| && 0 < after.routers[j].read && tasks[j].id !in after.incoming
      ensures tasks[j].id in after.dropped
              || (EndSeen(tasks[j], after.routers[j]) && IsSaved(after.saved, tasks[j].id))
    {
      if j == k {
        if after.saved != before.saved {
          assert after.saved[|before.saved|].meta.id == tasks[k].id;
        }
      } else {
        SavedGrows(before.saved, after.saved, tasks[j].id);
      }
    }
  }

  lemma LocalKeeps(tasks: seq<Task>, before: RecvState, after: RecvState, k: nat)
    requires RecvInv(tasks, before) && k < |tasks| && LocalStep(tasks, before, after, k)
    ensures RecvInv(tasks, after)
  {
    LocalMirrors(tasks, before, after, k);
    LocalSaves(tasks, before, after, k);
    LocalLoses(tasks, before, after, k);
  }

  /** What the receiver's invariant says of channel `k` alone. */
  ghost predicate OwnOk(tasks: seq<Task>, recv: RecvState, k: nat) {
    && |recv.routers| == |tasks| && k < |tasks|
    && Inv(tasks[k]) && RouterOk(tasks[k], recv.routers[k])
    && (tasks[k].id in recv.incoming ==> EntryOk(tasks[k], recv.routers[k], recv.incoming[tasks[k].id]))
    && (0 < recv.routers[k].read < |tasks[k].frames| && tasks[k].id !in recv.incoming ==> tasks[k].id in recv.dropped)
  }

  lemma InvIsOwnOk(tasks: seq<Task>, recv: RecvState, k: nat)
    requires RecvInv(tasks, recv) && k < |tasks|
    ensures OwnOk(tasks, recv, k)
  {
  }

  lemma StartIsLocal(tasks: seq<Task>, recv: RecvState, k: nat, now: real)
    requires OwnOk(tasks, recv, k) && recv.routers[k].read == 0 < |tasks[k].frames|
    ensures LocalStep(tasks, recv, recv.Receive(k, tasks[k].frames[0], now), k)
  {
    NextFrame(tasks[k], recv.routers[k]);
    StartEntry(tasks[k], recv.routers[k]);
  }

  lemma BytesIsLocal(tasks: seq<Task>, recv: RecvState, k: nat, now: real)
    requires OwnOk(tasks, recv, k)
    requires recv.routers[k].read < |tasks[k].frames| && tasks[k].frames[recv.routers[k].read].Binary?
    ensures LocalStep(tasks, recv, recv.Receive(k, tasks[k].frames[recv.routers[k].read], now), k)
  {
    var t, r := tasks[k], recv.routers[k];
    NextFrame(t, r);
    if t.id in recv.incoming {
      BytesEntry(t, r, recv.incoming[t.id], now);
    }
  }

  lemma EndIsLocal(tasks: seq<Task>, recv: RecvState, k: nat, now: real)
    requires OwnOk(tasks, recv, k) && 0 < recv.routers[k].read < |tasks[k].frames|
    requires tasks[k].frames[recv.routers[k].read] == Text(End(tasks[k].id))
    ensures LocalStep(tasks, recv, recv.Receive(k, tasks[k].frames[recv.routers[k].read], now), k)
  {
    var t, r := tasks[k], recv.routers[k];
    NextFrame(t, r);
    if t.id in recv.incoming {
      EndEntry(t, r, recv.incoming[t.id]);
    }
  }

  /** Taking the next frame of any channel keeps the receiver exact. */
  lemma ReceiveKeeps(tasks: seq<Task>, recv: RecvState, k: nat, now: real)
    requires RecvInv(tasks, recv) && k < |tasks| && recv.routers[k].read < |tasks[k].frames|
    ensures RecvInv(tasks, recv.Receive(k, tasks[k].frames[recv.routers[k].read], now))
    ensures LocalStep(tasks, recv, recv.Receive(k, tasks[k].frames[recv.routers[k].read], now), k)
  {
    InvIsOwnOk(tasks, recv, k);
    NextFrame(tasks[k], recv.routers[k]);
    if recv.routers[k].read == 0 {
      StartIsLocal(tasks, recv, k, now);
    } else if tasks[k].frames[recv.routers[k].read].Binary? {
      BytesIsLocal(tasks, recv, k, now);
    } else {
      EndIsLocal(tasks, recv, k, now);
    }
    LocalKeeps(tasks, recv, recv.Receive(k, tasks[k].frames[recv.routers[k].read], now), k);
  }

  // ----- the other things that happen to it -----

  lemma DropKeeps(tasks: seq<Task>, recv: RecvState, id: nat)
    requires RecvInv(tasks, recv)
    ensures RecvInv(tasks, recv.Drop(id))
  {
    forall i | 0 <= i < |recv.saved| ensures HasSource(tasks, recv.Drop(id).routers, recv.saved[i]) {
      assert HasSource(tasks, recv.routers, recv.saved[i]);
    }
  }

  /** How a wake-up may change a task: frames are appended, and a task that sent `End` is frozen. */
  ghost predicate Grows(t: Task, t': Task) {
    && t'.id == t.id && t'.file == t.file && t.frames <= t'.frames
    && (t.phase == Ended(Sent) ==> t'.phase == Ended(Sent) && t'.frames == t.frames)
    && (t'.phase == Ended(Sent) && t.phase != Ended(Sent) ==> t.frames < t'.frames)
  }

  lemma GrowsLocally(t: Task, t': Task, r: Router, inc: IncState)
    requires Grows(t, t') && RouterOk(t, r)
    ensures RouterOk(t', r)
    ensures EndSeen(t', r) <==> EndSeen(t, r)
    ensures EntryOk(t, r, inc) ==> EntryOk(t', r, inc)
  {
    assert t'.frames[..r.read] == t.frames[..r.read];
  }

  /** Tasks may grow and new channels may open; what the receiver holds is untouched. */
  ghost predicate Carries(tasks: seq<Task>, recv: RecvState, tasks': seq<Task>, recv': RecvState) {
    && |recv.routers| == |tasks| <= |tasks'| == |recv'.routers|
    && recv' == recv.(routers := recv'.routers)
    && (forall j :: 0 <= j < |tasks| ==> Grows(tasks[j], tasks'[j]) && recv'.routers[j] == recv.routers[j])
    && (forall j :: |tasks| <= j < |tasks'| ==> recv'.routers[j] == Router(0, None))
  }

  lemma CarryOne(tasks: seq<Task>, recv: RecvState, tasks': seq<Task>, recv': RecvState, j: nat)
    requires Carries(tasks, recv, tasks', recv') && j < |tasks| && RouterOk(tasks[j], recv.routers[j])
    ensures RouterOk(tasks'[j], recv'.routers[j])
    ensures EndSeen(tasks'[j], recv'.routers[j]) <==> EndSeen(tasks[j], recv.routers[j])
    ensures tasks'[j].id == tasks[j].id && tasks'[j].file == tasks[j].file
    ensures tasks[j].id in recv.incoming && EntryOk(tasks[j], recv.routers[j], recv.incoming[tasks[j].id]) ==>
              EntryOk(tasks'[j], recv'.routers[j], recv.incoming[tasks[j].id])
  {
    GrowsLocally(tasks[j], tasks'[j], recv.routers[j], recv.Entry(tasks[j].id));
  }

  lemma CarryMirrors(tasks: seq<Task>, recv: RecvState, tasks': seq<Task>, recv': RecvState)
    requires Carries(tasks, recv, tasks', recv') && DistinctIds(tasks') && Mirrors(tasks, recv)
    ensures Mirrors(tasks', recv')
  {
    forall id | id in recv.incoming ensures exists j :: 0 <= j < |tasks| && tasks'[j].id == id {
      var j :| 0 <= j < |tasks| && tasks[j].id == id;
      CarryOne(tasks, recv, tasks', recv', j);
    }
    forall j | 0 <= j < |tasks'|
      ensures RouterOk(tasks'[j], recv'.routers[j])
      ensures tasks'[j].id in recv.incoming ==>
                EntryOk(tasks'[j], recv'.routers[j], recv.incoming[tasks'[j].id])
    {
      if j < |tasks| {
        CarryOne(tasks, recv, tasks', recv', j);
      }
    }
  }

  lemma CarrySaves(tasks: seq<Task>, recv: RecvState, tasks': seq<Task>, recv': RecvState)
    requires Carries(tasks, recv, tasks', recv') && Mirrors(tasks, recv) && SavesExactly(tasks, recv)
    ensures SavesExactly(tasks', recv')
  {
    forall i | 0 <= i < |recv.saved| ensures HasSource(tasks', recv'.routers, recv.saved[i]) {
      assert HasSource(tasks, recv.routers, recv.saved[i]);
      var j :| 0 <= j < |tasks| && SavedFrom(tasks[j], recv.routers[j], recv.saved[i]);
      CarryOne(tasks, recv, tasks', recv', j);
      assert SavedFrom(tasks'[j], recv'.routers[j], recv.saved[i]);
    }
  }

  lemma CarryLoses(tasks: seq<Task>, recv: RecvState, tasks': seq<Task>, recv': RecvState)
    requires Carries(tasks, recv, tasks', recv') && Mirrors(tasks, recv) && NothingLost(tasks, recv)
    ensures NothingLost(tasks', recv')
  {
    forall j | 0 <= j < |tasks'| && 0 < recv'.routers[j].read && tasks'[j].id !in recv'.incoming
      ensures tasks'[j].id in recv.dropped
              || (EndSeen(tasks'[j], recv'.routers[j]) && IsSaved(recv.saved, tasks'[j].id))
    {
      CarryOne(tasks, recv, tasks', recv', j);
    }
  }

  /** Wake-ups and new channels keep the receiver exact. */
  lemma CarryKeeps(tasks: seq<Task>, recv: RecvState, tasks': seq<Task>, recv': RecvState)
    requires RecvInv(tasks, recv) && Carries(tasks, recv, tasks', recv')
    requires DistinctIds(tasks') && forall k :: 0 <= k < |tasks'| ==> Inv(tasks'[k])
    ensures RecvInv(tasks', recv')
  {
    CarryMirrors(tasks, recv, tasks', recv');
    CarrySaves(tasks, recv, tasks', recv');
    CarryLoses(tasks, recv, tasks', recv');
  }

  /** A channel whose buffer is intact keeps it up to `End`, which saves the file. */
  lemma ReceiveProgresses(t: Task, recv: RecvState, k: nat, now: real)
    requires k < |recv.routers| && Inv(t) && RouterOk(t, recv.routers[k]) && recv.routers[k].read < |t.frames|
    requires t.id in recv.incoming ==> EntryOk(t, recv.routers[k], recv.incoming[t.id])
    requires recv.routers[k].read == 0 || t.id in recv.incoming
    ensures var recv' := recv.Receive(k, t.frames[recv.routers[k].read], now);
            && recv'.routers[k].read == recv.routers[k].read + 1
            && (if EndSeen(t, recv'.routers[k]) then IsSaved(recv'.saved, t.id) else t.id in recv'.incoming)
  {
    var r := recv.routers[k];
    var recv' := recv.Receive(k, t.frames[r.read], now);
    NextFrame(t, r);
    if EndSeen(t, recv'.routers[k]) {
      assert recv'.saved[|recv.saved|].meta.id == t.id;
    }
  }

  /** The channel of `k` had begun, its buffer is gone, and its file was not saved. */
  ghost predicate Lost(tasks: seq<Task>, recv: RecvState, k: nat) {
    && k < |tasks| && k < |recv.routers|
    && recv.routers[k].read > 0
    && tasks[k].id !in recv.incoming
    && !IsSaved(recv.saved, tasks[k].id)
  }

  /** A frame whose buffer is gone changes nothing but the reading position. */
  lemma UnbufferedFrame(t: Task, recv: RecvState, k: nat, now: real)
    requires k < |recv.routers| && Inv(t) && RouterOk(t, recv.routers[k]) && 0 < recv.routers[k].read < |t.frames|
    requires t.id !in recv.incoming
    ensures var recv' := recv.Receive(k, t.frames[recv.routers[k].read], now);
            && recv'.incoming == recv.incoming && recv'.saved == recv.saved
            && |recv'.routers| == |recv.routers| && recv'.routers[k].read > recv.routers[k].read
  {
    NextFrame(t, recv.routers[k]);
  }

  lemma OtherFrameForgets(tasks: seq<Task>, recv: RecvState, recv': RecvState, j: nat, k: nat)
    requires |recv.routers| == |tasks| && j < |tasks| && j != k && DistinctIds(tasks)
    requires LocalStep(tasks, recv, recv', j) && Lost(tasks, recv, k)
    ensures Lost(tasks, recv', k)
  {
    assert tasks[j].id != tasks[k].id;
    assert forall i :: 0 <= i < |recv.saved| ==> recv.saved[i] == recv'.saved[i];
  }

  /** Once a begun channel has lost its buffer unsaved, no frame of any channel saves that id. */
  lemma ReceiveForgets(tasks: seq<Task>, recv: RecvState, j: nat, now: real, k: nat)
    requires RecvInv(tasks, recv) && j < |tasks| && j < |recv.routers| && recv.routers[j].read < |tasks[j].frames|
    requires Lost(tasks, recv, k)
    ensures Lost(tasks, recv.Receive(j, tasks[j].frames[recv.routers[j].read], now), k)
  {
    if j == k {
      InvIsOwnOk(tasks, recv, j);
      UnbufferedFrame(tasks[j], recv, j, now);
    } else {
      ReceiveKeeps(tasks, recv, j, now);
      OtherFrameForgets(tasks, recv, recv.Receive(j, tasks[j].frames[recv.routers[j].read], now), j, k);
    }
  }
}
