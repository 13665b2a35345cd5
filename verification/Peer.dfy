/** The handlers of one peer, which updates its sending state, its receiving state and its rows in place. */
module Peer {
  import opened Prelude
  import opened Protocol
  import opened TransferState
  import opened Receiver
  import opened ReceiverRows
  import E = TransferEngine
  import S = Scheduler
  import R = RowMaps
  import L = Rows

  /** The offers of a batch of files that already have their ids. */
  function OffersOf(files: seq<(nat, File)>): seq<Control> {
    seq(|files|, i requires 0 <= i < |files| => Offer(MetaOf(files[i].0, files[i].1)))
  }

  function OfferAll(offered: map<nat, File>, files: seq<(nat, File)>): map<nat, File> {
    if files == [] then offered
    else
      var last := files[|files| - 1];
      OfferAll(offered, files[..|files| - 1])[last.0 := last.1]
  }

  function Numbered(first: nat, files: seq<File>): seq<(nat, File)> {
    seq(|files|, i requires 0 <= i < |files| => (first + i, files[i]))
  }

  function AddAll(files: seq<File>): seq<E.Op> {
    seq(|files|, i requires 0 <= i < |files| => E.AddFile(files[i]))
  }

  lemma OfferIsAdd(e: E.Engine, file: File)
    ensures var e', id := E.Step(e, E.AddFile(file)), e.sched.nextId;
            && e'.toReceiver == e.toReceiver + [Offer(MetaOf(id, file))]
            && e'.sched.out.offered == e.sched.out.offered[id := file]
            && e'.sched.nextId == id + 1
  {
  }

  lemma OneMoreNumbered(first: nat, files: seq<File>)
    requires files != []
    ensures var n := |files| - 1;
            var front, last := Numbered(first, files[..n]), (first + n, files[n]);
            && Numbered(first, files) == front + [last]
            && OffersOf(Numbered(first, files)) == OffersOf(front) + [Offer(MetaOf(last.0, last.1))]
            && AddAll(files) == AddAll(files[..n]) + [E.AddFile(files[n])]
  {
  }

  /** Offering a batch under consecutive ids is adding its files one by one. */
  lemma {:induction false} BatchIsAdds(e: E.Engine, files: seq<File>)
    ensures var e', numbered := E.Exec(e, AddAll(files)), Numbered(e.sched.nextId, files);
            && e'.toReceiver == e.toReceiver + OffersOf(numbered)
            && e'.sched.out.offered == OfferAll(e.sched.out.offered, numbered)
            && e'.sched.nextId == e.sched.nextId + |files|
    decreases |files|
  {
    if files == [] {
      assert e.toReceiver + [] == e.toReceiver;
    } else {
      var n := |files| - 1;
      var front := files[..n];
      var before := E.Exec(e, AddAll(front));
      BatchIsAdds(e, front);
      OneMoreNumbered(e.sched.nextId, files);
      E.ExecJoin(e, AddAll(front), [E.AddFile(files[n])]);
      E.ExecOne(before, E.AddFile(files[n]));
      OfferIsAdd(before, files[n]);
    }
  }

  /** An answer shows on the rows of a peer what it shows in the session of both. */
  lemma AnswersShowAlike(e: E.Engine, c: Control)
    requires c.Accept? || c.Reject? || c.Cancel?
    ensures E.HandleAtSender(e, c).rows == RowsOnControl(e.rows, c)
  {
  }

  class Peer {
    const out: Outgoing<File>
    const rows: L.RowList
    var routers: seq<Router>
    var incoming: map<nat, Incoming>
    var saved: seq<Saved>
    /** Everything put on the control channel. */
    var sent: seq<Control>
    ghost var dropped: set<nat>

    ghost predicate Valid()
      reads this`incoming, rows
    {
      rows.Valid() && forall a, b :: a in incoming && b in incoming && a != b ==> incoming[a] != incoming[b]
    }

    ghost function Buffers(): map<nat, IncState>
      reads this`incoming, incoming.Values
    {
      map id | id in incoming :: incoming[id].View()
    }

    ghost function View(): RecvState
      reads this, incoming.Values
    {
      RecvState(routers, Buffers(), saved, dropped)
    }

    constructor ()
      ensures Valid() && View() == RecvState([], map[], [], {}) && sent == []
      ensures fresh(out) && out.View() == S.Init<File>().out
      ensures fresh(rows) && rows.View() == map[]
    {
      out := new Outgoing<File>();
      rows := new L.RowList();
      routers, incoming, saved, sent, dropped := [], map[], [], [], {};
    }

    /** Announce files that already have their ids, and remember them until the peer answers. */
    method OfferFiles(files: seq<(nat, File)>)
      modifies this`sent, out
      ensures sent == old(sent) + OffersOf(files)
      ensures out.View() == old(out.View()).(offered := OfferAll(old(out.offered), files))
    {
      var i := 0;
      while i < |files|
        invariant i <= |files|
        invariant sent == old(sent) + OffersOf(files[..i])
        invariant out.View() == old(out.View()).(offered := OfferAll(old(out.offered), files[..i]))
      {
        assert files[..i + 1][..i] == files[..i];
        sent := sent + [Offer(MetaOf(files[i].0, files[i].1))];
        out.offered := out.offered[files[i].0 := files[i].1];
        i := i + 1;
      }
      assert files[..i] == files;
    }

    /** The local user accepts an offered file. */
    method AcceptOffer(id: nat)
      modifies this`sent
      ensures sent == old(sent) + [Accept(id)]
    {
      sent := sent + [Accept(id)];
    }

    /** The local user declines an offered file. */
    method RejectOffer(id: nat)
      modifies this`sent
      ensures sent == old(sent) + [Reject(id)]
    {
      sent := sent + [Reject(id)];
    }

    /** Drop a partial download. */
    method Forget(id: nat)
      requires Valid()
      modifies this`incoming, this`dropped
      ensures Valid() && View() == old(View()).Drop(id) && incoming.Values <= old(incoming.Values)
    {
      incoming := incoming - {id};
      dropped := dropped + {id};
    }

    /** The peer's answer about an outgoing file; `s` is the sender's history. */
    method OnAnswer(c: Control, ghost s: S.Sched<File>) returns (started: seq<(nat, File)>)
      requires rows.Valid() && out.View() == s.out && (c.Accept? || c.Reject? || c.Cancel?)
      modifies out, rows
      ensures rows.Valid() && rows.View() == RowsOnControl(old(rows.View()), c)
      ensures c.Accept? ==> out.View() == S.Step(s, S.Accept(c.id)).out
                            && S.Step(s, S.Accept(c.id)).started == s.started + started
      ensures c.Reject? ==> out.View() == S.Step(s, S.Reject(c.id)).out
      ensures c.Cancel? ==> out.View() == S.Step(s, S.Cancel(c.id)).out
      ensures !c.Accept? ==> started == []
    {
      started := [];
      match c
      case Accept(id) =>
        out.EnqueueAccepted(id);
        started := out.Schedule(S.MAX_CONCURRENT);
      case Reject(id) =>
        out.offered := out.offered - {id};
        rows.MarkRejected(id);
      case Cancel(id) =>
        out.CancelOutgoing(id);
        rows.MarkCancelledRemote(id);
    }

    /**
     * One frame from the control channel. Answers touch only the sending half and an abort only the
     * receiving half, so equal ids of the two directions never meet.
     */
    method HandleControl(c: Control, ghost s: S.Sched<File>) returns (started: seq<(nat, File)>)
      requires Valid() && out.View() == s.out
      modifies this`incoming, this`dropped, out, rows
      ensures Valid() && incoming.Values <= old(incoming.Values)
      ensures c.Accept? ==> out.View() == S.Step(s, S.Accept(c.id)).out
                            && S.Step(s, S.Accept(c.id)).started == s.started + started
      ensures c.Reject? ==> out.View() == S.Step(s, S.Reject(c.id)).out
      ensures c.Cancel? ==> out.View() == S.Step(s, S.Cancel(c.id)).out
      ensures !c.Accept? ==> started == []
      ensures !c.Accept? && !c.Reject? && !c.Cancel? ==> out.View() == old(out.View())
      ensures View() == if c.Abort? then old(View()).Drop(c.id) else old(View())
      ensures rows.View() == RowsOnControl(old(rows.View()), c)
    {
      started := [];
      if c.Accept? || c.Reject? || c.Cancel? {
        started := OnAnswer(c, s);
      } else if c.Offer? {
        rows.IncomingOffer(c.meta.id, c.meta.name, c.meta.size as real);
      } else if c.Abort? {
        Forget(c.id);
        rows.Cancel(c.id);
      }
    }

    /** The local user cancels an incoming file: the sender is told, and what is buffered is dropped. */
    method CancelIncoming(id: nat)
      requires Valid()
      modifies this
      ensures Valid() && View() == old(View()).Drop(id) && incoming.Values <= old(incoming.Values)
      ensures sent == old(sent) + [Cancel(id)]
    {
      sent := sent + [Cancel(id)];
      Forget(id);
    }

    /** The local user aborts an outgoing file: its coroutine is flagged, and the receiver is told. */
    method AbortOutgoing(id: nat)
      modifies this`sent, out
      ensures out.View() == old(out.View()).CancelOutgoing(id)
      ensures sent == old(sent) + [Abort(id)]
    {
      out.CancelOutgoing(id);
      sent := sent + [Abort(id)];
    }

    /** Register a new inbound file channel. */
    method OpenChannel() returns (k: nat)
      requires Valid()
      modifies this`routers
      ensures Valid() && k == |old(routers)|
      ensures View() == old(View()).(routers := old(routers) + [Router(0, None)])
    {
      k := |routers|;
      routers := routers + [Router(0, None)];
    }

    /** `Start`: the buffer is created unless it exists, and its meta is set unless it is known. */
    method OnStart(meta: FileStart)
      requires Valid()
      modifies this`incoming, incoming.Values
      ensures Valid() && fresh(incoming.Values - old(incoming.Values))
      ensures View() == old(View()).OnStart(meta)
    {
      var id := meta.id;
      if id !in incoming {
        var made := new Incoming();
        incoming := incoming[id := made];
      }
      var inc := incoming[id];
      if inc.meta == None {
        inc.meta := Some(meta);
      }
      assert Buffers() == old(View()).OnStart(meta).incoming;
    }

    /** Bytes: buffered, counted and reported, unless the buffer is gone. */
    method OnBytes(id: nat, bytes: seq<byte>, now: real)
      requires Valid()
      modifies rows, incoming.Values
      ensures Valid()
      ensures View() == old(View()).OnBytes(id, bytes, now)
      ensures rows.View() == RowsOnBytes(old(rows.View()), View(), id)
    {
      if id in incoming {
        var inc := incoming[id];
        inc.chunks := inc.chunks + [bytes];
        var progress := inc.AccountChunk(|bytes| as real, now);
        assert Buffers() == old(View()).OnBytes(id, bytes, now).incoming;
        match progress
        case Some(p) => rows.RecvProgress(p.id, p.name, p.received, p.size as real, p.speed);
        case None =>
      }
    }

    /** The chunks pushed one behind the other. */
    static method Assemble(parts: seq<seq<byte>>) returns (blob: seq<byte>)
      ensures blob == Flatten(parts)
    {
      blob := [];
      var i := 0;
      while i < |parts|
        invariant i <= |parts| && blob == Flatten(parts[..i])
      {
        assert parts[..i + 1] == parts[..i] + [parts[i]];
        FlattenPush(parts[..i], parts[i]);
        blob := blob + parts[i];
        i := i + 1;
      }
      assert parts[..i] == parts;
    }

    /** Take a buffer and its meta out. */
    method TakeOut(id: nat) returns (parts: seq<seq<byte>>, decided: Option<FileStart>)
      requires Valid() && id in incoming
      modifies this`incoming, incoming[id]
      ensures Valid() && incoming.Values <= old(incoming.Values)
      ensures Buffers() == old(Buffers()) - {id}
      ensures parts == old(incoming[id].chunks) && decided == old(incoming[id].meta)
    {
      var inc := incoming[id];
      parts := inc.chunks;
      inc.chunks := [];
      decided := inc.FinalizeDecision();
      incoming := incoming - {id};
      assert Buffers() == old(Buffers()) - {id};
    }

    /** Put the chunks together, hand the file to the browser, and show it as done. */
    method Save(meta: FileStart, parts: seq<seq<byte>>)
      requires rows.Valid()
      modifies this`saved, rows
      ensures rows.Valid() && saved == old(saved) + [Saved(meta, Flatten(parts))]
      ensures rows.View() == R.RecvComplete(old(rows.View()), meta.id, meta.name)
    {
      var blob := Assemble(parts);
      saved := saved + [Saved(meta, blob)];
      rows.RecvComplete(meta.id, meta.name);
    }

    /** `End`: take the buffer out and, if a transfer had started, put its chunks together and save them. */
    method Finalize(id: nat)
      requires Valid()
      modifies this`incoming, this`saved, rows, incoming.Values
      ensures Valid() && incoming.Values <= old(incoming.Values)
      ensures View() == old(View()).Finalize(id)
      ensures rows.View() == RowsOnEnd(old(rows.View()), old(View()), id)
    {
      if id in incoming {
        var parts, decided := TakeOut(id);
        if decided.Some? {
          Save(decided.value, parts);
        }
      }
    }

    /** `Start` on file channel `k`: from now on the channel is that file's. */
    method OnStartFrame(k: nat, meta: FileStart, ghost now: real)
      requires Valid() && k < |routers|
      modifies this`routers, this`incoming, incoming.Values
      ensures Valid() && fresh(incoming.Values - old(incoming.Values))
      ensures View() == old(View()).Receive(k, Text(Start(meta)), now)
    {
      routers := routers[k := Router(routers[k].read + 1, Some(meta.id))];
      OnStart(meta);
    }

    /** Text on file channel `k`: the frame that names the file, or the one that ends it. */
    method OnText(k: nat, c: Control, ghost now: real)
      requires Valid() && k < |routers|
      modifies this`routers, this`incoming, this`saved, rows, incoming.Values
      ensures Valid() && fresh(incoming.Values - old(incoming.Values))
      ensures View() == old(View()).Receive(k, Text(c), now)
      ensures rows.View() == RowsOnFrame(old(rows.View()), old(View()), k, Text(c), now)
    {
      if c.Start? {
        OnStartFrame(k, c.meta, now);
      } else {
        var r := routers[k];
        routers := routers[k := r.(read := r.read + 1)];
        if c.End? && r.cur.Some? {
          Finalize(r.cur.value);
        }
      }
    }

    /** One message on file channel `k`. */
    method OnFrame(k: nat, frame: Frame, now: real)
      requires Valid() && k < |routers|
      modifies this`routers, this`incoming, this`saved, rows, incoming.Values
      ensures Valid() && fresh(incoming.Values - old(incoming.Values))
      ensures View() == old(View()).Receive(k, frame, now)
      ensures rows.View() == RowsOnFrame(old(rows.View()), old(View()), k, frame, now)
    {
      match frame {
        case Text(c) => OnText(k, c, now);
        case Binary(bytes) =>
          var r := routers[k];
          routers := routers[k := r.(read := r.read + 1)];
          if r.cur.Some? {
            OnBytes(r.cur.value, bytes, now);
          }
      }
    }

    /** A coroutine ended: clear its flag or report all of it, free its slot and pump the queue. */
    method EndTask(id: nat, file: File, ghost s: S.Sched<File>) returns (started: seq<(nat, File)>)
      requires Valid() && out.View() == s.out && id in s.out.active
      modifies out, rows
      ensures Valid() && out.View() == S.Step(s, S.Finish(id)).out
      ensures S.Step(s, S.Finish(id)).started == s.started + started
      ensures rows.View() == if id in s.out.cancelled then old(rows.View())
                             else R.SendProgress(old(rows.View()), id, file.name,
                                                 |file.bytes| as real, |file.bytes| as real)
    {
      if id in out.cancelled {
        out.cancelled := out.cancelled - {id};
      } else {
        rows.SendProgress(id, file.name, |file.bytes| as real, |file.bytes| as real);
      }
      out.active := out.active - {id};
      assert out.cancelled == s.out.cancelled - {id};
      started := out.Schedule(S.MAX_CONCURRENT);
    }
  }
}
