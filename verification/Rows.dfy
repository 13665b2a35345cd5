/** The row operations of the UI, on a map from (id, direction) to row. */
module RowMaps {
  import opened Prelude

  datatype RowState = Pending | Offered | Active | Done | Declined | Cancelled

  datatype Row = Row(
    id: nat,
    name: string,
    size: real,
    incoming: bool,
    fraction: real,
    speed: real,
    state: RowState)

  /** The id and whether the row is incoming. */
  type Key = (nat, bool)

  type RowMap = map<Key, Row>

  function KeyOf(row: Row): Key {
    (row.id, row.incoming)
  }

  /** Completed fraction; a zero-byte file counts as complete. */
  function Frac(done: real, total: real): real {
    if total > 0.0 then done / total else 1.0
  }

  // ----- the row operations on the map -----

  function Upserted(m: RowMap, made: Row, apply: Row -> Row): RowMap {
    var key := KeyOf(made);
    m[key := apply(if key in m then m[key] else made)]
  }

  function WithState(m: RowMap, key: Key, state: RowState): RowMap {
    if key in m then m[key := m[key].(state := state)] else m
  }

  function IncomingOffer(m: RowMap, id: nat, name: string, size: real): RowMap {
    Upserted(m, Row(id, name, size, true, 0.0, 0.0, Offered), (r: Row) => r)
  }

  function RecvProgress(m: RowMap, id: nat, name: string, recv: real, total: real, speed: real): RowMap {
    var f := Frac(recv, total);
    Upserted(m, Row(id, name, total, true, f, speed, Active),
             (r: Row) => r.(fraction := f, speed := speed, state := Active))
  }

  function RecvComplete(m: RowMap, id: nat, name: string): RowMap {
    Upserted(m, Row(id, name, 0.0, true, 1.0, 0.0, Done), (r: Row) => r.(fraction := 1.0, speed := 0.0, state := Done))
  }

  function SendProgress(m: RowMap, id: nat, name: string, sent: real, total: real): RowMap {
    var f := Frac(sent, total);
    var state := if f >= 1.0 then Done else Active;
    Upserted(m, Row(id, name, total, false, f, 0.0, state), (r: Row) => r.(fraction := f, state := state))
  }

  function PushPending(m: RowMap, id: nat, name: string, size: real): RowMap {
    m[(id, false) := Row(id, name, size, false, 0.0, 0.0, Pending)]
  }

  function MarkOffered(m: RowMap, id: nat): RowMap {
    if (id, false) in m && m[(id, false)].state == Pending then WithState(m, (id, false), Offered) else m
  }

  function MarkRejected(m: RowMap, id: nat): RowMap {
    WithState(m, (id, false), Declined)
  }

  function MarkCancelledRemote(m: RowMap, id: nat): RowMap {
    if (id, false) in m && m[(id, false)].state != Done then WithState(m, (id, false), Cancelled) else m
  }

  function Accept(m: RowMap, id: nat): RowMap {
    WithState(m, (id, true), Active)
  }

  function Decline(m: RowMap, id: nat): RowMap {
    m - {(id, true)}
  }

  function Cancel(m: RowMap, id: nat): RowMap {
    WithState(m, (id, true), Cancelled)
  }

  function CancelAllActive(m: RowMap): RowMap {
    map k | k in m :: if m[k].state == Active then m[k].(state := Cancelled) else m[k]
  }

  function AcceptAll(m: RowMap, ids: seq<nat>): RowMap {
    map k | k in m :: if k.1 && k.0 in ids then m[k].(state := Active) else m[k]
  }

  function AcceptEach(m: RowMap, ids: seq<nat>): RowMap {
    if ids == [] then m else AcceptEach(Accept(m, ids[0]), ids[1..])
  }

  /** "Accept all" is accepting the listed ids one by one. */
  lemma {:induction false} AcceptAllIsEach(m: RowMap, ids: seq<nat>)
    requires forall k :: k in m ==> KeyOf(m[k]) == k
    ensures AcceptAll(m, ids) == AcceptEach(m, ids)
    decreases |ids|
  {
    if ids == [] {
      assert AcceptAll(m, ids) == m;
    } else {
      var m' := Accept(m, ids[0]);
      AcceptAllIsEach(m', ids[1..]);
      assert ids == [ids[0]] + ids[1..];
      assert AcceptAll(m, ids) == AcceptAll(m', ids[1..]);
    }
  }

  // ----- rows do not interfere -----

  datatype RowOp =
    | DoOffer(id: nat, name: string, size: real)
    | DoRecvProgress(id: nat, name: string, recv: real, total: real, speed: real)
    | DoRecvComplete(id: nat, name: string)
    | DoSendProgress(id: nat, name: string, sent: real, total: real)
    | DoPush(id: nat, name: string, size: real)
    | DoMarkOffered(id: nat)
    | DoMarkRejected(id: nat)
    | DoMarkCancelled(id: nat)
    | DoAccept(id: nat)
    | DoDecline(id: nat)
    | DoCancel(id: nat)
    | DoCancelAllActive
    | DoAcceptAll(ids: seq<nat>)

  function Apply(m: RowMap, op: RowOp): RowMap {
    match op
    case DoOffer(id, name, size) => IncomingOffer(m, id, name, size)
    case DoRecvProgress(id, name, recv, total, speed) => RecvProgress(m, id, name, recv, total, speed)
    case DoRecvComplete(id, name) => RecvComplete(m, id, name)
    case DoSendProgress(id, name, sent, total) => SendProgress(m, id, name, sent, total)
    case DoPush(id, name, size) => PushPending(m, id, name, size)
    case DoMarkOffered(id) => MarkOffered(m, id)
    case DoMarkRejected(id) => MarkRejected(m, id)
    case DoMarkCancelled(id) => MarkCancelledRemote(m, id)
    case DoAccept(id) => Accept(m, id)
    case DoDecline(id) => Decline(m, id)
    case DoCancel(id) => Cancel(m, id)
    case DoCancelAllActive => CancelAllActive(m)
    case DoAcceptAll(ids) => AcceptAll(m, ids)
  }

  /** The rows an operation is about: one row of one direction, or, for the bulk ones, a class of rows. */
  predicate Concerns(op: RowOp, key: Key) {
    match op
    case DoCancelAllActive => true
    case DoAcceptAll(ids) => key.1 && key.0 in ids
    case _ =>
      var outgoing :=
        op.DoSendProgress? || op.DoPush? || op.DoMarkOffered? || op.DoMarkRejected? || op.DoMarkCancelled?;
      key == (op.id, !outgoing)
  }

  function Lookup(m: RowMap, key: Key): Option<Row> {
    if key in m then Some(m[key]) else None
  }

  function ApplyAll(m: RowMap, ops: seq<RowOp>): RowMap
    decreases |ops|
  {
    if ops == [] then m else ApplyAll(Apply(m, ops[0]), ops[1..])
  }

  function Concerning(ops: seq<RowOp>, key: Key): seq<RowOp> {
    if ops == [] then []
    else (if Concerns(ops[0], key) then [ops[0]] else []) + Concerning(ops[1..], key)
  }

  /** An operation leaves every row it is not about, and what it makes of a row depends on that row alone. */
  lemma ApplyIsLocal(a: RowMap, b: RowMap, op: RowOp, key: Key)
    requires Lookup(a, key) == Lookup(b, key)
    ensures !Concerns(op, key) ==> Lookup(Apply(a, op), key) == Lookup(a, key)
    ensures Lookup(Apply(a, op), key) == Lookup(Apply(b, op), key)
  {
  }

  // ----- what an operation shows -----

  /** A report about a file without a row shows what it would show after an offer or an announcement of it. */
  lemma ReportsStandAlone(m: RowMap, id: nat, name: string, done: real, total: real, speed: real)
    ensures (id, true) !in m ==>
              && RecvProgress(m, id, name, done, total, speed)
                 == RecvProgress(IncomingOffer(m, id, name, total), id, name, done, total, speed)
              && RecvComplete(m, id, name) == RecvComplete(IncomingOffer(m, id, name, 0.0), id, name)
    ensures (id, false) !in m ==>
              SendProgress(m, id, name, done, total)
              == SendProgress(PushPending(m, id, name, total), id, name, done, total)
  {
  }

  /** An offer or an announcement that comes again, or late, takes nothing back that a row shows already. */
  lemma RepeatsChangeNothing(m: RowMap, id: nat, name: string, size: real)
    ensures (id, true) in m ==> IncomingOffer(m, id, name, size) == m
    ensures (id, false) in m && m[(id, false)].state != Pending ==> MarkOffered(m, id) == m
    ensures (id, false) in m && m[(id, false)].state == Done ==> MarkCancelledRemote(m, id) == m
  {
  }

  /** Cancelling all does to every active row what its own cancel does, and nothing to any other. */
  lemma CancelAllIsEach(m: RowMap, id: nat)
    ensures CancelAllActive(m).Keys == m.Keys
    ensures (id, true) in m ==>
              CancelAllActive(m)[(id, true)]
              == (if m[(id, true)].state == Active then Cancel(m, id) else m)[(id, true)]
    ensures (id, false) in m ==>
              CancelAllActive(m)[(id, false)]
              == (if m[(id, false)].state == Active then MarkCancelledRemote(m, id) else m)[(id, false)]
  {
  }

  /** The rows of one direction. */
  function HalfOf(m: RowMap, incoming: bool): RowMap {
    m - (set k | k in m && k.1 != incoming)
  }

  predicate OfDirection(op: RowOp, incoming: bool) {
    !op.DoCancelAllActive? && !op.DoAcceptAll? && Concerns(op, (op.id, incoming))
  }

  lemma SameLookups(a: RowMap, b: RowMap)
    requires forall key: Key :: Lookup(a, key) == Lookup(b, key)
    ensures a == b
  {
    assert forall key: Key :: key in a ==> Lookup(a, key) == Some(a[key]) && Lookup(b, key) == Some(b[key]);
    assert forall key: Key :: key in b ==> Lookup(b, key) == Some(b[key]) && Lookup(a, key) == Some(a[key]);
  }

  /** An operation about one direction acts there as if the other did not exist, and not at all on the other. */
  lemma ApplyHalf(m: RowMap, op: RowOp, incoming: bool)
    requires OfDirection(op, incoming)
    ensures HalfOf(Apply(m, op), incoming) == Apply(HalfOf(m, incoming), op)
    ensures HalfOf(Apply(m, op), !incoming) == HalfOf(m, !incoming)
  {
    var half := HalfOf(m, incoming);
    forall key: Key
      ensures Lookup(HalfOf(Apply(m, op), incoming), key) == Lookup(Apply(half, op), key)
      ensures Lookup(HalfOf(Apply(m, op), !incoming), key) == Lookup(HalfOf(m, !incoming), key)
    {
      if key.1 == incoming {
        ApplyIsLocal(m, half, op, key);
      } else {
        ApplyIsLocal(half, half, op, key);
        ApplyIsLocal(m, m, op, key);
      }
    }
    SameLookups(HalfOf(Apply(m, op), incoming), Apply(half, op));
    SameLookups(HalfOf(Apply(m, op), !incoming), HalfOf(m, !incoming));
  }

  /** Over every run, a row is what the operations about it make of it; all others could be left out. */
  lemma {:induction false} RowsDoNotInterfere(a: RowMap, b: RowMap, ops: seq<RowOp>, key: Key)
    requires Lookup(a, key) == Lookup(b, key)
    ensures Lookup(ApplyAll(a, ops), key) == Lookup(ApplyAll(b, Concerning(ops, key)), key)
    decreases |ops|
  {
    if ops == [] {
    } else {
      var op, rest := ops[0], Concerning(ops[1..], key);
      ApplyIsLocal(a, b, op, key);
      if Concerns(op, key) {
        RowsDoNotInterfere(Apply(a, op), Apply(b, op), ops[1..], key);
        assert ([op] + rest)[1..] == rest;
      } else {
        RowsDoNotInterfere(Apply(a, op), b, ops[1..], key);
        assert [] + rest == rest;
      }
    }
  }
}

/** The row list of the UI, kept by find-or-append: every operation acts on it as on the map. */
module Rows {
  import opened Prelude
  import opened RowMaps
  import Spec = RowMaps

  // ----- the list -----

  ghost predicate Unique(rows: seq<Row>) {
    forall i, j :: 0 <= i < j < |rows| ==> KeyOf(rows[i]) != KeyOf(rows[j])
  }

  function AsMap(rows: seq<Row>): RowMap {
    if rows == [] then map[]
    else AsMap(rows[..|rows| - 1])[KeyOf(rows[|rows| - 1]) := rows[|rows| - 1]]
  }

  lemma {:induction false} AsMapKeys(rows: seq<Row>)
    ensures forall k :: k in AsMap(rows) <==> exists i :: 0 <= i < |rows| && KeyOf(rows[i]) == k
    ensures forall k :: k in AsMap(rows) ==> KeyOf(AsMap(rows)[k]) == k
    decreases |rows|
  {
    if rows == [] {
    } else {
      var n := |rows| - 1;
      AsMapKeys(rows[..n]);
      forall k ensures k in AsMap(rows) <==> exists i :: 0 <= i < |rows| && KeyOf(rows[i]) == k {
        if k in AsMap(rows[..n]) {
          var i :| 0 <= i < |rows[..n]| && KeyOf(rows[..n][i]) == k;
          assert KeyOf(rows[i]) == k;
        }
        if i :| 0 <= i < |rows| && KeyOf(rows[i]) == k && i < n {
          assert KeyOf(rows[..n][i]) == k;
        }
      }
    }
  }

  lemma {:induction false} AsMapAt(rows: seq<Row>, i: nat)
    requires Unique(rows) && i < |rows|
    ensures KeyOf(rows[i]) in AsMap(rows) && AsMap(rows)[KeyOf(rows[i])] == rows[i]
    decreases |rows|
  {
    var n := |rows| - 1;
    if i == n {
    } else {
      AsMapAt(rows[..n], i);
    }
  }

  lemma AsMapPush(rows: seq<Row>, row: Row)
    ensures AsMap(rows + [row]) == AsMap(rows)[KeyOf(row) := row]
  {
    assert (rows + [row])[..|rows|] == rows;
  }

  lemma {:induction false} AsMapUpdate(rows: seq<Row>, i: nat, row: Row)
    requires Unique(rows) && i < |rows| && KeyOf(row) == KeyOf(rows[i])
    ensures Unique(rows[i := row])
    ensures AsMap(rows[i := row]) == AsMap(rows)[KeyOf(row) := row]
    decreases |rows|
  {
    var n := |rows| - 1;
    if i < n {
      AsMapUpdate(rows[..n], i, row);
      assert rows[i := row][..n] == rows[..n][i := row];
      assert KeyOf(rows[n]) != KeyOf(row);
    } else {
      assert rows[i := row][..n] == rows[..n];
    }
  }

  ghost predicate SameKeys(a: seq<Row>, b: seq<Row>) {
    |a| == |b| && forall i :: 0 <= i < |a| ==> KeyOf(a[i]) == KeyOf(b[i])
  }

  lemma {:induction false} AsMapValue(rows: seq<Row>, k: Key)
    requires k in AsMap(rows)
    ensures exists i :: 0 <= i < |rows| && KeyOf(rows[i]) == k && rows[i] == AsMap(rows)[k]
    decreases |rows|
  {
    var n := |rows| - 1;
    if KeyOf(rows[n]) == k {
    } else {
      AsMapValue(rows[..n], k);
      var i :| 0 <= i < n && KeyOf(rows[..n][i]) == k && rows[..n][i] == AsMap(rows[..n])[k];
      assert rows[i] == AsMap(rows)[k];
    }
  }

  function Changed(m: RowMap, change: Row -> Row): RowMap {
    map k | k in m :: change(m[k])
  }

  lemma {:induction false} RewriteIsMap(before: seq<Row>, after: seq<Row>, change: Row -> Row)
    requires forall r :: KeyOf(change(r)) == KeyOf(r)
    requires |after| == |before| && forall j :: 0 <= j < |after| ==> after[j] == change(before[j])
    ensures AsMap(after) == Changed(AsMap(before), change)
    decreases |before|
  {
    if before == [] {
    } else {
      var n := |before| - 1;
      RewriteIsMap(before[..n], after[..n], change);
      var key, m := KeyOf(before[n]), AsMap(before[..n]);
      assert Changed(m[key := before[n]], change) == Changed(m, change)[key := change(before[n])];
    }
  }

  /** A row's key is new to the rows before it. */
  lemma NextRow(rows: seq<Row>, i: nat)
    requires Unique(rows) && i < |rows|
    ensures KeyOf(rows[i]) !in AsMap(rows[..i])
    ensures AsMap(rows[..i + 1]) == AsMap(rows[..i])[KeyOf(rows[i]) := rows[i]]
  {
    assert rows[..i + 1] == rows[..i] + [rows[i]];
    AsMapPush(rows[..i], rows[i]);
    AsMapKeys(rows[..i]);
    assert forall j :: 0 <= j < i ==> KeyOf(rows[..i][j]) == KeyOf(rows[j]);
  }

  ghost predicate KeptSoFar(kept: seq<Row>, m: RowMap, key: Key) {
    Unique(kept) && AsMap(kept) == m - {key}
  }

  lemma KeepStep(kept: seq<Row>, m: RowMap, key: Key, row: Row)
    requires KeptSoFar(kept, m, key) && KeyOf(row) !in m
    ensures KeptSoFar(if KeyOf(row) == key then kept else kept + [row], m[KeyOf(row) := row], key)
  {
    AsMapKeys(kept);
    AsMapPush(kept, row);
    forall i | 0 <= i < |kept| ensures KeyOf(kept[i]) != KeyOf(row) {
      assert KeyOf(kept[i]) in AsMap(kept);
    }
    if KeyOf(row) == key {
      assert m[KeyOf(row) := row] - {key} == m - {key};
    } else {
      assert m[KeyOf(row) := row] - {key} == (m - {key})[KeyOf(row) := row];
    }
  }

  lemma PendingIs(rows: seq<Row>, id: nat)
    requires Unique(rows)
    ensures (exists j :: 0 <= j < |rows| && KeyOf(rows[j]) == (id, true) && rows[j].state == Offered)
            <==> (id, true) in AsMap(rows) && AsMap(rows)[(id, true)].state == Offered
  {
    if j :| 0 <= j < |rows| && KeyOf(rows[j]) == (id, true) && rows[j].state == Offered {
      AsMapAt(rows, j);
    }
    if (id, true) in AsMap(rows) {
      AsMapValue(rows, (id, true));
    }
  }

  class RowList {
    var rows: seq<Row>

    ghost predicate Valid()
      reads this
    {
      Unique(rows)
    }

    ghost function View(): RowMap
      reads this
    {
      AsMap(rows)
    }

    constructor ()
      ensures Valid() && View() == map[]
    {
      rows := [];
    }

    /** The first row with this key, or `|rows|`. */
    method Find(key: Key) returns (i: nat)
      ensures i <= |rows|
      ensures i < |rows| ==> KeyOf(rows[i]) == key
      ensures i == |rows| <==> key !in View()
    {
      i := 0;
      while i < |rows| && KeyOf(rows[i]) != key
        invariant i <= |rows|
        invariant forall j :: 0 <= j < i ==> KeyOf(rows[j]) != key
      {
        i := i + 1;
      }
      AsMapKeys(rows);
    }

    method Upsert(made: Row, apply: Row -> Row)
      requires Valid()
      requires forall r :: KeyOf(apply(r)) == KeyOf(r)
      modifies this
      ensures Valid() && View() == Upserted(old(View()), made, apply)
      ensures SameKeys(rows, old(rows) + if KeyOf(made) in old(View()) then [] else [made])
    {
      var i := Find(KeyOf(made));
      if i < |rows| {
        AsMapAt(rows, i);
        AsMapUpdate(rows, i, apply(rows[i]));
        rows := rows[i := apply(rows[i])];
      } else {
        var row := apply(made);
        AsMapKeys(rows);
        AsMapPush(rows, row);
        rows := rows + [row];
      }
    }

    /** Set the state of one row if it exists. */
    method SetState(key: Key, state: RowState)
      requires Valid()
      modifies this
      ensures Valid() && View() == WithState(old(View()), key, state)
      ensures SameKeys(rows, old(rows))
    {
      var i := Find(key);
      if i < |rows| {
        AsMapAt(rows, i);
        AsMapUpdate(rows, i, rows[i].(state := state));
        rows := rows[i := rows[i].(state := state)];
      }
    }

    method IncomingOffer(id: nat, name: string, size: real)
      requires Valid()
      modifies this
      ensures Valid() && View() == Spec.IncomingOffer(old(View()), id, name, size)
    {
      Upsert(Row(id, name, size, true, 0.0, 0.0, Offered), (r: Row) => r);
    }

    method RecvProgress(id: nat, name: string, recv: real, total: real, speed: real)
      requires Valid()
      modifies this
      ensures Valid() && View() == Spec.RecvProgress(old(View()), id, name, recv, total, speed)
    {
      var f := Frac(recv, total);
      Upsert(Row(id, name, total, true, f, speed, Active),
             (r: Row) => r.(fraction := f, speed := speed, state := Active));
    }

    method RecvComplete(id: nat, name: string)
      requires Valid()
      modifies this
      ensures Valid() && View() == Spec.RecvComplete(old(View()), id, name)
    {
      Upsert(Row(id, name, 0.0, true, 1.0, 0.0, Done), (r: Row) => r.(fraction := 1.0, speed := 0.0, state := Done));
    }

    method SendProgress(id: nat, name: string, sent: real, total: real)
      requires Valid()
      modifies this
      ensures Valid() && View() == Spec.SendProgress(old(View()), id, name, sent, total)
    {
      var f := Frac(sent, total);
      var state := if f >= 1.0 then Done else Active;
      Upsert(Row(id, name, total, false, f, 0.0, state), (r: Row) => r.(fraction := f, state := state));
    }

    /** The row is appended whatever is there; keys stay unique exactly if the id was new, as a counter's is. */
    method PushPending(id: nat, name: string, size: real)
      requires Valid()
      modifies this
      ensures rows == old(rows) + [Row(id, name, size, false, 0.0, 0.0, Pending)]
      ensures View() == Spec.PushPending(old(View()), id, name, size)
      ensures Valid() <==> (id, false) !in old(View())
    {
      var row := Row(id, name, size, false, 0.0, 0.0, Pending);
      if i :| 0 <= i < |rows| && KeyOf(rows[i]) == (id, false) {
        assert KeyOf((rows + [row])[i]) == KeyOf((rows + [row])[|rows|]);
      }
      AsMapKeys(rows);
      AsMapPush(rows, row);
      rows := rows + [row];
    }

    method MarkOffered(id: nat)
      requires Valid()
      modifies this
      ensures Valid() && View() == Spec.MarkOffered(old(View()), id)
      ensures SameKeys(rows, old(rows))
    {
      var i := Find((id, false));
      if i < |rows| {
        AsMapAt(rows, i);
        if rows[i].state == Pending {
          SetState((id, false), Offered);
        }
      }
    }

    method MarkRejected(id: nat)
      requires Valid()
      modifies this
      ensures Valid() && View() == Spec.MarkRejected(old(View()), id)
      ensures SameKeys(rows, old(rows))
    {
      SetState((id, false), Declined);
    }

    method MarkCancelledRemote(id: nat)
      requires Valid()
      modifies this
      ensures Valid() && View() == Spec.MarkCancelledRemote(old(View()), id)
      ensures SameKeys(rows, old(rows))
    {
      var i := Find((id, false));
      if i < |rows| {
        AsMapAt(rows, i);
        if rows[i].state != Done {
          SetState((id, false), Cancelled);
        }
      }
    }

    method Accept(id: nat)
      requires Valid()
      modifies this
      ensures Valid() && View() == Spec.Accept(old(View()), id)
      ensures SameKeys(rows, old(rows))
    {
      SetState((id, true), Active);
    }

    method Cancel(id: nat)
      requires Valid()
      modifies this
      ensures Valid() && View() == Spec.Cancel(old(View()), id)
      ensures SameKeys(rows, old(rows))
    {
      SetState((id, true), Cancelled);
    }

    method Decline(id: nat)
      requires Valid()
      modifies this
      ensures Valid() && View() == Spec.Decline(old(View()), id)
    {
      var kept, i := [], 0;
      while i < |rows|
        invariant i <= |rows| && rows == old(rows)
        invariant KeptSoFar(kept, AsMap(rows[..i]), (id, true))
      {
        NextRow(rows, i);
        KeepStep(kept, AsMap(rows[..i]), (id, true), rows[i]);
        if KeyOf(rows[i]) != (id, true) {
          kept := kept + [rows[i]];
        }
        i := i + 1;
      }
      assert rows[..i] == rows;
      rows := kept;
    }

    /** Rewrite every row by `change`, which keeps keys. */
    method Rewrite(change: Row -> Row)
      requires Valid()
      requires forall r :: KeyOf(change(r)) == KeyOf(r)
      modifies this
      ensures Valid() && View() == Changed(old(View()), change)
      ensures SameKeys(rows, old(rows))
    {
      var i := 0;
      while i < |rows|
        invariant i <= |rows| == |old(rows)|
        invariant forall j :: 0 <= j < i ==> rows[j] == change(old(rows)[j])
        invariant forall j :: i <= j < |rows| ==> rows[j] == old(rows)[j]
      {
        rows := rows[i := change(rows[i])];
        i := i + 1;
      }
      RewriteIsMap(old(rows), rows, change);
    }

    method MarkAllActiveCancelled()
      requires Valid()
      modifies this
      ensures Valid() && View() == CancelAllActive(old(View()))
      ensures SameKeys(rows, old(rows))
    {
      Rewrite((r: Row) => if r.state == Active then r.(state := Cancelled) else r);
    }

    method AcceptAll(ids: seq<nat>)
      requires Valid()
      modifies this
      ensures Valid() && View() == Spec.AcceptAll(old(View()), ids)
      ensures SameKeys(rows, old(rows))
    {
      AsMapKeys(rows);
      Rewrite((r: Row) => if r.incoming && r.id in ids then r.(state := Active) else r);
    }

    /** The ids of the incoming rows still undecided, in list order. */
    method PendingIncomingIds() returns (ids: seq<nat>)
      requires Valid()
      ensures forall id :: id in ids <==> (id, true) in View() && View()[(id, true)].state == Offered
      ensures Distinct(ids)
    {
      ids := [];
      var i := 0;
      while i < |rows|
        invariant i <= |rows|
        invariant forall id :: id in ids <==>
                    exists j :: 0 <= j < i && KeyOf(rows[j]) == (id, true) && rows[j].state == Offered
        invariant Distinct(ids)
      {
        if rows[i].incoming && rows[i].state == Offered {
          assert KeyOf(rows[i]) == (rows[i].id, true);
          ids := ids + [rows[i].id];
        }
        i := i + 1;
      }
      forall id ensures id in ids <==> (id, true) in View() && View()[(id, true)].state == Offered {
        PendingIs(rows, id);
      }
    }
  }

  /** "Accept all" after listing the pending ids makes exactly the undecided incoming rows active. */
  lemma AcceptAllPending(m: RowMap, ids: seq<nat>)
    requires forall k :: k in m ==> KeyOf(m[k]) == k
    requires forall id :: id in ids <==> (id, true) in m && m[(id, true)].state == Offered
    ensures Spec.AcceptAll(m, ids)
            == map k | k in m :: if k.1 && m[k].state == Offered then m[k].(state := Active) else m[k]
    ensures Spec.AcceptAll(m, ids) == AcceptEach(m, ids)
  {
    AcceptAllIsEach(m, ids);
    forall k | k in m ensures k.1 && k.0 in ids <==> k.1 && m[k].state == Offered {
      assert k == (k.0, k.1);
    }
  }
}
