/** The master's aggregate (gui-and-app/backend/app/sources/mesh.py). */
module Mesh {
  import opened Wrappers
  import opened Shipper
  import opened Relay

  datatype Slot = Slot(node: string, seqNo: nat, event: Event)

  /** `_events` in insertion order, `_cursor`, `_rejected`; `added` counts insertions. */
  datatype Mesh = Mesh(events: seq<Slot>, cursor: nat, rejected: nat, added: nat)

  const NEW_MESH := Mesh([], 0, 0, 0)

  /** `_open`: opens and verifies against the registry, then cross-checks the labels. */
  function Open(registry: map<string, string>, row: Row): Option<Event> {
    if row.ct.Junk? || row.ct.node !in registry || registry[row.ct.node] != row.ct.signer then None
    else if row.ct.node != row.node || row.ct.seqNo != row.seqNo then None
    else Some(row.ct.event)
  }

  predicate Has(events: seq<Slot>, node: string, seqNo: nat) {
    exists i :: 0 <= i < |events| && events[i].node == node && events[i].seqNo == seqNo
  }

  /** One blob: first wins, and the oldest goes when there are more than `cap`. */
  function Take(registry: map<string, string>, cap: nat, m: Mesh, row: Row): Mesh {
    var e := Open(registry, row);
    if e.None? then m.(rejected := m.rejected + 1)
    else if Has(m.events, row.node, row.seqNo) then m
    else
      var events := m.events + [Slot(row.node, row.seqNo, e.value)];
      m.(events := if |events| > cap then events[1..] else events, added := m.added + 1)
  }

  function TakeAll(registry: map<string, string>, cap: nat, m: Mesh, rows: seq<Row>): Mesh
    decreases |rows|
  {
    if |rows| == 0 then m else TakeAll(registry, cap, Take(registry, cap, m, rows[0]), rows[1..])
  }

  /** `_pull_and_merge`; None is an unreachable hub. */
  function Merge(registry: map<string, string>, cap: nat, m: Mesh, batch: Option<Batch>): Mesh {
    if batch.None? then m
    else TakeAll(registry, cap, m, batch.value.rows).(cursor := batch.value.cursor)
  }

  class MeshSource {
    const registry: map<string, string>
    const cap: nat
    var events: seq<Slot>
    var cursor: nat
    var rejected: nat
    ghost var added: nat

    ghost function Content(): Mesh
      reads this
    {
      Mesh(events, cursor, rejected, added)
    }

    constructor (registry: map<string, string>, cap: nat)
      ensures this.registry == registry && this.cap == cap && Content() == NEW_MESH
    {
      this.registry, this.cap := registry, cap;
      events, cursor, rejected, added := [], 0, 0, 0;
    }

    method PullAndMerge(batch: Option<Batch>)
      modifies this
      ensures Content() == Merge(registry, cap, old(Content()), batch)
    {
      if batch.None? { return; }
      var rows := batch.value.rows;
      ghost var start := Content();
      var i := 0;
      while i < |rows|
        invariant 0 <= i <= |rows|
        invariant cursor == old(cursor)
        invariant TakeAll(registry, cap, start, rows) == TakeAll(registry, cap, Content(), rows[i..])
      {
        ghost var here := Content();
        assert rows[i..][1..] == rows[i + 1..];
        var row := rows[i];
        var e := Open(registry, row);
        if e.None? {
          rejected := rejected + 1;
        } else if !Has(events, row.node, row.seqNo) {
          events := events + [Slot(row.node, row.seqNo, e.value)];
          if |events| > cap { events := events[1..]; }
          added := added + 1;
        }
        assert Content() == Take(registry, cap, here, row);
        i := i + 1;
      }
      cursor := batch.value.cursor;
    }
  }

  // ---- what the aggregate keeps ----

  ghost predicate Keyed(events: seq<Slot>) {
    forall i, j :: 0 <= i < j < |events| ==> events[i].node != events[j].node || events[i].seqNo != events[j].seqNo
  }

  /** An entry that a verified row of `rows` carried. */
  ghost predicate Carried(registry: map<string, string>, rows: seq<Row>, s: Slot) {
    exists r :: r in rows && r.node == s.node && r.seqNo == s.seqNo && Open(registry, r) == Some(s.event)
  }

  ghost predicate From(registry: map<string, string>, events: seq<Slot>, rows: seq<Row>) {
    forall i :: 0 <= i < |events| ==> Carried(registry, rows, events[i])
  }

  /** Nothing has been evicted yet. */
  predicate Roomy(cap: nat, m: Mesh) {
    m.added <= cap
  }

  ghost predicate MeshOk(registry: map<string, string>, cap: nat, m: Mesh, seen: seq<Row>) {
    && Keyed(m.events) && From(registry, m.events, seen)
    && |m.events| <= m.added
    && (Roomy(cap, m) ==> |m.events| == m.added)
    && (Roomy(cap, m) ==> forall r :: r in seen && Open(registry, r).Some? ==> Has(m.events, r.node, r.seqNo))
  }

  lemma KeyedTail(events: seq<Slot>)
    requires Keyed(events) && |events| > 0
    ensures Keyed(events[1..])
  {}

  lemma TakeOk(registry: map<string, string>, cap: nat, m: Mesh, seen: seq<Row>, row: Row)
    requires MeshOk(registry, cap, m, seen)
    ensures MeshOk(registry, cap, Take(registry, cap, m, row), seen + [row])
  {
    var m' := Take(registry, cap, m, row);
    FromMore(registry, m.events, seen, row);
    if Open(registry, row).Some? && !Has(m.events, row.node, row.seqNo) {
      var events := m.events + [Slot(row.node, row.seqNo, Open(registry, row).value)];
      AppendFrom(registry, m.events, seen, row);
      AppendKeyed(m.events, row.node, row.seqNo, Open(registry, row).value);
      if |events| > cap { KeyedTail(events); }
      if Roomy(cap, m') {
        forall r | r in seen + [row] && Open(registry, r).Some? ensures Has(events, r.node, r.seqNo) {
          HasAppend(m.events, events[|m.events|], r.node, r.seqNo);
        }
      }
    }
  }

  lemma FromMore(registry: map<string, string>, events: seq<Slot>, rows: seq<Row>, row: Row)
    requires From(registry, events, rows)
    ensures From(registry, events, rows + [row])
  {
    hide Open;
    forall i | 0 <= i < |events| ensures Carried(registry, rows + [row], events[i]) {
      var s := events[i];
      assert Carried(registry, rows, s);
      var r :| r in rows && r.node == s.node && r.seqNo == s.seqNo && Open(registry, r) == Some(s.event);
      assert r in rows + [row];
    }
  }

  lemma AppendFrom(registry: map<string, string>, events: seq<Slot>, seen: seq<Row>, row: Row)
    requires From(registry, events, seen) && Open(registry, row).Some?
    ensures From(registry, events + [Slot(row.node, row.seqNo, Open(registry, row).value)], seen + [row])
  {
    hide Open;
    var events' := events + [Slot(row.node, row.seqNo, Open(registry, row).value)];
    FromMore(registry, events, seen, row);
    assert row in seen + [row];
  }

  lemma AppendKeyed(events: seq<Slot>, node: string, seqNo: nat, e: Event)
    requires Keyed(events) && !Has(events, node, seqNo)
    ensures Keyed(events + [Slot(node, seqNo, e)])
  {}

  lemma HasAppend(events: seq<Slot>, s: Slot, node: string, seqNo: nat)
    requires Has(events, node, seqNo) || (s.node == node && s.seqNo == seqNo)
    ensures Has(events + [s], node, seqNo)
  {
    var events' := events + [s];
    if Has(events, node, seqNo) {
      var i :| 0 <= i < |events| && events[i].node == node && events[i].seqNo == seqNo;
      assert events'[i] == events[i];
    } else {
      assert events'[|events|] == s;
    }
  }

  lemma {:induction false} TakeAllOk(registry: map<string, string>, cap: nat, m: Mesh, seen: seq<Row>, rows: seq<Row>)
    requires MeshOk(registry, cap, m, seen)
    ensures MeshOk(registry, cap, TakeAll(registry, cap, m, rows), seen + rows)
    decreases |rows|
  {
    hide MeshOk;
    if |rows| == 0 {
      assert seen + rows == seen;
    } else {
      TakeOk(registry, cap, m, seen, rows[0]);
      TakeAllOk(registry, cap, Take(registry, cap, m, rows[0]), seen + [rows[0]], rows[1..]);
      assert seen + [rows[0]] + rows[1..] == seen + rows;
    }
  }
}
