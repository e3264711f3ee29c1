/** The hub's blind drop box (gui-and-app/backend/app/relay.py): a bounded, append-only
    table with growing ids, drained by cursor. */
module Relay {
  import opened Shipper

  /** A sealed alert. Only `signer` can have made it; the hub reads none of it. */
  datatype Cipher = Alert(signer: string, node: string, seqNo: nat, event: Event) | Junk

  /** A row: id, routing labels, ciphertext. */
  datatype Row = Row(id: nat, node: string, seqNo: nat, ct: Cipher)
  datatype Batch = Batch(cursor: nat, rows: seq<Row>)

  datatype Table = Table(rows: seq<Row>, lastId: nat)

  function Above(rows: seq<Row>, floor: int): seq<Row> {
    if |rows| == 0 then []
    else if rows[0].id > floor then [rows[0]] + Above(rows[1..], floor)
    else Above(rows[1..], floor)
  }

  /** INSERT, then DELETE the rows with id <= MAX(id) - cap. */
  function Deposit(cap: nat, t: Table, node: string, seqNo: nat, ct: Cipher): Table {
    var id := t.lastId + 1;
    Table(Above(t.rows + [Row(id, node, seqNo, ct)], id - cap), id)
  }

  function Drain(t: Table, since: nat, limit: nat): Batch {
    var newer := Above(t.rows, since);
    var rows := if |newer| <= limit then newer else newer[..limit];
    Batch(if |rows| > 0 then rows[|rows| - 1].id else since, rows)
  }

  class RelayBuffer {
    const cap: nat
    var rows: seq<Row>
    var lastId: nat

    function Content(): Table
      reads this
    {
      Table(rows, lastId)
    }

    constructor (cap: nat)
      ensures this.cap == cap && Content() == Table([], 0)
    {
      this.cap := cap;
      rows, lastId := [], 0;
    }

    method Add(node: string, seqNo: nat, ct: Cipher) returns (id: nat)
      modifies this
      ensures Content() == Deposit(cap, old(Content()), node, seqNo, ct) && id == lastId
    {
      lastId := lastId + 1;
      id := lastId;
      rows := rows + [Row(id, node, seqNo, ct)];
      rows := Select(id - cap);
    }

    /** SELECT ... WHERE id > floor ORDER BY id. */
    method Select(floor: int) returns (kept: seq<Row>)
      ensures kept == Above(rows, floor)
    {
      kept := [];
      var i := 0;
      while i < |rows|
        invariant 0 <= i <= |rows|
        invariant kept + Above(rows[i..], floor) == Above(rows, floor)
      {
        assert rows[i..][1..] == rows[i + 1..];
        if rows[i].id > floor { kept := kept + [rows[i]]; }
        i := i + 1;
      }
    }

    method Pull(since: nat, limit: nat) returns (b: Batch)
      ensures b == Drain(Content(), since, limit)
    {
      var newer := Select(since);
      var taken := if |newer| <= limit then newer else newer[..limit];
      b := Batch(if |taken| > 0 then taken[|taken| - 1].id else since, taken);
    }
  }

  // ---- the table is the tail of everything ever deposited ----

  /** Rows are numbered 1, 2, 3, ... in the order of deposit. */
  ghost predicate Numbered(ever: seq<Row>) {
    forall i :: 0 <= i < |ever| ==> ever[i].id == i + 1
  }

  /** `t` holds the newest rows of `ever`, at most `cap` of them, and all of them while
      fewer than `cap` have been deposited. */
  ghost predicate TailOf(cap: nat, ever: seq<Row>, t: Table) {
    && Numbered(ever) && t.lastId == |ever|
    && |t.rows| == (if |ever| <= cap then |ever| else cap)
    && t.rows == ever[|ever| - |t.rows|..]
  }

  lemma {:induction false} AboveIsSuffix(ever: seq<Row>, lo: nat, floor: int)
    requires Numbered(ever) && lo <= |ever|
    ensures Above(ever[lo..], floor) == ever[if floor <= lo then lo else if floor <= |ever| then floor else |ever|..]
    decreases |ever| - lo
  {
    if lo < |ever| {
      assert ever[lo..][1..] == ever[lo + 1..];
      AboveIsSuffix(ever, lo + 1, floor);
    }
  }

  lemma DepositKeepsTail(cap: nat, ever: seq<Row>, t: Table, node: string, seqNo: nat, ct: Cipher)
    requires TailOf(cap, ever, t)
    ensures TailOf(cap, ever + [Row(t.lastId + 1, node, seqNo, ct)], Deposit(cap, t, node, seqNo, ct))
  {
    hide Above;
    var row := Row(t.lastId + 1, node, seqNo, ct);
    var ever', lo := ever + [row], |ever| - |t.rows|;
    assert ever' == ever[..lo] + (t.rows + [row]);
    assert t.rows + [row] == ever'[lo..];
    AboveIsSuffix(ever', lo, t.lastId + 1 - cap);
  }

  /** A drain hands out the next rows after the cursor that still exist, in order, and the
      new cursor is the last of them: nothing is handed out twice, and a row is passed over
      only if it had been evicted. */
  lemma DrainIsNext(cap: nat, ever: seq<Row>, t: Table, since: nat, limit: nat)
    requires TailOf(cap, ever, t) && since <= |ever|
    ensures var floor := |ever| - |t.rows|;
            var from := if since <= floor then floor else since;
            var b := Drain(t, since, limit);
            && b.rows == ever[from..if |ever| - from <= limit then |ever| else from + limit]
            && b.cursor == (if |b.rows| == 0 then since else from + |b.rows|)
  {
    hide Above;
    var floor := |ever| - |t.rows|;
    var from := if since <= floor then floor else since;
    AboveIsSuffix(ever, floor, since);
    assert Above(t.rows, since) == ever[from..];
    var b := Drain(t, since, limit);
    if |b.rows| > 0 { assert b.rows[|b.rows| - 1] == ever[from + |b.rows| - 1]; }
  }
}
