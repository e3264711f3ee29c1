/** What a full aggregate keeps: the newest entries, in the order of their arrival. */
module MeshWindow {
  import opened Wrappers
  import opened Shipper
  import opened Relay
  import opened Mesh
  import opened Pipeline

  /** A row made with the registered key of the node that labels it, under its own number. */
  predicate Authentic(registry: map<string, string>, r: Row) {
    r.ct.Alert? && r.ct.node in registry && r.ct.signer == registry[r.ct.node] && r.node == r.ct.node && r.seqNo == r.ct.seqNo
  }

  /** The last `cap` of a sequence, or all of it. */
  function Last<T>(s: seq<T>, cap: nat): (r: seq<T>)
    ensures |r| == if |s| <= cap then |s| else cap
  {
    if |s| <= cap then s else s[|s| - cap..]
  }

  ghost predicate Shows(s: seq<Slot>, node: string, seqNo: nat) {
    exists i :: 0 <= i < |s| && s[i].node == node && s[i].seqNo == seqNo
  }

  /** Every entry ever inserted, oldest first: an authentic row enters unless one of the last
      `cap` entries already has its node and number. */
  ghost function Inserted(registry: map<string, string>, cap: nat, rows: seq<Row>): seq<Slot> {
    if |rows| == 0 then []
    else
      var before, r := Inserted(registry, cap, rows[..|rows| - 1]), rows[|rows| - 1];
      if Authentic(registry, r) && !Shows(Last(before, cap), r.node, r.seqNo) then before + [Slot(r.node, r.seqNo, r.ct.event)]
      else before
  }

  function Rejected(registry: map<string, string>, rows: seq<Row>): nat {
    if |rows| == 0 then 0
    else Rejected(registry, rows[..|rows| - 1]) + if Authentic(registry, rows[|rows| - 1]) then 0 else 1
  }

  /** The aggregate is the window on all that was inserted, and nothing else. */
  ghost predicate IsWindow(registry: map<string, string>, cap: nat, m: Mesh, rows: seq<Row>) {
    && m.events == Last(Inserted(registry, cap, rows), cap)
    && m.added == |Inserted(registry, cap, rows)|
    && m.rejected == Rejected(registry, rows)
  }

  lemma SlideOne(s: seq<Slot>, e: Slot, cap: nat)
    ensures var t := Last(s, cap) + [e]; Last(s + [e], cap) == if |t| > cap then t[1..] else t
  {}

  lemma TakeSlides(registry: map<string, string>, cap: nat, m: Mesh, rows: seq<Row>, r: Row)
    requires IsWindow(registry, cap, m, rows)
    ensures IsWindow(registry, cap, Take(registry, cap, m, r), rows + [r])
  {
    hide Last;
    assert (rows + [r])[..|rows|] == rows;
    var before := Inserted(registry, cap, rows);
    assert Authentic(registry, r) <==> Open(registry, r).Some?;
    assert Has(m.events, r.node, r.seqNo) <==> Shows(Last(before, cap), r.node, r.seqNo);
    if Authentic(registry, r) { SlideOne(before, Slot(r.node, r.seqNo, r.ct.event), cap); }
  }

  lemma {:induction false} TakeAllSlides(registry: map<string, string>, cap: nat, m: Mesh, rows: seq<Row>, more: seq<Row>)
    requires IsWindow(registry, cap, m, rows)
    ensures IsWindow(registry, cap, TakeAll(registry, cap, m, more), rows + more)
    decreases |more|
  {
    hide IsWindow, Take;
    if |more| == 0 {
      assert rows + more == rows;
    } else {
      TakeSlides(registry, cap, m, rows, more[0]);
      TakeAllSlides(registry, cap, Take(registry, cap, m, more[0]), rows + [more[0]], more[1..]);
      assert rows + [more[0]] + more[1..] == rows + more;
    }
  }

  lemma StepSlides(cfg: Config, w: World, l: Label)
    requires IsWindow(cfg.registry, cfg.meshCap, w.mesh, w.taken) && Next(cfg, w, l).Some?
    ensures var v := Next(cfg, w, l).value; IsWindow(cfg.registry, cfg.meshCap, v.mesh, v.taken)
  {
    hide Drain, Deposit, TakeAll, Inserted, Forgeable;
    if l.Pull? && l.works {
      TakeAllSlides(cfg.registry, cfg.meshCap, w.mesh, w.taken, Drain(w.table, w.mesh.cursor, l.limit).rows);
    } else if l.RestartMaster? {
      NothingInserted(cfg.registry, cfg.meshCap);
    }
  }

  lemma NothingInserted(registry: map<string, string>, cap: nat)
    ensures IsWindow(registry, cap, NEW_MESH, [])
  {}

  /** In every run, whatever was drained, forged or repeated: the aggregate is the newest
      entries of all ever inserted, as many as the cap allows, oldest first. */
  lemma {:induction false} AggregateIsNewest(cfg: Config, start: World, script: seq<Label>, w: World)
    requires Init(cfg, start) && Run(cfg, start, script) == Some(w)
    ensures IsWindow(cfg.registry, cfg.meshCap, w.mesh, w.taken)
  {
    hide Next, IsWindow;
    if |script| == 0 {
      NothingInserted(cfg.registry, cfg.meshCap);
    } else {
      var v := Run(cfg, start, script[..|script| - 1]).value;
      AggregateIsNewest(cfg, start, script[..|script| - 1], v);
      StepSlides(cfg, v, script[|script| - 1]);
    }
  }

  /** An entry leaves only when as many have been inserted after it as the cap allows; and
      there are never more than that. */
  lemma StandsUntilPushedOut(cfg: Config, start: World, script: seq<Label>, w: World, j: nat)
    requires Init(cfg, start) && Run(cfg, start, script) == Some(w)
    requires j < |Inserted(cfg.registry, cfg.meshCap, w.taken)|
    ensures |w.mesh.events| <= cfg.meshCap
    ensures var all, cap := Inserted(cfg.registry, cfg.meshCap, w.taken), cfg.meshCap;
            |all| - 1 - j < cap ==> |all| - j <= |w.mesh.events| && w.mesh.events[|w.mesh.events| - (|all| - j)] == all[j]
  {
    hide Run, Inserted;
    AggregateIsNewest(cfg, start, script, w);
  }

  lemma {:induction false} InsertedGrows(registry: map<string, string>, cap: nat, rows: seq<Row>, n: nat)
    requires n <= |rows|
    ensures Inserted(registry, cap, rows[..n]) <= Inserted(registry, cap, rows)
  {
    hide Last, Shows, Authentic;
    if n == |rows| {
      assert rows[..n] == rows;
    } else {
      InsertedGrows(registry, cap, rows[..|rows| - 1], n);
      assert rows[..|rows| - 1][..n] == rows[..n];
    }
  }

  lemma {:induction false} InsertedAreRows(registry: map<string, string>, cap: nat, rows: seq<Row>, j: nat)
    requires j < |Inserted(registry, cap, rows)|
    ensures var s := Inserted(registry, cap, rows)[j];
            exists r :: r in rows && Authentic(registry, r) && r.node == s.node && r.seqNo == s.seqNo && r.ct.event == s.event
  {
    hide Last, Shows;
    var m := |rows| - 1;
    assert rows == rows[..m] + [rows[m]];
    if j < |Inserted(registry, cap, rows[..m])| {
      InsertedAreRows(registry, cap, rows[..m], j);
    } else {
      assert rows[m] in rows;
    }
  }

  /** An alert drained for the first time stands in the aggregate, with its event, as long as
      fewer than `cap` entries have been inserted after it. */
  lemma DrainedAlertStands(cfg: Config, start: World, script: seq<Label>, w: World, i: nat)
    requires Init(cfg, start) && Run(cfg, start, script) == Some(w) && i < |w.taken|
    requires var r := w.taken[i];
             Authentic(cfg.registry, r) && forall q :: 0 <= q < i ==> !(w.taken[q].node == r.node && w.taken[q].seqNo == r.seqNo)
    ensures var r := w.taken[i];
            |Inserted(cfg.registry, cfg.meshCap, w.taken)| - |Inserted(cfg.registry, cfg.meshCap, w.taken[..i + 1])| < cfg.meshCap ==>
              Slot(r.node, r.seqNo, r.ct.event) in w.mesh.events
  {
    hide Run, Last;
    var reg, cap, rows, r := cfg.registry, cfg.meshCap, w.taken, w.taken[i];
    var before := Inserted(reg, cap, rows[..i]);
    assert rows[..i + 1][..i] == rows[..i];
    NotShownYet(reg, cap, rows[..i], r);
    InsertedGrows(reg, cap, rows, i + 1);
    var j := |before|;
    assert Inserted(reg, cap, rows)[j] == Inserted(reg, cap, rows[..i + 1])[j] == Slot(r.node, r.seqNo, r.ct.event);
    hide Inserted;
    StandsUntilPushedOut(cfg, start, script, w, j);
  }

  lemma NotShownYet(registry: map<string, string>, cap: nat, rows: seq<Row>, r: Row)
    requires forall q :: 0 <= q < |rows| ==> !(rows[q].node == r.node && rows[q].seqNo == r.seqNo)
    ensures !Shows(Last(Inserted(registry, cap, rows), cap), r.node, r.seqNo)
  {
    hide Inserted, Authentic;
    var all := Inserted(registry, cap, rows);
    var shown := Last(all, cap);
    forall i | 0 <= i < |shown| ensures !(shown[i].node == r.node && shown[i].seqNo == r.seqNo) {
      var j := |all| - |shown| + i;
      assert shown[i] == all[j];
      InsertedAreRows(registry, cap, rows, j);
    }
  }
}
