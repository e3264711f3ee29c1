/** Every alert arrives once, under the number of its place in the journal. */
module PipelineProofs {
  import opened Wrappers
  import opened Shipper
  import opened ShipperProofs
  import opened Relay
  import opened Mesh
  import opened Pipeline

  // ---- the invariant ----

  ghost predicate FeedOk(cfg: Config, n: string, f: Feed) {
    && Journal(f.src) && ShipperOk(f.src, f.ship, cfg.window)
    && n in cfg.registry && cfg.registry[n] == f.key
  }

  ghost predicate FeedsOk(cfg: Config, w: World) {
    forall n :: n in w.feeds ==> FeedOk(cfg, n, w.feeds[n])
  }

  /** A ciphertext signed by a node carries the node's own event at the signed number. */
  ghost predicate CipherOk(feeds: map<string, Feed>, ct: Cipher) {
    forall n :: n in feeds && ct.Alert? && ct.signer == feeds[n].key && ct.node == n ==>
      1 <= ct.seqNo <= |feeds[n].src| && ct.event == feeds[n].src[ct.seqNo - 1]
  }

  ghost predicate RowsOk(w: World) {
    forall i :: 0 <= i < |w.ever| ==> CipherOk(w.feeds, w.ever[i].ct)
  }

  /** A row that carries alert `k` of node `n` under its true labels. */
  predicate Carries(r: Row, n: string, key: string, k: nat, e: Event) {
    r.node == n && r.seqNo == k && r.ct == Alert(key, n, k, e)
  }

  ghost predicate Delivered(w: World, n: string, k: nat)
    requires n in w.feeds && 1 <= k <= |w.feeds[n].src|
  {
    exists r :: r in w.ever && Carries(r, n, w.feeds[n].key, k, w.feeds[n].src[k - 1])
  }

  /** Whatever a node counts as shipped did reach the hub. */
  ghost predicate ShippedOk(w: World) {
    forall n, k :: n in w.feeds && 1 <= k <= |w.feeds[n].src| && (k <= w.feeds[n].ship.mem.seqNo || k <= w.feeds[n].ship.disk.seqNo) ==>
      Delivered(w, n, k)
  }

  /** The cursor is the number of rows handed over or passed over so far. */
  ghost predicate CursorOk(w: World) {
    && w.mesh.cursor <= |w.ever|
    && (forall i :: 0 <= i < |w.taken| ==> w.taken[i] in w.ever)
    && (forall i :: 0 <= i < w.mesh.cursor ==> w.ever[i] in w.missed || w.ever[i] in w.taken)
  }

  ghost predicate Inv(cfg: Config, w: World) {
    && FeedsOk(cfg, w) && RowsOk(w) && ShippedOk(w)
    && TailOf(cfg.relayCap, w.ever, w.table)
    && CursorOk(w)
    && MeshOk(cfg.registry, cfg.meshCap, w.mesh, w.taken)
  }

  // ---- steps of a node ----

  /** One node moves on; the hub and the master do not. */
  ghost predicate OnlyFeed(w: World, w': World, n: string) {
    && n in w.feeds && w'.feeds.Keys == w.feeds.Keys
    && (forall m :: m in w.feeds && m != n ==> w'.feeds[m] == w.feeds[m])
    && w'.feeds[n].key == w.feeds[n].key && w.feeds[n].src <= w'.feeds[n].src
    && w'.table == w.table && w'.mesh == w.mesh && w'.taken == w.taken && w'.missed == w.missed
  }

  lemma CipherGrows(w: World, w': World, n: string, ct: Cipher)
    requires OnlyFeed(w, w', n) && CipherOk(w.feeds, ct)
    ensures CipherOk(w'.feeds, ct)
  {}

  lemma FeedStep(cfg: Config, w: World, w': World, n: string)
    requires Inv(cfg, w) && OnlyFeed(w, w', n) && w'.ever == w.ever && FeedOk(cfg, n, w'.feeds[n])
    requires w'.feeds[n].ship.mem.seqNo <= w.feeds[n].ship.mem.seqNo || w'.feeds[n].ship.mem.seqNo <= w.feeds[n].ship.disk.seqNo
    requires w'.feeds[n].ship.disk.seqNo <= w.feeds[n].ship.mem.seqNo || w'.feeds[n].ship.disk.seqNo <= w.feeds[n].ship.disk.seqNo
    requires w.feeds[n].ship.mem.seqNo <= |w.feeds[n].src| && w.feeds[n].ship.disk.seqNo <= |w.feeds[n].src|
    ensures Inv(cfg, w')
  {
    hide FeedOk;
    hide MeshOk;
    hide TailOf;
    hide CipherOk;
    forall i | 0 <= i < |w'.ever| ensures CipherOk(w'.feeds, w'.ever[i].ct) {
      CipherGrows(w, w', n, w.ever[i].ct);
    }
    forall m, k | m in w'.feeds && 1 <= k <= |w'.feeds[m].src| && (k <= w'.feeds[m].ship.mem.seqNo || k <= w'.feeds[m].ship.disk.seqNo)
      ensures Delivered(w', m, k)
    {
      assert Delivered(w, m, k);
      assert w'.feeds[m].src[k - 1] == w.feeds[m].src[k - 1];
      DeliveredSame(w, w', m, k);
    }
  }

  lemma DeliveredSame(w: World, w': World, n: string, k: nat)
    requires n in w.feeds && n in w'.feeds && 1 <= k <= |w.feeds[n].src| && k <= |w'.feeds[n].src|
    requires Delivered(w, n, k) && w.ever <= w'.ever
    requires w'.feeds[n].key == w.feeds[n].key && w'.feeds[n].src[k - 1] == w.feeds[n].src[k - 1]
    ensures Delivered(w', n, k)
  {
    var r :| r in w.ever && Carries(r, n, w.feeds[n].key, k, w.feeds[n].src[k - 1]);
    InPrefix(w.ever, w'.ever, r);
  }

  lemma InPrefix(a: seq<Row>, b: seq<Row>, r: Row)
    requires a <= b && r in a
    ensures r in b
  {
    var i :| 0 <= i < |a| && a[i] == r;
    assert b[i] == r;
  }

  lemma FeedIs(cfg: Config, w: World, n: string)
    requires Inv(cfg, w) && n in w.feeds
    ensures FeedOk(cfg, n, w.feeds[n])
    ensures w.feeds[n].ship.mem.seqNo <= |w.feeds[n].src| && w.feeds[n].ship.disk.seqNo <= |w.feeds[n].src|
  {
    hide RowsOk;
    hide ShippedOk;
    hide TailOf;
    hide CursorOk;
    hide MeshOk;
  }

  lemma HappenKeeps(cfg: Config, w: World, n: string, e: Event)
    requires Inv(cfg, w) && Next(cfg, w, Happen(n, e)).Some?
    ensures Inv(cfg, Next(cfg, w, Happen(n, e)).value)
  {
    hide Inv;
    hide ShipperOk;
    var w' := Next(cfg, w, Happen(n, e)).value;
    FeedIs(cfg, w, n);
    var f := w.feeds[n];
    GrowOk(f.src, f.src + [e], f.ship, cfg.window);
    JournalGrows(f.src, e);
    FeedStep(cfg, w, w', n);
  }

  lemma JournalGrows(src: seq<Event>, e: Event)
    requires Journal(src) && (|src| > 0 ==> src[|src| - 1].at <= e.at) && (forall x :: x in src ==> x.id != e.id)
    ensures Journal(src + [e])
  {
    var s := src + [e];
    forall i, j | 0 <= i < j < |s| ensures s[i].at <= s[j].at && s[i].id != s[j].id {
      if j == |src| { assert s[i] in src; }
    }
  }

  lemma BeginKeeps(cfg: Config, w: World, n: string)
    requires Inv(cfg, w) && Next(cfg, w, BeginCycle(n)).Some?
    ensures Inv(cfg, Next(cfg, w, BeginCycle(n)).value)
  {
    hide Inv, Journal, Fits, Recent, ProgressOk, Spread;
    FeedIs(cfg, w, n);
    var f := w.feeds[n];
    BeginOk(f.src, f.ship, cfg.window);
    BeginLeaves(f.ship, Recent(f.src, cfg.window));
    hide Begin;
    FeedStep(cfg, w, Next(cfg, w, BeginCycle(n)).value, n);
  }

  lemma BeginLeaves(s: Shipper, recent: seq<Event>)
    ensures Begin(s, recent).mem == s.mem && Begin(s, recent).disk == s.disk
  {}

  lemma EndKeeps(cfg: Config, w: World, n: string, saved: bool)
    requires Inv(cfg, w) && Next(cfg, w, EndCycle(n, saved)).Some?
    ensures Inv(cfg, Next(cfg, w, EndCycle(n, saved)).value)
  {
    hide Inv, Journal, ProgressOk, Spread;
    FeedIs(cfg, w, n);
    var f := w.feeds[n];
    EndOk(f.src, f.ship, cfg.window, saved);
    FeedStep(cfg, w, Next(cfg, w, EndCycle(n, saved)).value, n);
  }

  lemma CrashKeeps(cfg: Config, w: World, n: string)
    requires Inv(cfg, w) && Next(cfg, w, CrashNode(n)).Some?
    ensures Inv(cfg, Next(cfg, w, CrashNode(n)).value)
  {
    hide Inv, Journal;
    FeedIs(cfg, w, n);
    FeedStep(cfg, w, Next(cfg, w, CrashNode(n)).value, n);
  }

  // ---- rows arrive at the hub ----

  lemma DropKeeps(cfg: Config, w: World, n: string, k: nat, ct: Cipher)
    requires Inv(cfg, w) && CipherOk(w.feeds, ct)
    ensures Inv(cfg, Drop(cfg, w, n, k, ct))
    ensures Drop(cfg, w, n, k, ct).ever[|w.ever|] == Row(w.table.lastId + 1, n, k, ct)
  {
    hide FeedOk;
    hide MeshOk;
    hide TailOf;
    hide CipherOk;
    hide Deposit;
    var w' := Drop(cfg, w, n, k, ct);
    DepositKeepsTail(cfg.relayCap, w.ever, w.table, n, k, ct);
    forall m, j | m in w.feeds && 1 <= j <= |w.feeds[m].src| && (j <= w.feeds[m].ship.mem.seqNo || j <= w.feeds[m].ship.disk.seqNo)
      ensures Delivered(w', m, j)
    {
      DeliveredSame(w, w', m, j);
    }
    forall i | 0 <= i < |w.taken| ensures w.taken[i] in w'.ever {
      InPrefix(w.ever, w'.ever, w.taken[i]);
    }
    forall i | 0 <= i < w.mesh.cursor ensures w'.ever[i] in w.missed || w'.ever[i] in w.taken {
      assert w'.ever[i] == w.ever[i];
    }
  }

  lemma IntrudeKeeps(cfg: Config, w: World, n: string, k: nat, ct: Cipher)
    requires Inv(cfg, w) && Forgeable(w, ct)
    ensures Inv(cfg, Drop(cfg, w, n, k, ct))
  {
    assert CipherOk(w.feeds, ct) by { ForgeableOk(w, ct); }
    hide Inv;
    hide Drop;
    DropKeeps(cfg, w, n, k, ct);
  }

  lemma ForgeableOk(w: World, ct: Cipher)
    requires RowsOk(w) && Forgeable(w, ct)
    ensures CipherOk(w.feeds, ct)
  {
    if exists r :: r in w.ever && r.ct == ct {
      var r :| r in w.ever && r.ct == ct;
      var i :| 0 <= i < |w.ever| && w.ever[i] == r;
      assert CipherOk(w.feeds, w.ever[i].ct);
    }
  }

  lemma OwnAlertOk(cfg: Config, w: World, n: string)
    requires FeedsOk(cfg, w) && n in w.feeds && |w.feeds[n].ship.todo| > 0
    ensures var f := w.feeds[n]; var k := f.ship.mem.seqNo + 1;
            && k <= |f.src| && f.ship.todo[0] == f.src[k - 1]
            && CipherOk(w.feeds, Alert(f.key, n, k, f.ship.todo[0]))
  {
    hide Journal;
    hide ProgressOk;
    assert FeedOk(cfg, n, w.feeds[n]);
  }

  /** What a post leaves at the hub. */
  function Sent(cfg: Config, w: World, n: string, o: Outcome): World
    requires n in w.feeds && |w.feeds[n].ship.todo| > 0
  {
    var f := w.feeds[n];
    var k := f.ship.mem.seqNo + 1;
    if o.Lost? then w else Drop(cfg, w, n, k, Alert(f.key, n, k, f.ship.todo[0]))
  }

  lemma PostShape(cfg: Config, w: World, n: string, o: Outcome)
    requires Next(cfg, w, PostOne(n, o)).Some? && FeedOk(cfg, n, w.feeds[n])
    ensures var w', sent := Next(cfg, w, PostOne(n, o)).value, Sent(cfg, w, n, o);
            OnlyFeed(sent, w', n) && w'.ever == sent.ever && FeedOk(cfg, n, w'.feeds[n])
            && w'.feeds[n] == w.feeds[n].(ship := Post(w.feeds[n].ship, o)) && sent.feeds == w.feeds
            && (!o.Lost? ==> sent.ever == w.ever + [Row(w.table.lastId + 1, n, w.feeds[n].ship.mem.seqNo + 1,
                             Alert(w.feeds[n].key, n, w.feeds[n].ship.mem.seqNo + 1, w.feeds[n].ship.todo[0]))])
  {
    hide Drop, ShipperOk, Post, Journal;
    var f := w.feeds[n];
    PostOk(f.src, f.ship, cfg.window, o);
    DropFeeds(cfg, w, n, f.ship.mem.seqNo + 1, Alert(f.key, n, f.ship.mem.seqNo + 1, f.ship.todo[0]));
  }

  lemma PostKeeps(cfg: Config, w: World, n: string, o: Outcome)
    requires Inv(cfg, w) && Next(cfg, w, PostOne(n, o)).Some?
    ensures Inv(cfg, Next(cfg, w, PostOne(n, o)).value)
  {
    hide Inv, FeedsOk, CipherOk, Drop, OnlyFeed, FeedOk;
    InvFeeds(cfg, w);
    FeedIs(cfg, w, n);
    OwnAlertOk(cfg, w, n);
    PostShape(cfg, w, n, o);
    var f, sent, w' := w.feeds[n], Sent(cfg, w, n, o), Next(cfg, w, PostOne(n, o)).value;
    var k := f.ship.mem.seqNo + 1;
    if !o.Lost? { DropKeeps(cfg, w, n, k, Alert(f.key, n, k, f.ship.todo[0])); }
    if o.Acked? {
      AckedStep(cfg, sent, w', n);
    } else {
      FeedStep(cfg, sent, w', n);
    }
  }

  lemma InvFeeds(cfg: Config, w: World)
    requires Inv(cfg, w)
    ensures FeedsOk(cfg, w)
  {}

  lemma DropFeeds(cfg: Config, w: World, n: string, k: nat, ct: Cipher)
    ensures var v := Drop(cfg, w, n, k, ct); v.feeds == w.feeds && v.ever == w.ever + [Row(w.table.lastId + 1, n, k, ct)]
  {}

  /** The acknowledged alert is in the hub, so counting it as shipped is right. */
  lemma AckedStep(cfg: Config, w: World, w': World, n: string)
    requires Inv(cfg, w) && OnlyFeed(w, w', n) && w'.ever == w.ever && FeedOk(cfg, n, w'.feeds[n])
    requires var k := w.feeds[n].ship.mem.seqNo + 1;
             && k <= |w.feeds[n].src| && w'.feeds[n].src == w.feeds[n].src
             && w'.feeds[n].ship.mem.seqNo == k && w'.feeds[n].ship.disk == w.feeds[n].ship.disk
             && |w.ever| > 0 && Carries(w.ever[|w.ever| - 1], n, w.feeds[n].key, k, w.feeds[n].src[k - 1])
    ensures Inv(cfg, w')
  {
    hide FeedOk;
    hide MeshOk;
    hide TailOf;
    hide CipherOk;
    forall i | 0 <= i < |w'.ever| ensures CipherOk(w'.feeds, w'.ever[i].ct) {
      CipherGrows(w, w', n, w.ever[i].ct);
    }
    forall m, j | m in w'.feeds && 1 <= j <= |w'.feeds[m].src| && (j <= w'.feeds[m].ship.mem.seqNo || j <= w'.feeds[m].ship.disk.seqNo)
      ensures Delivered(w', m, j)
    {
      if m == n && j == w.feeds[n].ship.mem.seqNo + 1 {
        assert w.ever[|w.ever| - 1] in w'.ever;
      } else {
        assert Delivered(w, m, j);
        DeliveredSame(w, w', m, j);
      }
    }
  }

  // ---- the master pulls ----

  lemma PullKeeps(cfg: Config, w: World, limit: nat)
    requires Inv(cfg, w)
    ensures Inv(cfg, Next(cfg, w, Pull(true, limit)).value)
  {
    hide FeedsOk;
    hide RowsOk;
    hide TailOf;
    hide MeshOk;
    hide Drain;
    hide TakeAll;
    var w' := Next(cfg, w, Pull(true, limit)).value;
    var b := Drain(w.table, w.mesh.cursor, limit);
    TakeAllOk(cfg.registry, cfg.meshCap, w.mesh, w.taken, b.rows);
    CursorIrrelevant(cfg, TakeAll(cfg.registry, cfg.meshCap, w.mesh, b.rows), b.cursor, w'.taken);
    PullCursor(cfg, w, limit);
    forall n, k | n in w.feeds && 1 <= k <= |w.feeds[n].src| && Delivered(w, n, k) ensures Delivered(w', n, k) {
      DeliveredSame(w, w', n, k);
    }
    RowsSame(w, w');
    assert FeedsOk(cfg, w') by { FeedsSame(cfg, w, w'); }
  }

  lemma RowsSame(w: World, w': World)
    requires RowsOk(w) && w'.feeds == w.feeds && w'.ever == w.ever
    ensures RowsOk(w')
  {}

  lemma FeedsSame(cfg: Config, w: World, w': World)
    requires FeedsOk(cfg, w) && w'.feeds == w.feeds
    ensures FeedsOk(cfg, w')
  {
    hide FeedOk;
  }

  lemma CursorIrrelevant(cfg: Config, m: Mesh, cursor: nat, seen: seq<Row>)
    requires MeshOk(cfg.registry, cfg.meshCap, m, seen)
    ensures MeshOk(cfg.registry, cfg.meshCap, m.(cursor := cursor), seen)
  {}

  /** The rows of a batch are rows of the hub's history. */
  lemma PulledAreKept(w: World, b: Batch, from: nat)
    requires forall i :: 0 <= i < |w.taken| ==> w.taken[i] in w.ever
    requires from + |b.rows| <= |w.ever| && b.rows == w.ever[from..from + |b.rows|]
    ensures forall i :: 0 <= i < |w.taken + b.rows| ==> (w.taken + b.rows)[i] in w.ever
  {
    forall i | 0 <= i < |w.taken + b.rows| ensures (w.taken + b.rows)[i] in w.ever {
      if i >= |w.taken| { assert (w.taken + b.rows)[i] == w.ever[from + (i - |w.taken|)]; }
    }
  }

  /** Every row up to the new cursor was taken before or now, or is passed over. */
  lemma PulledOrMissed(w: World, b: Batch, from: nat, missed: set<Row>, i: nat)
    requires CursorOk(w) && Numbered(w.ever)
    requires from + |b.rows| <= |w.ever| && b.rows == w.ever[from..from + |b.rows|]
    requires w.missed <= missed && (forall r :: r in w.ever && w.mesh.cursor < r.id <= from ==> r in missed)
    requires i < from + |b.rows|
    ensures w.ever[i] in missed || w.ever[i] in w.taken + b.rows
  {
    if i < w.mesh.cursor {
      if w.ever[i] !in w.missed { InPrefix(w.taken, w.taken + b.rows, w.ever[i]); }
    } else if i < from {
      assert w.ever[i].id == i + 1 && w.ever[i] in w.ever;
    } else {
      assert b.rows[i - from] == w.ever[i];
      InSuffix(w.taken, b.rows, i - from);
    }
  }

  lemma PullCursor(cfg: Config, w: World, limit: nat)
    requires TailOf(cfg.relayCap, w.ever, w.table) && CursorOk(w)
    ensures CursorOk(Next(cfg, w, Pull(true, limit)).value)
  {
    hide Drain;
    hide TakeAll;
    DrainIsNext(cfg.relayCap, w.ever, w.table, w.mesh.cursor, limit);
    assert Numbered(w.ever);
    hide TailOf, Numbered;
    var w' := Next(cfg, w, Pull(true, limit)).value;
    var b := Drain(w.table, w.mesh.cursor, limit);
    var from := b.cursor - |b.rows|;
    PulledAreKept(w, b, from);
    forall i | 0 <= i < w'.mesh.cursor ensures w'.ever[i] in w'.missed || w'.ever[i] in w'.taken {
      PulledOrMissed(w, b, from, w'.missed, i);
    }
  }

  lemma InSuffix(a: seq<Row>, b: seq<Row>, i: nat)
    requires i < |b|
    ensures b[i] in a + b
  {
    assert (a + b)[|a| + i] == b[i];
  }

  lemma NextKeeps(cfg: Config, w: World, l: Label)
    requires Inv(cfg, w) && Next(cfg, w, l).Some?
    ensures Inv(cfg, Next(cfg, w, l).value)
  {
    hide Inv;
    hide Forgeable;
    match l
    case Happen(n, e) => HappenKeeps(cfg, w, n, e);
    case BeginCycle(n) => BeginKeeps(cfg, w, n);
    case EndCycle(n, saved) => EndKeeps(cfg, w, n, saved);
    case CrashNode(n) => CrashKeeps(cfg, w, n);
    case PostOne(n, o) => PostKeeps(cfg, w, n, o);
    case Intrude(n, k, ct) => IntrudeKeeps(cfg, w, n, k, ct);
    case Pull(works, limit) => if works { PullKeeps(cfg, w, limit); }
    case RestartMaster => RestartKeeps(cfg, w);
  }

  lemma RestartKeeps(cfg: Config, w: World)
    requires Inv(cfg, w)
    ensures Inv(cfg, w.(mesh := NEW_MESH, taken := [], missed := {}))
  {
    hide TailOf;
    hide FeedOk;
    hide CipherOk;
    var w' := w.(mesh := NEW_MESH, taken := [], missed := {});
    forall n, k | n in w.feeds && 1 <= k <= |w.feeds[n].src| && Delivered(w, n, k) ensures Delivered(w', n, k) {
      DeliveredSame(w, w', n, k);
    }
  }

  lemma InitOk(cfg: Config, w: World)
    requires Init(cfg, w)
    ensures Inv(cfg, w)
  {}

  lemma {:induction false} RunKeeps(cfg: Config, start: World, script: seq<Label>)
    requires Init(cfg, start) && Run(cfg, start, script).Some?
    ensures Inv(cfg, Run(cfg, start, script).value)
  {
    hide Next;
    if |script| == 0 {
      InitOk(cfg, start);
    } else {
      var before := script[..|script| - 1];
      RunKeeps(cfg, start, before);
      hide Inv;
      NextKeeps(cfg, Run(cfg, start, before).value, script[|script| - 1]);
    }
  }
}
