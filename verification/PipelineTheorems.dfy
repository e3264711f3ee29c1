/** What the alert pipeline guarantees, over every run with failed posts, lost answers,
    crashes before saving, evictions, intruders and restarts of the master. */
module PipelineTheorems {
  import opened Wrappers
  import opened Shipper
  import opened ShipperProofs
  import opened Relay
  import opened Mesh
  import opened Pipeline
  import opened PipelineProofs

  ghost predicate Reached(cfg: Config, start: World, script: seq<Label>, w: World) {
    Init(cfg, start) && Run(cfg, start, script) == Some(w)
  }

  /** Anything the hub ever took that node `n` signed carries, under its number k, the k-th
      event of n's journal: a retry after a lost answer or a crash sends the same event. */
  lemma NumberIsPlace(cfg: Config, start: World, script: seq<Label>, w: World, n: string, i: nat)
    requires Reached(cfg, start, script, w) && n in w.feeds && i < |w.ever|
    requires w.ever[i].ct.Alert? && w.ever[i].ct.signer == w.feeds[n].key && w.ever[i].ct.node == n
    ensures var ct := w.ever[i].ct; 1 <= ct.seqNo <= |w.feeds[n].src| && ct.event == w.feeds[n].src[ct.seqNo - 1]
  {
    hide Run;
    hide MeshOk;
    hide TailOf;
    RunKeeps(cfg, start, script);
    assert CipherOk(w.feeds, w.ever[i].ct);
  }

  /** A cycle ships what has not been shipped, from the next event on: trimming the list of
      shipped ids never makes it ship one of them again. */
  lemma CycleShipsTheRest(cfg: Config, start: World, script: seq<Label>, w: World, n: string)
    requires Reached(cfg, start, script, w) && Next(cfg, w, BeginCycle(n)).Some?
    ensures var f := Next(cfg, w, BeginCycle(n)).value.feeds[n];
            f.ship.mem == w.feeds[n].ship.mem && f.ship.mem.seqNo <= |f.src| && f.ship.todo == f.src[f.ship.mem.seqNo..]
  {
    hide Run;
    hide Inv;
    hide Begin;
    RunKeeps(cfg, start, script);
    FeedIs(cfg, w, n);
    BeginOk(w.feeds[n].src, w.feeds[n].ship, cfg.window);
    BeginKeepsMem(w.feeds[n].ship, Recent(w.feeds[n].src, cfg.window));
  }

  /** Exactly then: in every state of every run, what a cycle picks is the unshipped rest if
      and only if the first unshipped event, with all that are not older, fits the window. */
  lemma PicksTheRestIffFits(cfg: Config, start: World, script: seq<Label>, w: World, n: string)
    requires Reached(cfg, start, script, w) && n in w.feeds
    ensures var f := w.feeds[n];
            && f.ship.mem.seqNo <= |f.src|
            && (ToShip(Recent(f.src, cfg.window), f.ship.mem.order) == f.src[f.ship.mem.seqNo..] <==>
                Fits(f.src, f.ship.mem.seqNo, cfg.window))
  {
    hide Run;
    hide Inv;
    hide ToShip, Recent, Fits, Journal, ProgressOk;
    RunKeeps(cfg, start, script);
    FeedIs(cfg, w, n);
    CycleShipsIffFits(w.feeds[n].src, w.feeds[n].ship.mem, cfg.window);
  }

  lemma BeginKeepsMem(s: Shipper, recent: seq<Event>)
    ensures Begin(s, recent).mem == s.mem
  {}

  /** The aggregate entry of an honest node under number k is its k-th event. */
  lemma SlotIsPlace(cfg: Config, w: World, i: nat)
    requires Inv(cfg, w) && i < |w.mesh.events| && w.mesh.events[i].node in w.feeds
    ensures var s := w.mesh.events[i]; var src := w.feeds[s.node].src;
            1 <= s.seqNo <= |src| && s.event == src[s.seqNo - 1]
  {
    hide TailOf;
    hide ShippedOk;
    hide Has;
    var s := w.mesh.events[i];
    assert Carried(cfg.registry, w.taken, s);
    var r :| r in w.taken && r.node == s.node && r.seqNo == s.seqNo && Open(cfg.registry, r) == Some(s.event);
    var j :| 0 <= j < |w.taken| && w.taken[j] == r;
    assert w.taken[j] in w.ever;
    var k :| 0 <= k < |w.ever| && w.ever[k] == r;
    assert CipherOk(w.feeds, w.ever[k].ct);
    assert FeedOk(cfg, s.node, w.feeds[s.node]);
  }

  /** Each event of an honest node stands in the aggregate at most once, whatever was
      replayed, and also beyond the cap. */
  lemma AtMostOnce(cfg: Config, start: World, script: seq<Label>, w: World, i: nat, j: nat)
    requires Reached(cfg, start, script, w) && i < j < |w.mesh.events|
    requires w.mesh.events[i].node == w.mesh.events[j].node && w.mesh.events[i].node in w.feeds
    ensures w.mesh.events[i].event.id != w.mesh.events[j].event.id
  {
    hide Run;
    hide TailOf;
    hide RowsOk;
    hide ShippedOk;
    RunKeeps(cfg, start, script);
    var n := w.mesh.events[i].node;
    SlotIsPlace(cfg, w, i);
    SlotIsPlace(cfg, w, j);
    assert w.mesh.events[i].seqNo != w.mesh.events[j].seqNo;
    FeedIs(cfg, w, n);
  }

  /** Entry of node `n` under number `k`, holding event `e`: there, and only once. */
  ghost predicate StandsOnce(events: seq<Slot>, n: string, k: nat, e: Event) {
    && (exists i :: 0 <= i < |events| && events[i] == Slot(n, k, e))
    && (forall i, j :: 0 <= i < j < |events| && events[i].node == n && events[j].node == n ==> events[i].seqNo != events[j].seqNo)
    && (forall i :: 0 <= i < |events| && events[i].node == n && events[i].seqNo == k ==> events[i].event == e)
  }

  /** While the aggregate has evicted nothing, an alert whose row the master was handed
      stands in it exactly once. */
  lemma ExactlyOnceIfDrained(cfg: Config, start: World, script: seq<Label>, w: World, n: string, k: nat, r: Row)
    requires Reached(cfg, start, script, w) && n in w.feeds && 1 <= k <= |w.feeds[n].src|
    requires Roomy(cfg.meshCap, w.mesh) && r in w.taken && Carries(r, n, w.feeds[n].key, k, w.feeds[n].src[k - 1])
    ensures StandsOnce(w.mesh.events, n, k, w.feeds[n].src[k - 1])
  {
    hide Run;
    RunKeeps(cfg, start, script);
    TakenStandsOnce(cfg, w, n, k, r);
  }

  lemma TakenStandsOnce(cfg: Config, w: World, n: string, k: nat, r: Row)
    requires Inv(cfg, w) && n in w.feeds && 1 <= k <= |w.feeds[n].src|
    requires Roomy(cfg.meshCap, w.mesh) && r in w.taken && Carries(r, n, w.feeds[n].key, k, w.feeds[n].src[k - 1])
    ensures StandsOnce(w.mesh.events, n, k, w.feeds[n].src[k - 1])
  {
    hide RowsOk;
    hide ShippedOk;
    hide TailOf;
    hide CursorOk;
    var events := w.mesh.events;
    assert FeedOk(cfg, n, w.feeds[n]);
    assert Open(cfg.registry, r).Some?;
    assert Has(events, n, k);
    forall i | 0 <= i < |events| && events[i].node == n && events[i].seqNo == k
      ensures events[i].event == w.feeds[n].src[k - 1]
    {
      SlotIsPlace(cfg, w, i);
    }
    var i :| 0 <= i < |events| && events[i].node == n && events[i].seqNo == k;
    assert events[i] == Slot(n, k, w.feeds[n].src[k - 1]);
  }

  /** A master that has caught up, has passed over no row and has evicted nothing holds every
      event its honest nodes count as shipped, each exactly once. */
  lemma EverythingArrives(cfg: Config, start: World, script: seq<Label>, w: World, n: string, k: nat)
    requires Reached(cfg, start, script, w) && n in w.feeds
    requires w.mesh.cursor == w.table.lastId && w.missed == {} && Roomy(cfg.meshCap, w.mesh)
    requires 1 <= k <= w.feeds[n].ship.mem.seqNo
    ensures k <= |w.feeds[n].src| && StandsOnce(w.mesh.events, n, k, w.feeds[n].src[k - 1])
  {
    hide Run;
    hide FeedsOk;
    hide RowsOk;
    hide MeshOk;
    hide StandsOnce;
    RunKeeps(cfg, start, script);
    FeedIs(cfg, w, n);
    assert Delivered(w, n, k);
    var r :| r in w.ever && Carries(r, n, w.feeds[n].key, k, w.feeds[n].src[k - 1]);
    var i :| 0 <= i < |w.ever| && w.ever[i] == r;
    assert w.ever[i] in w.taken;
    TakenStandsOnce(cfg, w, n, k, r);
  }

  /** A pull passes over a row only if the hub evicted it before: never, if the cursor is no
      more than the hub's capacity behind. */
  lemma PullMissesOnlyEvicted(cfg: Config, start: World, script: seq<Label>, w: World, limit: nat)
    requires Reached(cfg, start, script, w)
    ensures var w' := Next(cfg, w, Pull(true, limit)).value;
            && (forall r :: r in w'.missed && r !in w.missed ==> r !in w.table.rows)
            && (w.table.lastId - w.mesh.cursor <= cfg.relayCap ==> w'.missed == w.missed)
  {
    hide Run;
    hide Drain;
    hide TakeAll;
    RunKeeps(cfg, start, script);
    DrainIsNext(cfg.relayCap, w.ever, w.table, w.mesh.cursor, limit);
    hide Inv;
    var w' := Next(cfg, w, Pull(true, limit)).value;
    var b := Drain(w.table, w.mesh.cursor, limit);
    var floor := |w.ever| - |w.table.rows|;
    forall r | r in w'.missed && r !in w.missed ensures r !in w.table.rows {
      assert r.id <= floor;
      forall i | 0 <= i < |w.table.rows| ensures w.table.rows[i] != r {
        assert w.table.rows[i] == w.ever[floor + i];
      }
    }
  }

  // ---- how far a cycle gets ----

  /** Answers before the first that is no acknowledgement. */
  function LeadingAcks(outs: seq<Outcome>): nat {
    if |outs| == 0 || !outs[0].Acked? then 0 else 1 + LeadingAcks(outs[1..])
  }

  function Least(a: nat, b: nat): nat {
    if a < b then a else b
  }

  function Ids(es: seq<Event>): seq<string> {
    seq(|es|, i requires 0 <= i < |es| => es[i].id)
  }

  lemma {:induction false} PostsUntilRefused(s: Shipper, outs: seq<Outcome>)
    ensures var m := Least(LeadingAcks(outs), |s.todo|);
            PostAll(s, outs) == Shipper(Progress(s.mem.seqNo + m, s.mem.order + Ids(s.todo[..m])), s.disk, [], s.shipped + m)
    decreases |s.todo|
  {
    var m := Least(LeadingAcks(outs), |s.todo|);
    if m > 0 {
      var next := Post(s, outs[0]);
      PostsUntilRefused(next, outs[1..]);
      assert Ids(s.todo[..m]) == [s.todo[0].id] + Ids(next.todo[..m - 1]);
    } else {
      assert Ids(s.todo[..0]) == [];
    }
  }

  lemma WindowNotEmpty(src: seq<Event>, n: nat, window: nat)
    requires Spread(src, n, window)
    ensures n > 0 ==> window > 0
  {
    if n > 0 { assert src[0] == src[n - 1] || n > 1; }
  }

  /** In every run, a cycle takes the next events of the journal up to the first post that is not
      acknowledged: the number moves by exactly those, their ids are the newest remembered, of at
      most two windows, and a saved cycle is what a crash right after it comes back to. */
  lemma CycleAdvances(cfg: Config, start: World, script: seq<Label>, w: World, n: string, outs: seq<Outcome>, saved: bool)
    requires Reached(cfg, start, script, w) && Next(cfg, w, BeginCycle(n)).Some?
    ensures var f := w.feeds[n];
            var k := f.ship.mem.seqNo;
            var r := End(PostAll(Begin(f.ship, Recent(f.src, cfg.window)), outs), cfg.window, saved);
            && k <= |f.src|
            && var m := Least(LeadingAcks(outs), |f.src| - k);
            var ids := f.ship.mem.order + Ids(f.src[k..k + m]);
            && r.shipped == m && r.mem.seqNo == k + m
            && r.mem.order == (if m > 0 && |ids| > 2 * cfg.window then ids[|ids| - 2 * cfg.window..] else ids)
            && r.disk == (if m > 0 && saved then r.mem else f.ship.disk)
            && Reload(r).mem == r.disk
  {
    hide Run, Inv, ToShip, Recent, Fits, Journal, Spread, PostAll, LeadingAcks;
    RunKeeps(cfg, start, script);
    FeedIs(cfg, w, n);
    var f := w.feeds[n];
    var s := Begin(f.ship, Recent(f.src, cfg.window));
    BeginOk(f.src, f.ship, cfg.window);
    BeginKeepsMem(f.ship, Recent(f.src, cfg.window));
    PostsUntilRefused(s, outs);
    var k, m := f.ship.mem.seqNo, Least(LeadingAcks(outs), |s.todo|);
    assert s.todo[..m] == f.src[k..k + m];
    assert s.mem.order + Ids(s.todo[..m]) == f.ship.mem.order + Ids(f.src[k..k + m]);
    WindowNotEmpty(f.src, k + |s.todo|, cfg.window);
  }
}
