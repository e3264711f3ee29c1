/** The roster of a daemon that runs with --snapshot: one line for each peer and tick, written
    before the changes of that tick. */
module DaemonSnapshots {
  import opened Wrappers
  import opened Heal
  import opened SelfHeal
  import opened Breaker
  import opened DaemonRuns
  import opened DaemonFeed
  import A = Alert
  import C = Canonical

  /** The status of a snapshot line: thresholds only, no memory. */
  function SnapshotStatus(p: PeerState, now: int, cfg: Config): string {
    if p.lastHandshake.None? || now - p.lastHandshake.value >= cfg.degradedAfter then "degraded"
    else if now - p.lastHandshake.value >= cfg.staleAfter then "stale"
    else "ok"
  }

  function LabelOf(p: PeerState): Label {
    PeerLabel(p.name, p.tunnelIp, p.publicKey)
  }

  function SnapshotLine(p: PeerState, now: int, cfg: Config): Line {
    Line("peer", LabelOf(p), "", SnapshotStatus(p, now, cfg), p.endpoint)
  }

  function Snapshot(ps: seq<PeerState>, now: int, cfg: Config): (r: seq<Line>)
    ensures |r| == |ps| && forall i :: 0 <= i < |r| ==> r[i] == SnapshotLine(ps[i], now, cfg)
  {
    seq(|ps|, i requires 0 <= i < |ps| => SnapshotLine(ps[i], now, cfg))
  }

  /** `observe`. */
  method Observe(now: int, peers: seq<PeerState>, cfg: Config) returns (lines: seq<Line>)
    ensures lines == Snapshot(peers, now, cfg)
  {
    lines := [];
    for i := 0 to |peers|
      invariant lines == Snapshot(peers[..i], now, cfg)
    {
      var p, status := peers[i], "ok";
      if p.lastHandshake.None? || now - p.lastHandshake.value >= cfg.degradedAfter {
        status := "degraded";
      } else if now - p.lastHandshake.value >= cfg.staleAfter {
        status := "stale";
      }
      lines := lines + [Line("peer", PeerLabel(p.name, p.tunnelIp, p.publicKey), "", status, p.endpoint)];
    }
    assert peers[..|peers|] == peers;
  }

  // ---- reading one tick ----

  /** Each peer of a read has a label of its own. */
  ghost predicate OwnLabel(ps: seq<PeerState>) {
    && (forall i :: 0 <= i < |ps| ==> |LabelOf(ps[i])| > 0)
    && (forall i, j :: 0 <= i < j < |ps| ==> LabelOf(ps[i]) != LabelOf(ps[j]))
  }

  lemma {:induction false} LatestConcat(a: seq<Line>, b: seq<Line>, lb: Label)
    ensures lb in Latest(b) ==> lb in Latest(a + b) && Latest(a + b)[lb] == Latest(b)[lb]
    ensures lb !in Latest(b) ==> (lb in Latest(a + b) <==> lb in Latest(a)) && (lb in Latest(a) ==> Latest(a + b)[lb] == Latest(a)[lb])
  {
    hide Tells, RowOf;
    if |b| == 0 {
      assert a + b == a;
    } else {
      assert (a + b)[..|a + b| - 1] == a + b[..|b| - 1];
      LatestConcat(a, b[..|b| - 1], lb);
    }
  }

  lemma {:induction false} LatestUnnamed(lines: seq<Line>, lb: Label)
    requires forall i :: 0 <= i < |lines| ==> lines[i].Line? && lines[i].peer != lb
    ensures lb !in Latest(lines)
  {
    hide Tells, RowOf;
    if |lines| > 0 { LatestUnnamed(lines[..|lines| - 1], lb); }
  }

  lemma {:induction false} SnapshotRow(ps: seq<PeerState>, now: int, cfg: Config, i: nat)
    requires OwnLabel(ps) && i < |ps|
    ensures LabelOf(ps[i]) in Latest(Snapshot(ps, now, cfg))
    ensures Latest(Snapshot(ps, now, cfg))[LabelOf(ps[i])] == Row(SnapshotStatus(ps[i], now, cfg), ps[i].endpoint)
  {
    hide LabelOf;
    var m := |ps| - 1;
    assert Snapshot(ps, now, cfg)[..m] == Snapshot(ps[..m], now, cfg);
    if i < m { SnapshotRow(ps[..m], now, cfg, i); }
  }

  lemma RowsPush(es: seq<A.Event>, e: A.Event)
    ensures var lb := PeerLabel(e.name, e.tunnelIp, e.peer);
            Latest(LinesOf(es + [e])) ==
            if |lb| == 0 then Latest(LinesOf(es)) else Latest(LinesOf(es))[lb := Row(StateName(e.to), e.endpoint)]
  {
    hide PeerLabel;
    assert LinesOf(es + [e])[..|es|] == LinesOf(es);
  }

  lemma ChangesPush(last: map<Key, State>, now: int, ps: seq<PeerState>, prev: map<Key, PeerMemo>, cfg: Config)
    requires |ps| > 0
    ensures var m, ss := |ps| - 1, Statuses(now, ps, prev, cfg);
            var before := A.Changes(last, Statuses(now, ps[..m], prev, cfg), now);
            var was := A.PriorState(last, ps[m].publicKey);
            A.Changes(last, ss, now) ==
            if was == ss[m].state then before
            else before + [A.Event(ps[m].publicKey, ps[m].name, ps[m].tunnelIp, was, ss[m].state, ps[m].lastHandshake, ps[m].endpoint, now)]
  {
    hide StepPeer, A.PriorState;
    var m := |ps| - 1;
    assert Statuses(now, ps, prev, cfg)[..m] == Statuses(now, ps[..m], prev, cfg);
  }

  /** The change lines of a tick give a row to exactly the peers whose state moved. */
  lemma {:induction false} ChangeRow(last: map<Key, State>, now: int, ps: seq<PeerState>, prev: map<Key, PeerMemo>, cfg: Config, i: nat)
    requires OwnLabel(ps) && i < |ps|
    ensures var ss := Statuses(now, ps, prev, cfg);
            var rows, lb := Latest(LinesOf(A.Changes(last, ss, now))), LabelOf(ps[i]);
            && (lb in rows <==> A.PriorState(last, ps[i].publicKey) != ss[i].state)
            && (lb in rows ==> rows[lb] == Row(StateName(ss[i].state), ps[i].endpoint))
  {
    hide StepPeer, PeerLabel, A.PriorState, A.Changes, Latest, LinesOf, StateName;
    var m := |ps| - 1;
    var was, st := A.PriorState(last, ps[m].publicKey), Statuses(now, ps, prev, cfg)[m].state;
    ChangesPush(last, now, ps, prev, cfg);
    RowsPush(A.Changes(last, Statuses(now, ps[..m], prev, cfg), now),
             A.Event(ps[m].publicKey, ps[m].name, ps[m].tunnelIp, was, st, ps[m].lastHandshake, ps[m].endpoint, now));
    if i < m {
      ChangeRow(last, now, ps[..m], prev, cfg, i);
    } else {
      NoRowYet(last, now, ps[..m], prev, cfg, LabelOf(ps[i]));
    }
  }

  lemma {:induction false} NoRowYet(last: map<Key, State>, now: int, ps: seq<PeerState>, prev: map<Key, PeerMemo>, cfg: Config, lb: Label)
    requires forall i :: 0 <= i < |ps| ==> LabelOf(ps[i]) != lb
    ensures lb !in Latest(LinesOf(A.Changes(last, Statuses(now, ps, prev, cfg), now)))
  {
    hide StepPeer, PeerLabel, A.PriorState;
    if |ps| > 0 {
      var m := |ps| - 1;
      var was, st := A.PriorState(last, ps[m].publicKey), Statuses(now, ps, prev, cfg)[m].state;
      NoRowYet(last, now, ps[..m], prev, cfg, lb);
      ChangesPush(last, now, ps, prev, cfg);
      RowsPush(A.Changes(last, Statuses(now, ps[..m], prev, cfg), now),
               A.Event(ps[m].publicKey, ps[m].name, ps[m].tunnelIp, was, st, ps[m].lastHandshake, ps[m].endpoint, now));
    }
  }

  /** What the thresholds say is what the memo says, a restored hold aside. */
  lemma StatusIsState(p: PeerState, now: int, prev: PeerMemo, cfg: Config)
    requires cfg.degradedAfter <= MAX_STALENESS
    ensures var st := StepPeer(now, p, prev, cfg).state;
            && st != Gone
            && SnapshotStatus(p, now, cfg) == if st == Restored then "ok" else StateName(st)
  {}

  /** No peer that left in this tick is logged under a present peer's label. */
  ghost predicate LeftApart(ps: seq<PeerState>, events: seq<A.Event>) {
    forall i, j :: 0 <= i < |ps| && 0 <= j < |events| && events[j].to == Gone ==> LineOf(events[j]).peer != LabelOf(ps[i])
  }

  lemma LeftUnnamed(ps: seq<PeerState>, changes: seq<A.Event>, gone: seq<C.Entry<State>>, now: int, i: nat)
    requires LeftApart(ps, changes + A.GoneEvents(gone, now)) && i < |ps|
    ensures LabelOf(ps[i]) !in Latest(LinesOf(A.GoneEvents(gone, now)))
  {
    hide LabelOf, PeerLabel;
    var es, all := A.GoneEvents(gone, now), changes + A.GoneEvents(gone, now);
    forall j | 0 <= j < |es| ensures LineOf(es[j]).peer != LabelOf(ps[i]) {
      assert all[|changes| + j] == es[j];
    }
    LatestUnnamed(LinesOf(es), LabelOf(ps[i]));
  }

  /** One tick after any earlier lines: the row of a present peer. */
  lemma TickRow(l: Loop, c: Cycle, s: Setup, events: seq<A.Event>, older: seq<Line>, i: nat)
    requires CycleLog(l, c, s, events) && c.read.Some? && i < |c.read.value|
    requires OwnLabel(c.read.value) && LeftApart(c.read.value, events)
    ensures var ps, now := c.read.value, c.now;
            var st := StatusOf(now, ps[i], l.memo, s.cfg).state;
            var rows, lb := Latest(older + Snapshot(ps, now, s.cfg) + LinesOf(events)), LabelOf(ps[i]);
            && lb in rows && rows[lb].endpoint == ps[i].endpoint
            && rows[lb].state == if A.PriorState(StatesOf(l.memo), ps[i].publicKey) != st then StateName(st)
                                 else SnapshotStatus(ps[i], now, s.cfg)
  {
    hide Latest, LabelOf, OwnLabel, LeftApart, StepPeer, A.Changes, A.NextStates, A.GoneList, StatesOf, A.PriorState, SnapshotStatus, StateName, LineOf;
    var ps, last, ss := c.read.value, StatesOf(l.memo), Statuses(c.now, c.read.value, l.memo, s.cfg);
    var gone :| A.GoneList(last, A.NextStates(ss), gone) && events == A.Changes(last, ss, c.now) + A.GoneEvents(gone, c.now);
    var changes, left := A.Changes(last, ss, c.now), A.GoneEvents(gone, c.now);
    var snap, lb := Snapshot(ps, c.now, s.cfg), LabelOf(ps[i]);
    assert LinesOf(events) == LinesOf(changes) + LinesOf(left);
    LatestConcat(older, snap, lb);
    LatestConcat(older + snap, LinesOf(events), lb);
    LatestConcat(LinesOf(changes), LinesOf(left), lb);
    SnapshotRow(ps, c.now, s.cfg, i);
    ChangeRow(last, c.now, ps, l.memo, s.cfg, i);
    LeftUnnamed(ps, changes, gone, c.now, i);
  }

  /** In every run with snapshots, after each successful tick every present peer has a row with
      its endpoint of that tick, and the row shows its state if and only if the peer is not in a
      restored hold that began at an earlier tick; in such a hold it shows ok. */
  lemma SnapshotRowRightIff(cs: seq<Cycle>, s: Setup, c: Cycle, events: seq<A.Event>, older: seq<Line>, i: nat)
    requires c.read.Some? && DistinctPeers(c.read.value) && i < |c.read.value|
    requires CycleLog(RunLoop(cs, s), c, s, events) && s.cfg.degradedAfter <= MAX_STALENESS
    requires OwnLabel(c.read.value) && LeftApart(c.read.value, events)
    ensures var p := c.read.value[i];
            var rows := Latest(older + Snapshot(c.read.value, c.now, s.cfg) + LinesOf(events));
            var before, memo := RunLoop(cs, s).memo, RunLoop(cs + [c], s).memo;
            var holding := MemoOf(before, p.publicKey).state == Restored && MemoOf(memo, p.publicKey).state == Restored;
            && LabelOf(p) in rows && p.publicKey in memo && rows[LabelOf(p)].endpoint == p.endpoint
            && (rows[LabelOf(p)].state == StateName(memo[p.publicKey].state) <==> !holding)
            && (holding ==> rows[LabelOf(p)].state == "ok")
  {
    hide Latest, LabelOf, OwnLabel, LeftApart, StepPeer, SnapshotStatus, NewCache, TickPushes, After, CycleLog, Snapshot, LinesOf;
    var p, l := c.read.value[i], RunLoop(cs, s);
    assert (cs + [c])[..|cs|] == cs;
    assert RunLoop(cs + [c], s).memo == NextMemo(c.now, c.read.value, l.memo, s.cfg);
    MemoAt(c.now, c.read.value, l.memo, s.cfg, i);
    StatusIsState(p, c.now, MemoOf(l.memo, p.publicKey), s.cfg);
    TickRow(l, c, s, events, older, i);
  }
}
