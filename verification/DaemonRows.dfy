/** The roster row by row: when the row of one peer is right, and a run in which it is not. */
module DaemonRows {
  import opened Wrappers
  import opened Heal
  import opened SelfHeal
  import opened Breaker
  import opened DaemonRuns
  import opened DaemonFeed
  import opened DaemonRoster
  import A = Alert

  /** Event `i` is the last that names the peer by its own label. */
  ghost predicate LastTold(es: seq<A.Event>, k: Key, i: int) {
    0 <= i < |es| && es[i].peer == k && es[i].to != Gone && forall j :: i < j < |es| && es[j].peer == k ==> es[j].to == Gone
  }

  ghost predicate StaysAfter(es: seq<A.Event>, k: Key, i: int) {
    forall j :: 0 <= j && i < j < |es| && es[j].peer == k ==> es[j].to != Gone
  }

  lemma StateNameInjective(a: State, b: State)
    ensures StateName(a) == StateName(b) <==> a == b
  {}

  /** A line names a label exactly when its event is one of that label's peer. */
  lemma LineNames(e: A.Event, lab: map<Key, Label>, k: Key)
    requires Injective(lab) && OwnLabels(lab) && k in lab && e.peer in lab
    requires e.to != Gone ==> PeerLabel(e.name, e.tunnelIp, e.peer) == lab[e.peer]
    requires e.to == Gone ==> e.name == [] && e.tunnelIp == []
    ensures Names(LineOf(e), lab[k]) <==> e.peer == k && e.to != Gone
  {}

  lemma EventLabels(es: seq<A.Event>, lab: map<Key, Label>, i: nat, k: Key)
    requires Named(es, lab) && GoneBare(es) && OwnLabels(lab) && k in lab && i < |es|
    ensures Names(LinesOf(es)[i], lab[k]) <==> es[i].peer == k && es[i].to != Gone
  {
    hide OwnLabels, LineOf, Names;
    assert Injective(lab) by { OwnInjective(lab); }
    LineNames(es[i], lab, k);
  }

  lemma OwnInjective(lab: map<Key, Label>)
    requires OwnLabels(lab)
    ensures Injective(lab)
  {}

  lemma LastToldIsLastWord(es: seq<A.Event>, lab: map<Key, Label>, k: Key, i: int)
    requires Named(es, lab) && GoneBare(es) && OwnLabels(lab) && k in lab
    ensures LastTold(es, k, i) <==> LastWord(LinesOf(es), lab[k], i)
  {
    hide OwnLabels, Named, GoneBare, LineOf, Names;
    forall j: nat | j < |es| ensures Names(LinesOf(es)[j], lab[k]) <==> es[j].peer == k && es[j].to != Gone {
      EventLabels(es, lab, j, k);
    }
  }

  /** A peer has a row under its label exactly when the tail tells of it, and the row is that
      of the last event that does. */
  lemma RowIsLastTold(es: seq<A.Event>, lab: map<Key, Label>, lines: seq<Line>, k: Key)
    requires Named(es, lab) && GoneBare(es) && OwnLabels(lab) && k in lab && Told(lines) == LinesOf(es)
    ensures lab[k] in Latest(lines) <==> exists i :: LastTold(es, k, i)
    ensures forall i :: LastTold(es, k, i) ==>
              lab[k] in Latest(lines) && Latest(lines)[lab[k]] == Row(StateName(es[i].to), es[i].endpoint)
  {
    hide OwnLabels, Named, GoneBare, Latest, Told, LastWord;
    ToldIsEnough(lines);
    LatestIsLastWord(LinesOf(es), lab[k]);
    forall i ensures LastTold(es, k, i) <==> LastWord(LinesOf(es), lab[k], i) {
      LastToldIsLastWord(es, lab, k, i);
    }
    forall i | 0 <= i < |es| && LastTold(es, k, i)
      ensures lab[k] in Latest(lines) && Latest(lines)[lab[k]] == Row(StateName(es[i].to), es[i].endpoint)
    {
      assert LastWord(LinesOf(es), lab[k], i);
      ToldBounds(es, k, i);
    }
  }

  lemma ToldBounds(es: seq<A.Event>, k: Key, i: int)
    requires LastTold(es, k, i)
    ensures 0 <= i < |es| && RowOf(LinesOf(es)[i]) == Row(StateName(es[i].to), es[i].endpoint)
  {}

  /** Without a departure after it, the last told change is what a replay ends with. */
  lemma {:induction false} ReplayEndsWith(view: map<Key, State>, es: seq<A.Event>, k: Key, i: int)
    requires LastTold(es, k, i) && StaysAfter(es, k, i)
    ensures k in A.Replay(view, es) && A.Replay(view, es)[k] == es[i].to
  {
    var m := |es| - 1;
    if i < m { ReplayEndsWith(view, es[..m], k, i); }
  }

  /** The row of one peer, read from any tail: right if and only if the peer has not departed
      since its last told change, or is back with the very state that change told. */
  lemma RowRightIff(cs: seq<Cycle>, s: Setup, logs: seq<seq<A.Event>>, lab: map<Key, Label>, past: nat, lines: seq<Line>, k: Key, i: int)
    requires DistinctReads(cs) && IsLog(cs, s, logs)
    requires Named(Flat(logs), lab) && OwnLabels(lab) && k in lab
    requires past <= |Flat(logs)| && Told(lines) == LinesOf(Flat(logs)[past..]) && LastTold(Flat(logs)[past..], k, i)
    ensures lab[k] in Latest(lines) && 0 <= i < |Flat(logs)[past..]|
    ensures var memo, told := RunLoop(cs, s).memo, Flat(logs)[past..][i].to;
            (k in memo && Latest(lines)[lab[k]].state == StateName(memo[k].state)) <==>
            StaysAfter(Flat(logs)[past..], k, i) || (k in memo && memo[k].state == told)
  {
    hide RunLoop, IsLog, Latest, LinesOf, Told, Flat, Named, OwnLabels, A.Replay, StateName, LastTold, StaysAfter, GoneBare;
    var events, memo := Flat(logs), RunLoop(cs, s).memo;
    var tail := events[past..];
    RunGoneBare(cs, s, logs);
    TailKeeps(events, past, lab);
    RowIsLastTold(tail, lab, lines, k);
    ToldBounds(tail, k, i);
    if StaysAfter(tail, k, i) {
      PastReplay(events, past);
      ReplayEndsWith(A.Replay(map[], events[..past]), tail, k, i);
      StreamIsLossless(cs, s, logs);
      assert k in StatesOf(memo) && StatesOf(memo)[k] == tail[i].to;
    }
    if k in memo { StateNameInjective(tail[i].to, memo[k].state); }
  }

  // ---- a run with a departure ----

  function Down(k: Key, name: Label): PeerState {
    PeerState(k, name, [], None, "")
  }

  function DownEvent(k: Key, name: Label): A.Event {
    A.Event(k, name, [], Fine, Degraded, None, "", 0)
  }

  function LeftEvent(k: Key): A.Event {
    A.Event(k, [], [], Degraded, Gone, None, "", 1)
  }

  /** The peer is read once, never having shaken hands, and then it is gone. */
  function Leaving(k: Key, name: Label): seq<Cycle> {
    [Cycle(0, Some([Down(k, name)]))] + [Cycle(1, Some([]))]
  }

  lemma FirstTick(k: Key, name: Label, s: Setup)
    requires s.cfg.degradedAfter <= MAX_STALENESS
    ensures NextMemo(0, [Down(k, name)], map[], s.cfg) == map[k := PeerMemo(Degraded, 0)]
    ensures A.IsDiff(map[], Statuses(0, [Down(k, name)], map[], s.cfg), 0, [DownEvent(k, name)])
  {
    var ss := Statuses(0, [Down(k, name)], map[], s.cfg);
    assert [Down(k, name)][..0] == [] && ss[..0] == [];
    assert ss == [PeerStatus(k, name, [], Degraded, None, "")];
    assert A.Changes(map[], ss, 0) == [DownEvent(k, name)];
    assert A.GoneList(map[], A.NextStates(ss), []);
    assert [DownEvent(k, name)] + A.GoneEvents([], 0) == [DownEvent(k, name)];
  }

  lemma SecondTick(k: Key, s: Setup)
    ensures A.IsDiff(map[k := Degraded], Statuses(1, [], map[k := PeerMemo(Degraded, 0)], s.cfg), 1, [LeftEvent(k)])
  {
    var gone := [A.C.Entry(k, Degraded)];
    assert A.GoneList(map[k := Degraded], A.NextStates([]), gone);
    assert A.GoneEvents(gone, 1) == [LeftEvent(k)];
    assert A.Changes(map[k := Degraded], [], 1) + A.GoneEvents(gone, 1) == [LeftEvent(k)];
  }

  lemma TwoCycles(c0: Cycle, c1: Cycle, s: Setup)
    ensures RunLoop([], s) == START && RunLoop([c0], s) == NextLoop(START, c0, s)
    ensures RunLoop([c0] + [c1], s) == NextLoop(NextLoop(START, c0, s), c1, s)
  {
    hide NextLoop;
    assert [c0][..0] == [] && ([c0] + [c1])[..1] == [c0];
  }

  /** Whatever the peer and its label: after this run the daemon knows no peer, and the roster
      still shows this one, degraded. */
  lemma DepartedPeerStays(k: Key, name: Label, s: Setup)
    requires |k| > 0 && |name| > 0 && name != ShortKey(k) && s.cfg.degradedAfter <= MAX_STALENESS
    ensures var cs, logs := Leaving(k, name), [[DownEvent(k, name)], [LeftEvent(k)]];
            && DistinctReads(cs) && IsLog(cs, s, logs)
            && Named(Flat(logs), map[k := name]) && OwnLabels(map[k := name])
            && RunLoop(cs, s).memo == map[]
            && Latest(LinesOf(Flat(logs))) == map[name := Row("degraded", ""), ShortKey(k) := Row("gone", "")]
  {
    hide NewCache, TickPushes, After, Statuses, A.IsDiff, NextMemo;
    var c0, c1 := Cycle(0, Some([Down(k, name)])), Cycle(1, Some([]));
    var cs, logs := Leaving(k, name), [[DownEvent(k, name)], [LeftEvent(k)]];
    FirstTick(k, name, s);
    SecondTick(k, s);
    TwoCycles(c0, c1, s);
    NoPeers(1, RunLoop([c0], s).memo, s.cfg);
    assert cs[..0] == [] && cs[..1] == [c0] && cs == [c0] + [c1];
    DepartureLog(k, name, cs, s, logs);
    LeavingLines(k, name);
  }

  lemma NoPeers(now: int, prev: map<Key, PeerMemo>, cfg: Config)
    ensures NextMemo(now, [], prev, cfg) == map[]
  {}

  lemma DepartureLog(k: Key, name: Label, cs: seq<Cycle>, s: Setup, logs: seq<seq<A.Event>>)
    requires cs == Leaving(k, name) && logs == [[DownEvent(k, name)], [LeftEvent(k)]]
    requires RunLoop(cs[..0], s) == START && RunLoop(cs[..1], s).memo == map[k := PeerMemo(Degraded, 0)]
    requires A.IsDiff(map[], Statuses(0, [Down(k, name)], map[], s.cfg), 0, [DownEvent(k, name)])
    requires A.IsDiff(map[k := Degraded], Statuses(1, [], map[k := PeerMemo(Degraded, 0)], s.cfg), 1, [LeftEvent(k)])
    ensures IsLog(cs, s, logs)
  {
    hide RunLoop, A.IsDiff, Statuses;
    assert StatesOf(map[k := PeerMemo(Degraded, 0)]) == map[k := Degraded];
    assert StatesOf(map[]) == map[];
    forall i | 0 <= i < |cs| ensures CycleLog(RunLoop(cs[..i], s), cs[i], s, logs[i]) {
      if i == 0 { assert CycleLog(RunLoop(cs[..0], s), cs[0], s, logs[0]); } else { assert i == 1; }
    }
  }

  lemma LeavingEvents(a: A.Event, b: A.Event)
    ensures Flat([[a], [b]]) == [a, b]
  {
    var logs := [[a], [b]];
    assert logs[..1] == [[a]] && logs[..1][..0] == [];
    assert Flat(logs[..1]) == [] + [a];
  }

  lemma TwoRows(a: A.Event, b: A.Event)
    requires Tells(LineOf(a)) && Tells(LineOf(b))
    ensures Latest(LinesOf([a, b])) == map[LineOf(a).peer := RowOf(LineOf(a))][LineOf(b).peer := RowOf(LineOf(b))]
  {
    hide RowOf, PeerLabel, StateName;
    var lines := LinesOf([a, b]);
    assert lines[..1][..0] == [];
    assert Latest(lines[..1]) == map[LineOf(a).peer := RowOf(LineOf(a))];
  }

  lemma LeavingLines(k: Key, name: Label)
    requires |k| > 0 && |name| > 0 && name != ShortKey(k)
    ensures var es := Flat([[DownEvent(k, name)], [LeftEvent(k)]]);
            && es == [DownEvent(k, name), LeftEvent(k)] && Named(es, map[k := name])
            && Latest(LinesOf(es)) == map[name := Row("degraded", ""), ShortKey(k) := Row("gone", "")]
  {
    hide Flat, Latest, LinesOf;
    LeavingEvents(DownEvent(k, name), LeftEvent(k));
    TwoRows(DownEvent(k, name), LeftEvent(k));
  }
}
