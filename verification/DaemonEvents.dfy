/** What each tick of a run logs, entry by entry. */
module DaemonEvents {
  import opened Wrappers
  import opened Heal
  import opened SelfHeal
  import opened Breaker
  import opened DaemonRuns
  import A = Alert
  import C = Canonical
  import F = CanonicalForm

  /** The event of one peer of the read whose state moved. */
  function MoveEvent(p: PeerState, before: State, after: State, now: int): A.Event {
    A.Event(p.publicKey, p.name, p.tunnelIp, before, after, p.lastHandshake, p.endpoint, now)
  }

  /** The event of a peer that left: its key, the state it left in, and nothing else. */
  function LeftEvent(k: Key, before: State, now: int): A.Event {
    A.Event(k, [], [], before, Gone, None, "", now)
  }

  /** `moved` are the places in the read of the peers whose state is not what it was, absence
      meaning ok, in the order of the read. */
  ghost predicate Moved(before: map<Key, State>, after: map<Key, State>, ps: seq<PeerState>, moved: seq<nat>) {
    && (forall j :: 0 <= j < |moved| ==> moved[j] < |ps|)
    && (forall i, j :: 0 <= i < j < |moved| ==> moved[i] < moved[j])
    && (forall i :: 0 <= i < |ps| ==> ps[i].publicKey in after)
    && (forall i: nat :: i < |ps| ==> (i in moved <==> A.PriorState(before, ps[i].publicKey) != after[ps[i].publicKey]))
  }

  /** `left` are the keys that are known no more, in ascending order. */
  ghost predicate Left(before: map<Key, State>, after: map<Key, State>, left: seq<Key>) {
    && (forall i, j :: 0 <= i < j < |left| ==> F.Below(left[i], left[j]))
    && (forall k :: k in left <==> k in before && k !in after)
  }

  /** One event for each of them, in that order, with what the read says of the peer. */
  ghost predicate Logged(before: map<Key, State>, after: map<Key, State>, ps: seq<PeerState>, now: int, es: seq<A.Event>,
                         moved: seq<nat>, left: seq<Key>)
    requires Moved(before, after, ps, moved) && Left(before, after, left)
  {
    && |es| == |moved| + |left|
    && (forall j :: 0 <= j < |moved| ==>
          var p := ps[moved[j]]; es[j] == MoveEvent(p, A.PriorState(before, p.publicKey), after[p.publicKey], now))
    && (forall j :: 0 <= j < |left| ==> es[|moved| + j] == LeftEvent(left[j], A.PriorState(before, left[j]), now))
  }

  ghost predicate LogsTheMoves(before: map<Key, State>, after: map<Key, State>, ps: seq<PeerState>, now: int, es: seq<A.Event>) {
    exists moved, left :: Moved(before, after, ps, moved) && Left(before, after, left) && Logged(before, after, ps, now, es, moved, left)
  }

  // ---- one tick ----

  /** Places in the list of the statuses that differ from the prior state. */
  function MovedPlaces(last: map<Key, State>, ss: seq<PeerStatus>): (r: seq<nat>)
    ensures forall j :: 0 <= j < |r| ==> r[j] < |ss|
  {
    if |ss| == 0 then []
    else
      var m := |ss| - 1;
      MovedPlaces(last, ss[..m]) + if A.PriorState(last, ss[m].peer) != ss[m].state then [m] else []
  }

  function StatusEvent(last: map<Key, State>, s: PeerStatus, now: int): A.Event {
    A.Event(s.peer, s.name, s.tunnelIp, A.PriorState(last, s.peer), s.state, s.lastHandshake, s.endpoint, now)
  }

  lemma {:induction false} PlacesMoved(last: map<Key, State>, ss: seq<PeerStatus>)
    ensures var r := MovedPlaces(last, ss);
            && (forall i, j :: 0 <= i < j < |r| ==> r[i] < r[j])
            && (forall i: nat :: i < |ss| ==> (i in r <==> A.PriorState(last, ss[i].peer) != ss[i].state))
  {
    hide A.PriorState;
    if |ss| > 0 { PlacesMoved(last, ss[..|ss| - 1]); }
  }

  lemma {:induction false} ChangesAtPlaces(last: map<Key, State>, ss: seq<PeerStatus>, now: int)
    ensures var r, es := MovedPlaces(last, ss), A.Changes(last, ss, now);
            |es| == |r| && forall j :: 0 <= j < |r| ==> es[j] == StatusEvent(last, ss[r[j]], now)
  {
    hide A.PriorState;
    if |ss| > 0 { ChangesAtPlaces(last, ss[..|ss| - 1], now); }
  }

  lemma GoneInOrder(before: map<Key, State>, after: map<Key, State>, gone: seq<C.Entry<State>>, now: int) returns (left: seq<Key>)
    requires A.GoneList(before, after, gone)
    ensures Left(before, after, left) && |left| == |gone|
    ensures forall j :: 0 <= j < |left| ==> A.GoneEvent(gone[j], now) == LeftEvent(left[j], A.PriorState(before, left[j]), now)
  {
    hide C.Less, F.Below;
    left := seq(|gone|, i requires 0 <= i < |gone| => gone[i].key);
    forall i, j | 0 <= i < j < |left| ensures F.Below(left[i], left[j]) {
      F.LessIsBelow(left[i], left[j]);
    }
    forall k ensures k in left <==> k in before && k !in after {
      if k in before && k !in after {
        assert C.Entry(k, before[k]) in gone;
        var i :| 0 <= i < |gone| && gone[i] == C.Entry(k, before[k]);
        assert left[i] == k;
      }
      if k in left {
        var i :| 0 <= i < |left| && left[i] == k;
        assert gone[i] in gone;
      }
    }
    forall j | 0 <= j < |left| ensures A.GoneEvent(gone[j], now) == LeftEvent(left[j], A.PriorState(before, left[j]), now) {
      assert gone[j] in gone;
    }
  }

  lemma StatusStates(now: int, ps: seq<PeerState>, prev: map<Key, PeerMemo>, cfg: Config)
    requires DistinctPeers(ps)
    ensures var ss, after := Statuses(now, ps, prev, cfg), StatesOf(NextMemo(now, ps, prev, cfg));
            forall i :: 0 <= i < |ps| ==> ps[i].publicKey in after && after[ps[i].publicKey] == ss[i].state && ss[i].peer == ps[i].publicKey
  {
    hide StepPeer, NextMemo;
    forall i | 0 <= i < |ps|
      ensures var ss, after := Statuses(now, ps, prev, cfg), StatesOf(NextMemo(now, ps, prev, cfg));
              ps[i].publicKey in after && after[ps[i].publicKey] == ss[i].state
    {
      MemoAt(now, ps, prev, cfg, i);
    }
  }

  lemma MovesOfRead(now: int, ps: seq<PeerState>, prev: map<Key, PeerMemo>, cfg: Config) returns (moved: seq<nat>)
    requires DistinctPeers(ps)
    ensures var before, after, ss := StatesOf(prev), StatesOf(NextMemo(now, ps, prev, cfg)), Statuses(now, ps, prev, cfg);
            && Moved(before, after, ps, moved)
            && |A.Changes(before, ss, now)| == |moved|
            && forall j :: 0 <= j < |moved| ==>
                 var p := ps[moved[j]];
                 A.Changes(before, ss, now)[j] == MoveEvent(p, A.PriorState(before, p.publicKey), after[p.publicKey], now)
  {
    hide NextMemo, StepPeer, A.Changes, MovedPlaces, A.PriorState;
    var ss := Statuses(now, ps, prev, cfg);
    StatusStates(now, ps, prev, cfg);
    moved := MovedPlaces(StatesOf(prev), ss);
    PlacesMoved(StatesOf(prev), ss);
    ChangesAtPlaces(StatesOf(prev), ss, now);
  }

  lemma TickLogs(l: Loop, c: Cycle, s: Setup, events: seq<A.Event>)
    requires CycleLog(l, c, s, events) && c.read.Some? && DistinctPeers(c.read.value)
    ensures LogsTheMoves(StatesOf(l.memo), StatesOf(NextMemo(c.now, c.read.value, l.memo, s.cfg)), c.read.value, c.now, events)
  {
    hide NextMemo, StepPeer, A.Changes, A.NextStates, Moved, Left, A.GoneList, A.PriorState, MoveEvent, LeftEvent, Statuses, StatesOf;
    var ps := c.read.value;
    var before, ss := StatesOf(l.memo), Statuses(c.now, ps, l.memo, s.cfg);
    MemoStates(c.now, ps, l.memo, s.cfg);
    var gone :| A.GoneList(before, A.NextStates(ss), gone)
      && events == A.Changes(before, ss, c.now) + A.GoneEvents(gone, c.now);
    var moved := MovesOfRead(c.now, ps, l.memo, s.cfg);
    var left := GoneInOrder(before, A.NextStates(ss), gone, c.now);
    assert Logged(before, A.NextStates(ss), ps, c.now, events, moved, left);
  }

  /** In every run, each successful tick logs one event for each peer whose state moved, in the
      order of the read and with what the read says of it, then one for each peer that left,
      in the order of keys, each with the state from before; a failed one logs nothing. */
  lemma EachMoveIsLogged(cs: seq<Cycle>, s: Setup, logs: seq<seq<A.Event>>, n: nat)
    requires DistinctReads(cs) && IsLog(cs, s, logs) && n < |cs|
    ensures match cs[n].read
            case None => logs[n] == []
            case Some(ps) =>
              LogsTheMoves(StatesOf(RunLoop(cs[..n], s).memo), StatesOf(RunLoop(cs[..n + 1], s).memo), ps, cs[n].now, logs[n])
  {
    hide NextMemo, NewCache, TickPushes, After, LogsTheMoves, CycleLog, StatesOf;
    var l, c := RunLoop(cs[..n], s), cs[n];
    assert CycleLog(l, c, s, logs[n]);
    assert cs[..n + 1][..n] == cs[..n];
    if c.read.Some? {
      assert RunLoop(cs[..n + 1], s).memo == NextMemo(c.now, c.read.value, l.memo, s.cfg);
      TickLogs(l, c, s, logs[n]);
    } else {
      NothingLogged(l, c, s, logs[n]);
    }
  }

  lemma NothingLogged(l: Loop, c: Cycle, s: Setup, events: seq<A.Event>)
    requires CycleLog(l, c, s, events) && c.read.None?
    ensures events == []
  {}
}
