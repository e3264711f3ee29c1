/** The transition events of the self-heal daemon (daemon/internal/alert/alert.go) and the
    reader that replays them (island/src/core/sysinfo.ts). */
module Alert {
  import opened Wrappers
  import opened Heal
  import C = Canonical
  import O = CanonicalOrder

  datatype Event = Event(
    peer: Key, name: Label, tunnelIp: Label, from: State, to: State,
    lastHandshake: Option<int>, endpoint: string, at: int)

  // ---- Diff ----

  function PriorState(last: map<Key, State>, peer: Key): State {
    if peer in last then last[peer] else Fine
  }

  function Changes(last: map<Key, State>, ss: seq<PeerStatus>, now: int): seq<Event> {
    if |ss| == 0 then []
    else
      var s, before := ss[|ss| - 1], Changes(last, ss[..|ss| - 1], now);
      var prev := PriorState(last, s.peer);
      if prev == s.state then before
      else before + [Event(s.peer, s.name, s.tunnelIp, prev, s.state, s.lastHandshake, s.endpoint, now)]
  }

  function NextStates(ss: seq<PeerStatus>): map<Key, State> {
    if |ss| == 0 then map[] else NextStates(ss[..|ss| - 1])[ss[|ss| - 1].peer := ss[|ss| - 1].state]
  }

  /** The vanished peers with their prior states, in key order. */
  ghost predicate GoneList(last: map<Key, State>, next: map<Key, State>, gone: seq<C.Entry<State>>) {
    O.Ascending(gone) && forall e :: e in gone <==> e.key in last && e.key !in next && last[e.key] == e.value
  }

  function GoneEvent(e: C.Entry<State>, now: int): Event {
    Event(e.key, [], [], e.value, Gone, None, "", now)
  }

  function GoneEvents(gone: seq<C.Entry<State>>, now: int): (r: seq<Event>)
    ensures |r| == |gone| && forall i :: 0 <= i < |r| ==> r[i] == GoneEvent(gone[i], now)
  {
    seq(|gone|, i requires 0 <= i < |gone| => GoneEvent(gone[i], now))
  }

  ghost predicate IsDiff(last: map<Key, State>, ss: seq<PeerStatus>, now: int, events: seq<Event>) {
    exists gone :: GoneList(last, NextStates(ss), gone) && events == Changes(last, ss, now) + GoneEvents(gone, now)
  }

  /** Collects in any order, as ranging over a Go map does. */
  method Collect(last: map<Key, State>, next: map<Key, State>) returns (gone: seq<C.Entry<State>>)
    ensures C.DistinctKeys(gone)
    ensures forall e :: e in gone <==> e.key in last && e.key !in next && last[e.key] == e.value
  {
    gone := [];
    var todo := last.Keys - next.Keys;
    while todo != {}
      invariant todo <= last.Keys - next.Keys
      invariant C.DistinctKeys(gone)
      invariant forall e :: e in gone <==> e.key in last.Keys - next.Keys - todo && last[e.key] == e.value
      decreases |todo|
    {
      var peer :| peer in todo;
      ghost var before := gone;
      gone := gone + [C.Entry(peer, last[peer])];
      todo := todo - {peer};
      forall e ensures e in gone <==> e.key in last.Keys - next.Keys - todo && last[e.key] == e.value {
        assert e in gone <==> e in before || e == C.Entry(peer, last[peer]);
      }
    }
  }

  method Vanished(last: map<Key, State>, next: map<Key, State>) returns (gone: seq<C.Entry<State>>)
    ensures GoneList(last, next, gone)
  {
    hide C.SortByKey;
    var found := Collect(last, next);
    gone := C.SortByKey(found);
    O.SortAscending(found);
    O.SortMembers(found);
  }

  method Changed(last: map<Key, State>, ss: seq<PeerStatus>, now: int) returns (events: seq<Event>, next: map<Key, State>)
    ensures events == Changes(last, ss, now) && next == NextStates(ss)
  {
    events, next := [], map[];
    for i := 0 to |ss|
      invariant events == Changes(last, ss[..i], now) && next == NextStates(ss[..i])
    {
      var s := ss[i];
      assert ss[..i + 1][..i] == ss[..i];
      var prev := if s.peer in last then last[s.peer] else Fine;
      if prev != s.state {
        events := events + [Event(s.peer, s.name, s.tunnelIp, prev, s.state, s.lastHandshake, s.endpoint, now)];
      }
      next := next[s.peer := s.state];
    }
    assert ss[..|ss|] == ss;
  }

  method Diff(last: map<Key, State>, ss: seq<PeerStatus>, now: int) returns (events: seq<Event>, next: map<Key, State>)
    ensures next == NextStates(ss) && IsDiff(last, ss, now, events)
  {
    hide Changes, NextStates, O.Ascending;
    events, next := Changed(last, ss, now);
    var gone := Vanished(last, next);
    for i := 0 to |gone|
      invariant events == Changes(last, ss, now) + GoneEvents(gone[..i], now)
    {
      assert GoneEvents(gone[..i + 1], now) == GoneEvents(gone[..i], now) + [GoneEvent(gone[i], now)];
      events := events + [Event(gone[i].key, [], [], last[gone[i].key], Gone, None, "", now)];
    }
    assert gone[..|gone|] == gone;
  }

  lemma GoneListUnique(last: map<Key, State>, next: map<Key, State>, a: seq<C.Entry<State>>, b: seq<C.Entry<State>>)
    requires GoneList(last, next, a) && GoneList(last, next, b)
    ensures a == b
  {
    O.AscendingDistinct(a);
    O.AscendingDistinct(b);
    O.DistinctCount(a);
    O.DistinctCount(b);
    assert (set e | e in a) == (set e | e in b);
    O.AscendingUnique(a, b);
  }

  /** The events do not depend on the order in which the map is walked. */
  lemma DiffDetermined(last: map<Key, State>, ss: seq<PeerStatus>, now: int, a: seq<Event>, b: seq<Event>)
    requires IsDiff(last, ss, now, a) && IsDiff(last, ss, now, b)
    ensures a == b
  {
    var g :| GoneList(last, NextStates(ss), g) && a == Changes(last, ss, now) + GoneEvents(g, now);
    var h :| GoneList(last, NextStates(ss), h) && b == Changes(last, ss, now) + GoneEvents(h, now);
    GoneListUnique(last, NextStates(ss), g, h);
  }

  // ---- the stream as a delta ----

  /** What a follower of the stream holds: absent means ok. */
  function Apply(view: map<Key, State>, e: Event): map<Key, State> {
    if e.to == Gone then view - {e.peer} else view[e.peer := e.to]
  }

  function Replay(view: map<Key, State>, events: seq<Event>): map<Key, State> {
    if |events| == 0 then view else Apply(Replay(view, events[..|events| - 1]), events[|events| - 1])
  }

  ghost predicate Agrees(view: map<Key, State>, states: map<Key, State>) {
    (forall k :: k in states ==> PriorState(view, k) == states[k]) && (forall k :: k in view ==> k in states)
  }

  ghost predicate DistinctStatuses(ss: seq<PeerStatus>) {
    forall i, j :: 0 <= i < j < |ss| ==> ss[i].peer != ss[j].peer
  }

  lemma {:induction false} ReplayConcat(view: map<Key, State>, a: seq<Event>, b: seq<Event>)
    ensures Replay(view, a + b) == Replay(Replay(view, a), b)
  {
    if |b| == 0 {
      assert a + b == a;
    } else {
      assert (a + b)[..|a + b| - 1] == a + b[..|b| - 1];
      ReplayConcat(view, a, b[..|b| - 1]);
    }
  }

  ghost predicate Listed(ss: seq<PeerStatus>, k: Key) {
    exists i :: 0 <= i < |ss| && ss[i].peer == k
  }

  lemma {:induction false} NextStatesKeys(ss: seq<PeerStatus>, k: Key)
    ensures k in NextStates(ss) <==> Listed(ss, k)
  {
    if |ss| > 0 {
      var m := |ss| - 1;
      NextStatesKeys(ss[..m], k);
      if ss[m].peer == k {
        assert Listed(ss, k);
      } else if Listed(ss, k) {
        var i :| 0 <= i < |ss| && ss[i].peer == k;
        assert ss[..m][i].peer == k;
      }
    }
  }

  lemma {:induction false} ReplayChanges(view: map<Key, State>, last: map<Key, State>, ss: seq<PeerStatus>, now: int, k: Key)
    requires Agrees(view, last) && DistinctStatuses(ss) && forall i :: 0 <= i < |ss| ==> ss[i].state != Gone
    ensures var r, next := Replay(view, Changes(last, ss, now)), NextStates(ss);
            && (k in next ==> PriorState(r, k) == next[k])
            && (k !in next ==> (k in r <==> k in view) && PriorState(r, k) == PriorState(view, k))
  {
    if |ss| > 0 {
      var m := |ss| - 1;
      ReplayChanges(view, last, ss[..m], now, k);
      var s := ss[m];
      NextStatesKeys(ss[..m], s.peer);
      var before := Changes(last, ss[..m], now);
      if PriorState(last, s.peer) != s.state {
        var e := Event(s.peer, s.name, s.tunnelIp, PriorState(last, s.peer), s.state, s.lastHandshake, s.endpoint, now);
        assert (before + [e])[..|before|] == before;
      }
    }
  }

  lemma GoneKeys(gone: seq<C.Entry<State>>)
    requires |gone| > 0
    ensures (set e: C.Entry<State> | e in gone :: e.key)
         == (set e: C.Entry<State> | e in gone[..|gone| - 1] :: e.key) + {gone[|gone| - 1].key}
  {
    var m := |gone| - 1;
    assert gone == gone[..m] + [gone[m]];
  }

  lemma {:induction false} ReplayGone(view: map<Key, State>, gone: seq<C.Entry<State>>, now: int)
    ensures Replay(view, GoneEvents(gone, now)) == view - (set e: C.Entry<State> | e in gone :: e.key)
  {
    if |gone| > 0 {
      var m := |gone| - 1;
      ReplayGone(view, gone[..m], now);
      GoneKeys(gone);
      assert GoneEvents(gone, now)[..m] == GoneEvents(gone[..m], now);
    } else {
      assert view - (set e: C.Entry<State> | e in gone :: e.key) == view;
    }
  }

  /** One tick: the view of a follower moves from agreeing with the old states to agreeing
      with the new ones. */
  lemma DiffMovesView(view: map<Key, State>, last: map<Key, State>, ss: seq<PeerStatus>, now: int, events: seq<Event>)
    requires Agrees(view, last) && DistinctStatuses(ss) && forall i :: 0 <= i < |ss| ==> ss[i].state != Gone
    requires IsDiff(last, ss, now, events)
    ensures Agrees(Replay(view, events), NextStates(ss))
  {
    var gone :| GoneList(last, NextStates(ss), gone) && events == Changes(last, ss, now) + GoneEvents(gone, now);
    var mid := Replay(view, Changes(last, ss, now));
    forall k ensures var r, next := mid, NextStates(ss);
                     && (k in next ==> PriorState(r, k) == next[k])
                     && (k !in next ==> (k in r <==> k in view) && PriorState(r, k) == PriorState(view, k)) {
      ReplayChanges(view, last, ss, now, k);
    }
    ReplayConcat(view, Changes(last, ss, now), GoneEvents(gone, now));
    ReplayGone(mid, gone, now);
    var keys := set e: C.Entry<State> | e in gone :: e.key;
    forall k | k in last && k !in NextStates(ss) ensures k in keys {
      assert C.Entry(k, last[k]) in gone;
    }
  }
}
