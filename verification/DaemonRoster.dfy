/** The island's roster against the daemon's memo, over whole runs. */
module DaemonRoster {
  import opened Heal
  import opened SelfHeal
  import opened Breaker
  import opened DaemonRuns
  import opened DaemonFeed
  import A = Alert

  lemma PastReplay(events: seq<A.Event>, past: nat)
    requires past <= |events|
    ensures A.Replay(map[], events) == A.Replay(A.Replay(map[], events[..past]), events[past..])
  {
    assert events == events[..past] + events[past..];
    A.ReplayConcat(map[], events[..past], events[past..]);
  }

  lemma TailLabelled(events: seq<A.Event>, past: nat, lab: map<Key, Label>)
    requires past <= |events| && Named(events, lab) && OwnLabels(lab) && NoneGone(events[past..])
    ensures Labelled(events[past..], lab) && Injective(lab)
  {
    var tail := events[past..];
    forall i | 0 <= i < |tail|
      ensures tail[i].peer in lab && |lab[tail[i].peer]| > 0 && tail[i].to != Gone
              && PeerLabel(tail[i].name, tail[i].tunnelIp, tail[i].peer) == lab[tail[i].peer]
    {
      assert tail[i] == events[past + i];
    }
  }

  /** A run in which each peer keeps its own label, read back from a tail of its journal
      without departures: every row shows the memo's state of the one peer it names. When
      the tail is the whole journal, a peer without a row is ok. */
  lemma RosterShowsMemo(cs: seq<Cycle>, s: Setup, logs: seq<seq<A.Event>>, lab: map<Key, Label>, past: nat, lines: seq<Line>, k: Key)
    requires DistinctReads(cs) && IsLog(cs, s, logs)
    requires Named(Flat(logs), lab) && OwnLabels(lab)
    requires past <= |Flat(logs)| && Told(lines) == LinesOf(Flat(logs)[past..]) && NoneGone(Flat(logs)[past..])
    requires k in lab
    ensures lab[k] in Latest(lines) ==>
              k in RunLoop(cs, s).memo && Latest(lines)[lab[k]].state == StateName(RunLoop(cs, s).memo[k].state)
    ensures past == 0 && k in RunLoop(cs, s).memo && lab[k] !in Latest(lines) ==> RunLoop(cs, s).memo[k].state == Fine
  {
    hide RunLoop, IsLog, Latest, LinesOf, A.Replay, Told, Flat, Labelled, Named, OwnLabels;
    var events := Flat(logs);
    var tail := events[past..];
    var view := A.Replay(map[], events);
    TailLabelled(events, past, lab);
    StreamIsLossless(cs, s, logs);
    ToldIsEnough(lines);
    LinesFollow(tail, lab);
    PastReplay(events, past);
    if lab[k] in Latest(lines) {
      assert k in A.Replay(map[], tail);
      ReplayOnto(A.Replay(map[], events[..past]), tail, k);
    }
    if past == 0 {
      assert tail == events;
      if k in RunLoop(cs, s).memo && lab[k] !in Latest(lines) {
        assert k !in view;
        assert k in StatesOf(RunLoop(cs, s).memo);
      }
    }
  }

  // ---- exactly when the roster is right ----

  /** The row is some present peer's, under its label and with its state. */
  ghost predicate RowTrue(memo: map<Key, PeerMemo>, lab: map<Key, Label>, lb: Label, row: Row) {
    exists k :: k in lab && lab[k] == lb && k in memo && row.state == StateName(memo[k].state)
  }

  ghost predicate RosterTrue(memo: map<Key, PeerMemo>, lab: map<Key, Label>, latest: map<Label, Row>) {
    forall lb :: lb in latest ==> RowTrue(memo, lab, lb, latest[lb])
  }

  lemma RowsHavePeers(tail: seq<A.Event>, lab: map<Key, Label>, lines: seq<Line>, lb: Label) returns (k: Key)
    requires Labelled(tail, lab) && Injective(lab) && Told(lines) == LinesOf(tail) && lb in Latest(lines)
    ensures k in lab && lab[k] == lb
  {
    hide Latest, LinesOf, A.Replay, Told, Labelled;
    ToldIsEnough(lines);
    LinesFollow(tail, lab);
    k :| k in A.Replay(map[], tail) && k in lab && lab[k] == lb;
  }

  /** A departure in the tail leaves a row under a short key, which is nobody's label. */
  lemma GoneRowIsFalse(tail: seq<A.Event>, memo: map<Key, PeerMemo>, lab: map<Key, Label>, lines: seq<Line>, i: nat)
    requires Named(tail, lab) && OwnLabels(lab) && GoneBare(tail) && Told(lines) == LinesOf(tail)
    requires i < |tail| && tail[i].to == Gone
    ensures !RosterTrue(memo, lab, Latest(lines))
  {
    hide Told, Latest;
    var lb := ShortKey(tail[i].peer);
    assert Names(LinesOf(tail)[i], lb);
    NamedIsListed(LinesOf(tail), lb, i);
    ToldIsEnough(lines);
    assert !RowTrue(memo, lab, lb, Latest(lines)[lb]);
  }

  /** Read from any tail of the journal, the roster is right, row by row, if and only if no
      peer departed in that tail. */
  lemma RosterTrueIffNoneGone(cs: seq<Cycle>, s: Setup, logs: seq<seq<A.Event>>, lab: map<Key, Label>, past: nat, lines: seq<Line>)
    requires DistinctReads(cs) && IsLog(cs, s, logs)
    requires Named(Flat(logs), lab) && OwnLabels(lab)
    requires past <= |Flat(logs)| && Told(lines) == LinesOf(Flat(logs)[past..])
    ensures RosterTrue(RunLoop(cs, s).memo, lab, Latest(lines)) <==> NoneGone(Flat(logs)[past..])
  {
    hide RunLoop, IsLog, Latest, LinesOf, Told, Flat, Labelled, OwnLabels;
    var events, memo := Flat(logs), RunLoop(cs, s).memo;
    var tail := events[past..];
    if NoneGone(tail) {
      TailLabelled(events, past, lab);
      forall lb | lb in Latest(lines) ensures RowTrue(memo, lab, lb, Latest(lines)[lb]) {
        var k := RowsHavePeers(tail, lab, lines, lb);
        RosterShowsMemo(cs, s, logs, lab, past, lines, k);
      }
    } else {
      RunGoneBare(cs, s, logs);
      var i :| 0 <= i < |tail| && tail[i].to == Gone;
      assert GoneBare(tail) && Named(tail, lab) by { TailKeeps(events, past, lab); }
      GoneRowIsFalse(tail, memo, lab, lines, i);
    }
  }

  lemma TailKeeps(events: seq<A.Event>, past: nat, lab: map<Key, Label>)
    requires past <= |events| && GoneBare(events) && Named(events, lab)
    ensures GoneBare(events[past..]) && Named(events[past..], lab)
  {
    var tail := events[past..];
    assert forall i :: 0 <= i < |tail| ==> tail[i] == events[past + i];
  }
}
