/** The island's reader of the daemon's log (island/src/core/sysinfo.ts, readDaemon): the last
    line that names a peer wins. */
module DaemonFeed {
  import opened Heal
  import A = Alert
  import C = Canonical

  /** One journal line; a field the JSON lacks is empty. A line that does not parse is Junk. */
  datatype Line = Line(msg: string, peer: Label, to: string, status: string, endpoint: string) | Junk

  datatype Row = Row(state: string, endpoint: string)

  function StateIn(l: Line): string
    requires l.Line?
  {
    if l.msg == "state change" then l.to else if l.msg == "peer" then l.status else ""
  }

  /** Whether the reader keeps anything from this line. */
  predicate Tells(l: Line) {
    l.Line? && |l.peer| != 0 && StateIn(l) != ""
  }

  function RowOf(l: Line): Row
    requires l.Line?
  {
    Row(StateIn(l), l.endpoint)
  }

  function Latest(lines: seq<Line>): map<Label, Row> {
    if |lines| == 0 then map[]
    else
      var before, l := Latest(lines[..|lines| - 1]), lines[|lines| - 1];
      if Tells(l) then before[l.peer := RowOf(l)] else before
  }

  method ReadDaemon(lines: seq<Line>) returns (latest: map<Label, Row>)
    ensures latest == Latest(lines)
  {
    latest := map[];
    for i := 0 to |lines|
      invariant latest == Latest(lines[..i])
    {
      assert lines[..i + 1][..i] == lines[..i];
      var l := lines[i];
      if l.Junk? { continue; }
      if |l.peer| == 0 { continue; }
      var state := if l.msg == "state change" then l.to else if l.msg == "peer" then l.status else "";
      if state == "" { continue; }
      latest := latest[l.peer := Row(state, l.endpoint)];
    }
    assert lines[..|lines|] == lines;
  }

  predicate Names(l: Line, peer: Label) {
    Tells(l) && l.peer == peer
  }

  /** `i` is the last line that says anything about `peer`. */
  ghost predicate LastWord(lines: seq<Line>, peer: Label, i: int) {
    0 <= i < |lines| && Names(lines[i], peer) && forall j :: i < j < |lines| ==> !Names(lines[j], peer)
  }

  lemma {:induction false} LastWordListed(lines: seq<Line>, peer: Label, i: int)
    requires LastWord(lines, peer, i)
    ensures peer in Latest(lines) && Latest(lines)[peer] == RowOf(lines[i])
  {
    var m := |lines| - 1;
    if i < m {
      assert !Names(lines[m], peer);
      LastWordListed(lines[..m], peer, i);
    }
  }

  lemma {:induction false} ListedHasWord(lines: seq<Line>, peer: Label) returns (i: int)
    requires peer in Latest(lines)
    ensures LastWord(lines, peer, i)
  {
    var m := |lines| - 1;
    if Names(lines[m], peer) {
      i := m;
    } else {
      i := ListedHasWord(lines[..m], peer);
    }
  }

  lemma {:induction false} NamedIsListed(lines: seq<Line>, peer: Label, i: int)
    requires 0 <= i < |lines| && Names(lines[i], peer)
    ensures peer in Latest(lines)
  {
    if i < |lines| - 1 { NamedIsListed(lines[..|lines| - 1], peer, i); }
  }

  lemma LatestIsLastWord(lines: seq<Line>, peer: Label)
    ensures peer in Latest(lines) <==> exists i :: LastWord(lines, peer, i)
    ensures forall i :: LastWord(lines, peer, i) ==> peer in Latest(lines) && Latest(lines)[peer] == RowOf(lines[i])
  {
    forall i | LastWord(lines, peer, i) ensures peer in Latest(lines) && Latest(lines)[peer] == RowOf(lines[i]) {
      LastWordListed(lines, peer, i);
    }
    if peer in Latest(lines) { var i := ListedHasWord(lines, peer); }
  }

  /** A line of the daemon that gives `peer` this state and endpoint: a transition by its `to`,
      a snapshot by its `status`, and only with a peer and a state that are not empty. */
  predicate Says(l: Line, peer: Label, row: Row) {
    && l.Line? && l.peer == peer && |peer| > 0 && |row.state| > 0 && l.endpoint == row.endpoint
    && ((l.msg == "state change" && l.to == row.state) || (l.msg == "peer" && l.status == row.state))
  }

  lemma SaysIsRow(l: Line, peer: Label, row: Row)
    ensures Says(l, peer, row) <==> Names(l, peer) && l.Line? && row == RowOf(l)
    ensures Names(l, peer) ==> l.Line?
  {
    assert "state change" != "peer" by { assert |"state change"| != |"peer"|; }
  }

  /** The last line that says anything of `peer` says this. */
  ghost predicate LastSaid(lines: seq<Line>, peer: Label, row: Row, i: int) {
    && 0 <= i < |lines| && Says(lines[i], peer, row)
    && forall j, other :: i < j < |lines| ==> !Says(lines[j], peer, other)
  }

  lemma LastSaidIsWord(lines: seq<Line>, peer: Label, row: Row, i: int)
    ensures LastSaid(lines, peer, row, i) <==> LastWord(lines, peer, i) && RowOf(lines[i]) == row
  {
    hide Says, Names, RowOf;
    if 0 <= i < |lines| {
      SaysIsRow(lines[i], peer, row);
      forall j | i < j < |lines| ensures (lines[j].Line? && Says(lines[j], peer, RowOf(lines[j]))) || !Names(lines[j], peer) {
        if lines[j].Line? { SaysIsRow(lines[j], peer, RowOf(lines[j])); } else { SaysIsRow(lines[j], peer, row); }
      }
      forall j, other | i < j < |lines| ensures Says(lines[j], peer, other) ==> Names(lines[j], peer) {
        SaysIsRow(lines[j], peer, other);
      }
    }
  }

  /** A peer is listed with a row exactly when the last line that says anything of it says so. */
  lemma LastWordWins(lines: seq<Line>, peer: Label, row: Row)
    ensures peer in Latest(lines) && Latest(lines)[peer] == row <==> exists i :: LastSaid(lines, peer, row, i)
  {
    hide Latest, RowOf, LastWord, LastSaid;
    if exists i :: LastSaid(lines, peer, row, i) {
      var i :| LastSaid(lines, peer, row, i);
      LastSaidIsWord(lines, peer, row, i);
      LastWordListed(lines, peer, i);
    }
    if peer in Latest(lines) && Latest(lines)[peer] == row {
      var i := ListedHasWord(lines, peer);
      LastWordListed(lines, peer, i);
      LastSaidIsWord(lines, peer, row, i);
    }
  }

  // ---- the daemon's lines ----

  /** The lines the reader keeps something from. */
  function Told(lines: seq<Line>): seq<Line> {
    if |lines| == 0 then []
    else
      var before, l := Told(lines[..|lines| - 1]), lines[|lines| - 1];
      if Tells(l) then before + [l] else before
  }

  /** Whatever else the journal holds does not change the roster. */
  lemma {:induction false} ToldIsEnough(lines: seq<Line>)
    ensures Latest(Told(lines)) == Latest(lines)
  {
    if |lines| > 0 {
      var before, l := Told(lines[..|lines| - 1]), lines[|lines| - 1];
      ToldIsEnough(lines[..|lines| - 1]);
      assert Told(lines) == if Tells(l) then before + [l] else before;
      hide Told, Tells, RowOf;
      assert (before + [l])[..|before|] == before;
    }
  }

  function ShortKey(k: Key): Label {
    if |k| > 8 then k[..8] + [0x2026] else k
  }

  function PeerLabel(name: Label, tunnelIp: Label, k: Key): Label {
    if |name| > 0 then name else if |tunnelIp| > 0 then tunnelIp else ShortKey(k)
  }

  function StateName(st: State): string {
    match st
    case Fine => "ok"
    case Stale => "stale"
    case Degraded => "degraded"
    case Restored => "restored"
    case Gone => "gone"
  }

  function LineOf(e: A.Event): Line {
    Line("state change", PeerLabel(e.name, e.tunnelIp, e.peer), StateName(e.to), "", e.endpoint)
  }

  function LinesOf(es: seq<A.Event>): (r: seq<Line>)
    ensures |r| == |es| && forall i :: 0 <= i < |r| ==> r[i] == LineOf(es[i])
  {
    seq(|es|, i requires 0 <= i < |es| => LineOf(es[i]))
  }

  // ---- agreement with the memo ----

  ghost predicate Injective(lab: map<Key, Label>) {
    forall j, k :: j in lab && k in lab && lab[j] == lab[k] ==> j == k
  }

  /** Labels are told apart from each other and from every short key. */
  ghost predicate OwnLabels(lab: map<Key, Label>) {
    Injective(lab) && forall j, k :: j in lab && k in lab ==> |lab[j]| > 0 && |k| > 0 && lab[j] != ShortKey(k)
  }

  /** Every event that is no departure names its peer by that peer's one label. */
  ghost predicate Named(es: seq<A.Event>, lab: map<Key, Label>) {
    forall i :: 0 <= i < |es| ==>
      es[i].peer in lab && (es[i].to != Gone ==> PeerLabel(es[i].name, es[i].tunnelIp, es[i].peer) == lab[es[i].peer])
  }

  ghost predicate NoneGone(es: seq<A.Event>) {
    forall i :: 0 <= i < |es| ==> es[i].to != Gone
  }

  /** Every event names its peer by that peer's one label, and none is a departure. */
  ghost predicate Labelled(es: seq<A.Event>, lab: map<Key, Label>) {
    forall i :: 0 <= i < |es| ==>
      && es[i].peer in lab && |lab[es[i].peer]| > 0 && es[i].to != Gone
      && PeerLabel(es[i].name, es[i].tunnelIp, es[i].peer) == lab[es[i].peer]
  }

  /** The roster is the fold of the same events, seen through the labels. */
  ghost predicate Shows(latest: map<Label, Row>, view: map<Key, State>, lab: map<Key, Label>) {
    (forall k :: k in view ==> k in lab && lab[k] in latest && latest[lab[k]].state == StateName(view[k]))
    && (forall lb :: lb in latest ==> exists k :: k in view && k in lab && lab[k] == lb)
  }

  lemma ShowsExtend(latest: map<Label, Row>, view: map<Key, State>, lab: map<Key, Label>, k: Key, st: State, row: Row)
    requires Shows(latest, view, lab) && Injective(lab) && k in lab && row.state == StateName(st)
    ensures Shows(latest[lab[k] := row], view[k := st], lab)
  {
    var latest', view' := latest[lab[k] := row], view[k := st];
    forall lb | lb in latest' ensures exists j :: j in view' && j in lab && lab[j] == lb {
      if lb in latest {
        var j :| j in view && j in lab && lab[j] == lb;
        assert j in view';
      } else {
        assert k in view';
      }
    }
  }

  lemma {:induction false} LinesFollow(es: seq<A.Event>, lab: map<Key, Label>)
    requires Labelled(es, lab) && Injective(lab)
    ensures Shows(Latest(LinesOf(es)), A.Replay(map[], es), lab)
  {
    hide Shows, Injective;
    if |es| == 0 {
      ShowsNothing(lab);
    } else {
      var m, e := |es| - 1, es[|es| - 1];
      LinesFollow(es[..m], lab);
      assert LinesOf(es)[..m] == LinesOf(es[..m]);
      ShowsExtend(Latest(LinesOf(es[..m])), A.Replay(map[], es[..m]), lab, e.peer, e.to, RowOf(LineOf(e)));
    }
  }

  lemma ShowsNothing(lab: map<Key, Label>)
    ensures Shows(Latest(LinesOf([])), A.Replay(map[], []), lab)
  {}

  /** Without departures, replaying onto any view ends where replaying onto none does. */
  lemma {:induction false} ReplayOnto(view: map<Key, State>, es: seq<A.Event>, k: Key)
    requires (forall i :: 0 <= i < |es| ==> es[i].to != Gone) && k in A.Replay(map[], es)
    ensures k in A.Replay(view, es) && A.Replay(view, es)[k] == A.Replay(map[], es)[k]
  {
    if |es| > 0 {
      var m := |es| - 1;
      if es[m].peer != k { ReplayOnto(view, es[..m], k); }
    }
  }
}
