/** The replay guard over whole runs: what a bounded, pruned memory still promises. */
module MessageReplay {
  import opened Wrappers
  import opened Messages

  // ---- runs ----

  /** `accepted` is every acceptance the node has not lost in a crash: a request answered was
      persisted first, so the acceptance behind it is never lost. */
  datatype World = World(mem: seq<Mark>, disk: seq<Mark>, accepted: seq<Mark>, kept: nat, clock: int)

  datatype Label =
    | Inbound(checked: int, marked: int, id: Option<Id>, ts: Option<int>)
    | Persist
    | Restart

  function Next(w: World, l: Label): World
    requires w.kept <= |w.accepted|
  {
    match l
    case Inbound(checked, marked, id, ts) =>
      if Admits(w.mem, checked, id, ts) then
        var m := Mark(id.value, ts.value);
        w.(mem := Remember(w.mem, m, marked), accepted := w.accepted + [m], clock := marked)
      else w.(clock := marked)
    case Persist => w.(disk := w.mem, kept := |w.accepted|)
    case Restart => w.(mem := Reload(w.disk), accepted := w.accepted[..w.kept])
  }

  function Run(start: int, ls: seq<Label>): (w: World)
    ensures w.kept <= |w.accepted|
  {
    if |ls| == 0 then World([], [], [], 0, start) else Next(Run(start, ls[..|ls| - 1]), ls[|ls| - 1])
  }

  /** The clock never runs backwards, restarts included. */
  ghost predicate ClockOk(start: int, ls: seq<Label>) {
    |ls| > 0 ==>
      var before, l := ls[..|ls| - 1], ls[|ls| - 1];
      ClockOk(start, before) && (l.Inbound? ==> Run(start, before).clock <= l.checked <= l.marked)
  }

  ghost predicate Calm(ls: seq<Label>) {
    Restart !in ls
  }

  // ---- what the memory knows about the acceptances ----

  function IdsOf(s: seq<Mark>): set<Id> {
    set j | 0 <= j < |s| :: s[j].id
  }

  /** The other ids accepted after position `i`. */
  function OtherIds(a: seq<Mark>, i: nat): set<Id>
    requires i < |a|
  {
    IdsOf(a[i + 1..]) - {a[i].id}
  }

  ghost predicate Crowded(a: seq<Mark>, i: nat)
    requires i < |a|
  {
    |OtherIds(a, i)| >= 4096
  }

  /** Marks whose place in the memory is their place in the order of acceptance. */
  predicate Placed(m: Mark, calm: bool) {
    calm || m.id.Name?
  }

  const HORIZON: int := MAX_MSG_AGE_MS + MAX_MSG_SKEW_MS

  ghost predicate Held(m: seq<Mark>, a: seq<Mark>, clock: int, calm: bool) {
    forall i :: 0 <= i < |a| && Placed(a[i], calm) && a[i].ts >= clock - HORIZON ==> a[i] in m || Crowded(a, i)
  }

  ghost predicate LaterAccepted(m: seq<Mark>, a: seq<Mark>, i: nat)
    requires i < |a|
  {
    forall p, q :: 0 <= p < q < |m| && m[p] == a[i] ==> m[q] in a[i + 1..]
  }

  ghost predicate InOrder(m: seq<Mark>, a: seq<Mark>, calm: bool) {
    forall i :: 0 <= i < |a| && Placed(a[i], calm) ==> LaterAccepted(m, a, i)
  }

  ghost predicate Tracks(m: seq<Mark>, a: seq<Mark>, clock: int, calm: bool) {
    DistinctIds(m) && |m| <= MAX_SEEN_IDS && Held(m, a, clock, calm) && InOrder(m, a, calm)
  }

  lemma TracksLater(m: seq<Mark>, a: seq<Mark>, clock: int, later: int, calm: bool)
    requires Tracks(m, a, clock, calm) && clock <= later
    ensures Tracks(m, a, later, calm)
  {
    hide DistinctIds, InOrder, Crowded;
  }

  // ---- sizes of sets of ids ----

  lemma {:induction false} SubsetSize(a: set<Id>, b: set<Id>)
    requires a <= b
    ensures |a| <= |b|
  {
    assert |b - a| == |b| - |a|;
  }

  lemma {:induction false} DistinctCount(s: seq<Mark>)
    requires DistinctIds(s)
    ensures |IdsOf(s)| == |s|
  {
    if |s| > 0 {
      var m := |s| - 1;
      DistinctCount(s[..m]);
      assert IdsOf(s) == IdsOf(s[..m]) + {s[m].id} by {
        forall id | id in IdsOf(s) ensures id in IdsOf(s[..m]) + {s[m].id} {
          var j :| 0 <= j < |s| && s[j].id == id;
          if j < m { assert s[..m][j].id == id; }
        }
        forall id | id in IdsOf(s[..m]) + {s[m].id} ensures id in IdsOf(s) {
          if id in IdsOf(s[..m]) { var j :| 0 <= j < m && s[..m][j].id == id; assert s[j].id == id; }
        }
      }
      assert s[m].id !in IdsOf(s[..m]);
    }
  }

  lemma OthersGrow(a: seq<Mark>, m: Mark, i: nat)
    requires i < |a|
    ensures OtherIds(a, i) <= OtherIds(a + [m], i)
    ensures Crowded(a, i) ==> Crowded(a + [m], i)
    ensures m.id != a[i].id ==> m.id in OtherIds(a + [m], i)
  {
    var b, tail := a + [m], a[i + 1..];
    var longer := tail + [m];
    assert b[i + 1..] == longer;
    assert longer[|tail|] == m;
    forall j | 0 <= j < |tail| ensures tail[j].id in IdsOf(longer) {
      assert longer[j] == tail[j];
    }
    SubsetSize(OtherIds(a, i), OtherIds(b, i));
  }

  /** A full memory that evicts a mark holds ids accepted after it only, and one more comes. */
  lemma EvictedIsCrowded(seen: seq<Mark>, a: seq<Mark>, m: Mark, i: nat)
    requires DistinctIds(seen) && |seen| == MAX_SEEN_IDS && !HasId(seen, m.id)
    requires i < |a| && seen[0] == a[i] && forall q :: 0 < q < |seen| ==> seen[q] in a[i + 1..]
    ensures Crowded(a + [m], i)
  {
    var rest := seen[1..] + [m];
    var b := a + [m];
    assert DistinctIds(rest) by {
      forall j, k | 0 <= j < k < |rest| ensures rest[j].id != rest[k].id {
        if k < |seen| - 1 { assert seen[j + 1].id != seen[k + 1].id; }
      }
    }
    DistinctCount(rest);
    assert b[i + 1..] == a[i + 1..] + [m];
    forall id | id in IdsOf(rest) ensures id in OtherIds(b, i) {
      var q :| 0 <= q < |rest| && rest[q].id == id;
      if q < |seen| - 1 {
        assert seen[q + 1] in a[i + 1..];
        var j :| 0 <= j < |a[i + 1..]| && a[i + 1..][j] == seen[q + 1];
        assert b[i + 1..][j].id == id && seen[0].id != seen[q + 1].id;
      } else {
        OthersGrow(a, m, i);
      }
    }
    SubsetSize(IdsOf(rest), OtherIds(b, i));
  }

  // ---- pruning by age ----

  lemma {:induction false} PruneMembers(seen: seq<Mark>, cutoff: int)
    ensures forall x :: x in Prune(seen, cutoff) <==> x in seen && x.ts >= cutoff
  {
    if |seen| > 0 {
      PruneMembers(seen[..|seen| - 1], cutoff);
      assert seen == seen[..|seen| - 1] + [seen[|seen| - 1]];
    }
  }

  lemma {:induction false} PruneOrder(seen: seq<Mark>, cutoff: int, p: nat, q: nat) returns (p': nat, q': nat)
    requires p < q < |Prune(seen, cutoff)|
    ensures p' < q' < |seen| && seen[p'] == Prune(seen, cutoff)[p] && seen[q'] == Prune(seen, cutoff)[q]
  {
    var m := |seen| - 1;
    var before := Prune(seen[..m], cutoff);
    if q < |before| {
      p', q' := PruneOrder(seen[..m], cutoff, p, q);
    } else {
      PruneMembers(seen[..m], cutoff);
      assert before[p] in seen[..m];
      var r :| 0 <= r < m && seen[..m][r] == before[p];
      p', q' := r, m;
    }
  }

  lemma TracksPruned(m: seq<Mark>, a: seq<Mark>, clock: int, now: int, calm: bool)
    requires Tracks(m, a, clock, calm) && clock <= now
    ensures Tracks(Prune(m, now - HORIZON), a, now, calm)
  {
    hide Prune, Crowded;
    var r := Prune(m, now - HORIZON);
    PruneMembers(m, now - HORIZON);
    forall p, q | 0 <= p < q < |r| ensures r[p].id != r[q].id {
      var p', q' := PruneOrder(m, now - HORIZON, p, q);
    }
    forall i | 0 <= i < |a| && Placed(a[i], calm) ensures LaterAccepted(r, a, i) {
      forall p, q | 0 <= p < q < |r| && r[p] == a[i] ensures r[q] in a[i + 1..] {
        var p', q' := PruneOrder(m, now - HORIZON, p, q);
        assert LaterAccepted(m, a, i);
      }
    }
  }

  // ---- making room and remembering ----

  lemma RoomIsOne(seen: seq<Mark>)
    requires |seen| <= MAX_SEEN_IDS
    ensures MakeRoom(seen) == if |seen| == MAX_SEEN_IDS then seen[1..] else seen
  {}

  lemma HeldStays(seen: seq<Mark>, a: seq<Mark>, m: Mark, i: nat)
    requires DistinctIds(seen) && |seen| <= MAX_SEEN_IDS && !HasId(seen, m.id)
    requires i < |a| && LaterAccepted(seen, a, i) && (a[i] in seen || Crowded(a, i))
    ensures a[i] in MakeRoom(seen) + [m] || Crowded(a + [m], i)
  {
    hide Crowded, DistinctIds, HasId, MakeRoom;
    RoomIsOne(seen);
    OthersGrow(a, m, i);
    if a[i] in seen {
      var p :| 0 <= p < |seen| && seen[p] == a[i];
      if |seen| == MAX_SEEN_IDS {
        if p == 0 {
          EvictedIsCrowded(seen, a, m, i);
        } else {
          assert seen[1..][p - 1] == a[i];
        }
      }
    }
  }

  lemma HeldRemembered(seen: seq<Mark>, a: seq<Mark>, m: Mark, clock: int, calm: bool)
    requires Tracks(seen, a, clock, calm) && !HasId(seen, m.id)
    ensures Held(MakeRoom(seen) + [m], a + [m], clock, calm)
  {
    hide Crowded, DistinctIds, MakeRoom, LaterAccepted, HasId;
    var r, b := MakeRoom(seen) + [m], a + [m];
    forall i | 0 <= i < |b| && Placed(b[i], calm) && b[i].ts >= clock - HORIZON ensures b[i] in r || Crowded(b, i) {
      if i == |a| {
        assert r[|r| - 1] == m;
      } else {
        assert b[i] == a[i];
        HeldStays(seen, a, m, i);
      }
    }
  }

  lemma MemberHasId(seen: seq<Mark>, m: Mark)
    ensures m in seen ==> HasId(seen, m.id)
  {}

  lemma LaterStays(seen: seq<Mark>, a: seq<Mark>, m: Mark, i: nat)
    requires |seen| <= MAX_SEEN_IDS && !HasId(seen, m.id) && i < |a| && LaterAccepted(seen, a, i)
    ensures LaterAccepted(MakeRoom(seen) + [m], a + [m], i)
  {
    hide MakeRoom, HasId;
    RoomIsOne(seen);
    var r, b, d := MakeRoom(seen) + [m], a + [m], if |seen| == MAX_SEEN_IDS then 1 else 0;
    assert b[i + 1..] == a[i + 1..] + [m] && b[i] == a[i];
    forall p, q | 0 <= p < q < |r| && r[p] == b[i] ensures r[q] in b[i + 1..] {
      assert r[p] == seen[p + d];
      if q < |r| - 1 { assert r[q] == seen[q + d]; }
    }
  }

  lemma LaterThanNew(seen: seq<Mark>, a: seq<Mark>, m: Mark)
    requires |seen| <= MAX_SEEN_IDS && !HasId(seen, m.id)
    ensures LaterAccepted(MakeRoom(seen) + [m], a + [m], |a|)
  {
    hide MakeRoom, HasId;
    RoomIsOne(seen);
    MemberHasId(seen, m);
    var r, d := MakeRoom(seen) + [m], if |seen| == MAX_SEEN_IDS then 1 else 0;
    forall p | 0 <= p < |r| - 1 ensures r[p] != m {
      assert r[p] == seen[p + d];
    }
  }

  lemma OrderRemembered(seen: seq<Mark>, a: seq<Mark>, m: Mark, calm: bool)
    requires InOrder(seen, a, calm) && |seen| <= MAX_SEEN_IDS && !HasId(seen, m.id)
    ensures InOrder(MakeRoom(seen) + [m], a + [m], calm)
  {
    hide LaterAccepted, MakeRoom, HasId;
    var b := a + [m];
    forall i | 0 <= i < |b| && Placed(b[i], calm) ensures LaterAccepted(MakeRoom(seen) + [m], b, i) {
      if i == |a| {
        LaterThanNew(seen, a, m);
      } else {
        assert b[i] == a[i];
        LaterStays(seen, a, m, i);
      }
    }
  }

  lemma TracksRemembered(seen: seq<Mark>, a: seq<Mark>, m: Mark, clock: int, now: int, calm: bool)
    requires Tracks(seen, a, clock, calm) && clock <= now && !HasId(seen, m.id)
    ensures Tracks(Remember(seen, m, now), a + [m], now, calm)
  {
    hide Prune, Held, InOrder;
    var r := Prune(seen, now - HORIZON);
    TracksPruned(seen, a, clock, now, calm);
    PruneMembers(seen, now - HORIZON);
    forall j | 0 <= j < |r| ensures r[j].id != m.id {
      assert r[j] in seen;
    }
    HeldRemembered(r, a, m, now, calm);
    OrderRemembered(r, a, m, calm);
  }

  // ---- writing out and reading back ----

  lemma {:induction false} NameMembers(seen: seq<Mark>)
    ensures forall x :: x in NameMarks(seen) <==> x in seen && x.id.Name?
  {
    if |seen| > 0 {
      NameMembers(seen[..|seen| - 1]);
      assert seen == seen[..|seen| - 1] + [seen[|seen| - 1]];
    }
  }

  lemma {:induction false} NameOrder(seen: seq<Mark>, p: nat, q: nat) returns (p': nat, q': nat)
    requires p < q < |NameMarks(seen)|
    ensures p' < q' < |seen| && seen[p'] == NameMarks(seen)[p] && seen[q'] == NameMarks(seen)[q]
  {
    var m := |seen| - 1;
    var before := NameMarks(seen[..m]);
    if q < |before| {
      p', q' := NameOrder(seen[..m], p, q);
    } else {
      NameMembers(seen[..m]);
      assert before[p] in seen[..m];
      var r :| 0 <= r < m && seen[..m][r] == before[p];
      p', q' := r, m;
    }
  }

  lemma {:induction false} InsertMembers(m: Mark, ms: seq<Mark>)
    ensures |InsertIndex(m, ms)| == |ms| + 1 && forall x :: x in InsertIndex(m, ms) <==> x == m || x in ms
  {
    if |ms| > 0 && Lower(ms[0], m) {
      InsertMembers(m, ms[1..]);
      assert ms == [ms[0]] + ms[1..];
    }
  }

  lemma {:induction false} InsertDistinct(m: Mark, ms: seq<Mark>)
    requires DistinctIds(ms) && !HasId(ms, m.id)
    ensures DistinctIds(InsertIndex(m, ms))
  {
    if |ms| > 0 && Lower(ms[0], m) {
      var rest := InsertIndex(m, ms[1..]);
      InsertDistinct(m, ms[1..]);
      InsertMembers(m, ms[1..]);
      forall j | 0 <= j < |rest| ensures rest[j].id != ms[0].id {
        assert rest[j] == m || rest[j] in ms[1..];
      }
    }
  }

  lemma {:induction false} IndexMembers(seen: seq<Mark>)
    ensures forall x :: x in IndexMarks(seen) <==> x in seen && x.id.Index?
    ensures |IndexMarks(seen)| + |NameMarks(seen)| == |seen|
  {
    if |seen| > 0 {
      var before, last := seen[..|seen| - 1], seen[|seen| - 1];
      IndexMembers(before);
      InsertMembers(last, IndexMarks(before));
      assert seen == before + [last];
    }
  }

  lemma {:induction false} IndexDistinct(seen: seq<Mark>)
    requires DistinctIds(seen)
    ensures DistinctIds(IndexMarks(seen))
  {
    if |seen| > 0 {
      var before, last := seen[..|seen| - 1], seen[|seen| - 1];
      IndexDistinct(before);
      IndexMembers(before);
      var ms := IndexMarks(before);
      forall j | 0 <= j < |ms| ensures ms[j].id != last.id {
        assert ms[j] in before;
      }
      if last.id.Index? { InsertDistinct(last, ms); }
    }
  }

  lemma ReloadMembers(seen: seq<Mark>)
    ensures |Reload(seen)| == |seen| && forall x :: x in Reload(seen) <==> x in seen
  {
    IndexMembers(seen);
    NameMembers(seen);
  }

  lemma ReloadDistinct(seen: seq<Mark>)
    requires DistinctIds(seen)
    ensures DistinctIds(Reload(seen))
  {
    hide IndexMarks, NameMarks;
    var k := |IndexMarks(seen)|;
    IndexMembers(seen);
    NameMembers(seen);
    IndexDistinct(seen);
    var r := Reload(seen);
    forall p, q | 0 <= p < q < |r| ensures r[p].id != r[q].id {
      if p < k <= q {
        assert r[p] in IndexMarks(seen) && r[q] in NameMarks(seen);
      } else if k <= p {
        var p', q' := NameOrder(seen, p - k, q - k);
      }
    }
  }

  lemma IndicesComeFirst(seen: seq<Mark>)
    ensures |IndexMarks(seen)| <= |Reload(seen)|
    ensures forall p :: 0 <= p < |IndexMarks(seen)| ==> Reload(seen)[p].id.Index?
  {
    hide IndexMarks, NameMarks;
    IndexMembers(seen);
    forall p | 0 <= p < |IndexMarks(seen)| ensures Reload(seen)[p].id.Index? {
      assert IndexMarks(seen)[p] in IndexMarks(seen);
    }
  }

  /** Reading back keeps what is known of every mark whose id is a name. */
  lemma TracksReloaded(m: seq<Mark>, a: seq<Mark>, clock: int)
    requires Tracks(m, a, clock, false)
    ensures Tracks(Reload(m), a, clock, false)
  {
    hide IndexMarks, NameMarks, Crowded;
    var k, r := |IndexMarks(m)|, Reload(m);
    ReloadMembers(m);
    ReloadDistinct(m);
    IndicesComeFirst(m);
    forall i | 0 <= i < |a| && Placed(a[i], false) ensures LaterAccepted(r, a, i) {
      forall p, q | 0 <= p < q < |r| && r[p] == a[i] ensures r[q] in a[i + 1..] {
        var p', q' := NameOrder(m, p - k, q - k);
        assert LaterAccepted(m, a, i);
      }
    }
  }

  // ---- every run ----

  ghost predicate Inv(w: World, calm: bool) {
    && w.kept <= |w.accepted|
    && Tracks(w.mem, w.accepted, w.clock, calm)
    && Tracks(w.disk, w.accepted[..w.kept], w.clock, calm)
  }

  /** Between two acceptances of one message lie enough of others. */
  ghost predicate Apart(a: seq<Mark>, calm: bool) {
    forall i, j :: 0 <= i < j < |a| && a[i] == a[j] && Placed(a[i], calm) ==> Crowded(a[..j], i)
  }

  lemma AdmittedIsCrowded(w: World, l: Label, i: nat, calm: bool)
    requires Tracks(w.mem, w.accepted, w.clock, calm)
    requires l.Inbound? && w.clock <= l.checked && Admits(w.mem, l.checked, l.id, l.ts)
    requires i < |w.accepted| && w.accepted[i] == Mark(l.id.value, l.ts.value) && Placed(w.accepted[i], calm)
    ensures Crowded(w.accepted, i)
  {
    hide Crowded, InOrder;
    MemberHasId(w.mem, w.accepted[i]);
  }

  lemma InvStep(w: World, l: Label, calm: bool)
    requires Inv(w, calm) && (l.Inbound? ==> w.clock <= l.checked <= l.marked) && (calm ==> l != Restart)
    ensures Inv(Next(w, l), calm)
  {
    hide Tracks, Remember, Admits, Reload;
    var w' := Next(w, l);
    match l {
      case Inbound(checked, marked, id, ts) =>
        TracksLater(w.disk, w.accepted[..w.kept], w.clock, marked, calm);
        assert w'.accepted[..w.kept] == w.accepted[..w.kept];
        if Admits(w.mem, checked, id, ts) {
          AdmittedIsNew(w.mem, l);
          TracksRemembered(w.mem, w.accepted, Mark(id.value, ts.value), w.clock, marked, calm);
        } else {
          TracksLater(w.mem, w.accepted, w.clock, marked, calm);
        }
      case Persist =>
        assert w'.accepted[..w'.kept] == w'.accepted;
      case Restart =>
        assert w'.accepted[..w'.kept] == w'.accepted;
        TracksReloaded(w.disk, w.accepted[..w.kept], w.clock);
    }
  }

  lemma AdmittedIsNew(seen: seq<Mark>, l: Label)
    requires l.Inbound? && Admits(seen, l.checked, l.id, l.ts)
    ensures l.id.Some? && l.ts.Some? && !HasId(seen, l.id.value)
  {}

  lemma StartTracks(clock: int, calm: bool)
    ensures Tracks([], [], clock, calm)
  {}

  lemma {:induction false} RunInv(start: int, ls: seq<Label>, calm: bool)
    requires ClockOk(start, ls) && (calm ==> Calm(ls))
    ensures Inv(Run(start, ls), calm)
  {
    hide Next, Tracks;
    if |ls| == 0 {
      StartTracks(start, calm);
    } else {
      RunInv(start, ls[..|ls| - 1], calm);
      InvStep(Run(start, ls[..|ls| - 1]), ls[|ls| - 1], calm);
    }
  }

  lemma ApartExtend(a: seq<Mark>, m: Mark, calm: bool)
    requires Apart(a, calm)
    requires forall i :: 0 <= i < |a| && a[i] == m && Placed(m, calm) ==> Crowded(a, i)
    ensures Apart(a + [m], calm)
  {
    hide Crowded;
    var b := a + [m];
    forall i, j | 0 <= i < j < |b| && b[i] == b[j] && Placed(b[i], calm) ensures Crowded(b[..j], i) {
      assert b[i] == a[i];
      if j < |a| {
        assert b[..j] == a[..j];
      } else {
        assert b[..j] == a;
      }
    }
  }

  lemma ApartPrefix(a: seq<Mark>, k: nat, calm: bool)
    requires Apart(a, calm) && k <= |a|
    ensures Apart(a[..k], calm)
  {
    hide Crowded;
    var b := a[..k];
    forall i, j | 0 <= i < j < |b| && b[i] == b[j] && Placed(b[i], calm) ensures Crowded(b[..j], i) {
      assert b[..j] == a[..j] && a[i] == a[j];
    }
  }

  /** In every run with an ordered clock, a message is accepted again only after as many
      other ids as the memory holds were accepted in between: over restarts for ids that are
      names, without restarts for every id. */
  lemma {:induction false} ReadmissionNeedsCrowd(start: int, ls: seq<Label>, calm: bool)
    requires ClockOk(start, ls) && (calm ==> Calm(ls))
    ensures Apart(Run(start, ls).accepted, calm)
  {
    hide Apart, Crowded, Inv, Tracks, Remember, Reload, Admits;
    if |ls| == 0 {
      ApartNil(calm);
    } else {
      var before, l := ls[..|ls| - 1], ls[|ls| - 1];
      var w := Run(start, before);
      ReadmissionNeedsCrowd(start, before, calm);
      RunInv(start, before, calm);
      if l.Inbound? && Admits(w.mem, l.checked, l.id, l.ts) {
        InvTracks(w, calm);
        AdmittedIsNew(w.mem, l);
        var m := Mark(l.id.value, l.ts.value);
        forall i | 0 <= i < |w.accepted| && w.accepted[i] == m && Placed(m, calm) ensures Crowded(w.accepted, i) {
          AdmittedIsCrowded(w, l, i, calm);
        }
        ApartExtend(w.accepted, m, calm);
      } else if l.Restart? {
        ApartPrefix(w.accepted, w.kept, calm);
      }
    }
  }

  lemma ApartNil(calm: bool)
    ensures Apart([], calm)
  {}

  lemma InvTracks(w: World, calm: bool)
    requires Inv(w, calm)
    ensures w.kept <= |w.accepted| && Tracks(w.mem, w.accepted, w.clock, calm)
  {}

  // ---- what is let in, and what is kept ----

  /** Nothing is remembered that was not accepted. */
  ghost predicate OnlyAccepted(w: World) {
    && w.kept <= |w.accepted|
    && IdsOf(w.mem) <= IdsOf(w.accepted) && IdsOf(w.disk) <= IdsOf(w.accepted[..w.kept])
  }

  lemma RememberedIds(seen: seq<Mark>, m: Mark, now: int)
    ensures IdsOf(Remember(seen, m, now)) <= IdsOf(seen) + {m.id}
  {
    hide Prune;
    var pruned, r := Prune(seen, now - HORIZON), Remember(seen, m, now);
    PruneMembers(seen, now - HORIZON);
    forall j | 0 <= j < |r| - 1 ensures r[j].id in IdsOf(seen) {
      assert r[j] in pruned;
      var k :| 0 <= k < |seen| && seen[k] == r[j];
    }
  }

  lemma ReloadedIds(seen: seq<Mark>)
    ensures IdsOf(Reload(seen)) <= IdsOf(seen)
  {
    hide Reload;
    var r := Reload(seen);
    ReloadMembers(seen);
    forall j | 0 <= j < |r| ensures r[j].id in IdsOf(seen) {
      assert r[j] in seen;
      var k :| 0 <= k < |seen| && seen[k] == r[j];
    }
  }

  lemma IdsPush(a: seq<Mark>, m: Mark)
    ensures IdsOf(a + [m]) == IdsOf(a) + {m.id}
  {
    var b := a + [m];
    forall j | 0 <= j < |a| ensures a[j].id in IdsOf(b) {
      assert b[j] == a[j];
    }
    assert b[|a|] == m;
  }

  lemma {:induction false} RunOnlyAccepted(start: int, ls: seq<Label>)
    ensures OnlyAccepted(Run(start, ls))
  {
    hide Remember, Reload, Admits, IdsOf;
    if |ls| == 0 {
      NothingRemembered();
    } else {
      var before, l := ls[..|ls| - 1], ls[|ls| - 1];
      var w := Run(start, before);
      RunOnlyAccepted(start, before);
      match l
      case Inbound(checked, marked, id, ts) =>
        if Admits(w.mem, checked, id, ts) {
          AdmittedIsNew(w.mem, l);
          var m := Mark(id.value, ts.value);
          RememberedIds(w.mem, m, marked);
          IdsPush(w.accepted, m);
          assert (w.accepted + [m])[..w.kept] == w.accepted[..w.kept];
        }
      case Persist => assert w.accepted[..|w.accepted|] == w.accepted;
      case Restart =>
        ReloadedIds(w.disk);
        assert w.accepted[..w.kept][..w.kept] == w.accepted[..w.kept];
    }
  }

  lemma NothingRemembered()
    ensures IdsOf([]) == {}
  {}

  lemma UnknownId(seen: seq<Mark>, id: Id)
    requires id !in IdsOf(seen)
    ensures !HasId(seen, id)
  {}

  /** In every run, a message under an id not accepted before is accepted if and only if its
      time is at most fifteen minutes behind the clock and at most five ahead of it. */
  lemma NewIdAcceptedIffFresh(start: int, ls: seq<Label>, checked: int, marked: int, id: Id, ts: int)
    requires id !in IdsOf(Run(start, ls).accepted)
    ensures Run(start, ls + [Inbound(checked, marked, Some(id), Some(ts))]).accepted ==
            Run(start, ls).accepted + if checked - 900_000 <= ts <= checked + 300_000 then [Mark(id, ts)] else []
  {
    hide Remember, Reload, HasId, IdsOf;
    RunOnlyAccepted(start, ls);
    var l := Inbound(checked, marked, Some(id), Some(ts));
    assert (ls + [l])[..|ls|] == ls;
    UnknownId(Run(start, ls).mem, id);
  }

  /** The memory stays within its cap, and right after an acceptance it holds the accepted mark
      and nothing older than twenty minutes. */
  lemma MemoryIsBounded(start: int, ls: seq<Label>, l: Label, m: Mark)
    requires ClockOk(start, ls + [l])
    requires l.Inbound? && Run(start, ls + [l]).accepted == Run(start, ls).accepted + [m]
    ensures var mem := Run(start, ls + [l]).mem;
            && 0 < |mem| <= 4096 && mem[|mem| - 1] == m
            && forall i :: 0 <= i < |mem| ==> mem[i].ts >= l.marked - 1_200_000 || mem[i] == m
  {
    hide Prune, HasId, Tracks, Reload;
    assert (ls + [l])[..|ls|] == ls;
    var w := Run(start, ls);
    RunInv(start, ls, false);
    RunTracks(w);
    var pruned, mem := Prune(w.mem, l.marked - HORIZON), Run(start, ls + [l]).mem;
    PruneMembers(w.mem, l.marked - HORIZON);
    assert w.accepted + [m] != w.accepted;
    assert mem == MakeRoom(pruned) + [Mark(l.id.value, l.ts.value)];
    assert (w.accepted + [m])[|w.accepted|] == m;
    forall i | 0 <= i < |mem| - 1 ensures mem[i].ts >= l.marked - 1_200_000 {
      assert mem[i] in pruned;
    }
  }

  lemma RunTracks(w: World)
    requires Inv(w, false)
    ensures |w.mem| <= MAX_SEEN_IDS
  {}
}
