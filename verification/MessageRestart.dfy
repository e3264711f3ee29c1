/** Ids that read as array indices lose their place over a restart: the bound fails for them. */
module MessageRestart {
  import opened Wrappers
  import opened Messages
  import opened MessageReplay

  const FULL: nat := MAX_SEEN_IDS - 1

  function NameOf(i: nat): Id {
    Name(seq(i + 1, _ => 'a'))
  }

  function Marks(k: nat): (r: seq<Mark>)
    ensures |r| == k && forall i :: 0 <= i < k ==> r[i] == Mark(NameOf(i), 0)
  {
    seq(k, i requires 0 <= i < k => Mark(NameOf(i), 0))
  }

  function Arrive(id: Id): Label {
    Inbound(0, 0, Some(id), Some(0))
  }

  function Fill(k: nat): seq<Label> {
    if k == 0 then [] else Fill(k - 1) + [Arrive(NameOf(k - 1))]
  }

  lemma NamesDiffer(i: nat, j: nat)
    ensures NameOf(i) == NameOf(j) <==> i == j
  {
    if i != j { assert |NameOf(i).text| != |NameOf(j).text|; }
  }

  lemma {:induction false} PruneNone(seen: seq<Mark>, cutoff: int)
    requires forall i :: 0 <= i < |seen| ==> seen[i].ts >= cutoff
    ensures Prune(seen, cutoff) == seen
  {
    if |seen| > 0 { PruneNone(seen[..|seen| - 1], cutoff); }
  }

  lemma {:induction false} OnlyNames(seen: seq<Mark>)
    requires forall i :: 0 <= i < |seen| ==> seen[i].id.Name?
    ensures NameMarks(seen) == seen && IndexMarks(seen) == []
  {
    if |seen| > 0 { OnlyNames(seen[..|seen| - 1]); }
  }

  lemma ReloadIndexLast(seen: seq<Mark>, x: Mark)
    requires x.id.Index? && forall i :: 0 <= i < |seen| ==> seen[i].id.Name?
    ensures Reload(seen + [x]) == [x] + seen
  {
    OnlyNames(seen);
    assert (seen + [x])[..|seen|] == seen;
  }

  lemma Arrives(w: World, id: Id)
    requires w.kept <= |w.accepted| && w.clock == 0 && !HasId(w.mem, id)
    requires forall i :: 0 <= i < |w.mem| ==> w.mem[i].ts == 0
    ensures Next(w, Arrive(id)) == w.(mem := MakeRoom(w.mem) + [Mark(id, 0)], accepted := w.accepted + [Mark(id, 0)])
  {
    hide Prune, MakeRoom, HasId;
    PruneNone(w.mem, -HORIZON);
  }

  lemma RunMore(ls: seq<Label>, l: Label)
    ensures Run(0, ls + [l]) == Next(Run(0, ls), l)
    ensures ClockOk(0, ls) && Run(0, ls).clock == 0 && (l.Inbound? ==> l.checked == l.marked == 0) ==> ClockOk(0, ls + [l])
  {
    assert (ls + [l])[..|ls|] == ls;
  }

  lemma {:induction false} Filled(k: nat)
    requires k <= FULL
    ensures Run(0, Fill(k)) == World(Marks(k), [], Marks(k), 0, 0) && ClockOk(0, Fill(k))
  {
    hide Next, NameOf, MakeRoom, HasId, Run, ClockOk, Marks;
    if k == 0 {
      FilledNone();
    } else {
      Filled(k - 1);
      var w, id := Run(0, Fill(k - 1)), NameOf(k - 1);
      RunMore(Fill(k - 1), Arrive(id));
      NotYet(k - 1, k - 1);
      Arrives(w, id);
      RoomIsOne(Marks(k - 1));
      assert Marks(k) == Marks(k - 1) + [Mark(id, 0)];
    }
  }

  lemma FilledNone()
    ensures Run(0, Fill(0)) == World(Marks(0), [], Marks(0), 0, 0) && ClockOk(0, Fill(0))
  {}

  lemma NotYet(k: nat, i: nat)
    requires k <= i
    ensures !HasId(Marks(k), NameOf(i))
  {
    hide NameOf;
    forall j | 0 <= j < k ensures Marks(k)[j].id != NameOf(i) {
      NamesDiffer(j, i);
    }
  }

  /** The run that readmits: all names but one, then the index, a restart, one more name, and
      the index again. */
  function Readmitting(n: ArrayIndex): seq<Label> {
    Fill(FULL) + [Arrive(Index(n))] + [Persist] + [Restart] + [Arrive(NameOf(FULL))] + [Arrive(Index(n))]
  }

  lemma BeforeRestart(n: ArrayIndex)
    ensures var ls := Fill(FULL) + [Arrive(Index(n))] + [Persist];
            var x := Mark(Index(n), 0);
            && ClockOk(0, ls) && Run(0, ls) == World(Marks(FULL) + [x], Marks(FULL) + [x], Marks(FULL) + [x], FULL + 1, 0)
  {
    hide NameOf, MakeRoom, Run, ClockOk, Fill;
    var ls0 := Fill(FULL);
    var x := Mark(Index(n), 0);
    Filled(FULL);
    RunMore(ls0, Arrive(Index(n)));
    NoIndexYet(FULL, n);
    Arrives(Run(0, ls0), Index(n));
    RoomIsOne(Marks(FULL));
    RunMore(ls0 + [Arrive(Index(n))], Persist);
  }

  lemma NoIndexYet(k: nat, n: ArrayIndex)
    ensures !HasId(Marks(k), Index(n))
  {}

  lemma NameIsNotIndex(i: nat, n: ArrayIndex)
    ensures NameOf(i) != Index(n)
  {}

  lemma MarksAreNames(k: nat)
    ensures forall i :: 0 <= i < k ==> Marks(k)[i].id.Name?
  {}

  lemma AfterRestart(n: ArrayIndex)
    ensures var x := Mark(Index(n), 0);
            && ClockOk(0, Readmitting(n))
            && Run(0, Readmitting(n)).accepted == Marks(FULL) + [x] + [Mark(NameOf(FULL), 0)] + [x]
  {
    hide NameOf, MakeRoom, Run, ClockOk, Fill, Reload;
    var x, y := Mark(Index(n), 0), Mark(NameOf(FULL), 0);
    var ls1 := Fill(FULL) + [Arrive(Index(n))] + [Persist];
    BeforeRestart(n);
    RunMore(ls1, Restart);
    var w2 := Run(0, ls1 + [Restart]);
    MarksAreNames(FULL);
    ReloadIndexLast(Marks(FULL), x);
    assert w2.accepted == Marks(FULL) + [x];
    assert w2.mem == [x] + Marks(FULL);
    RunMore(ls1 + [Restart], Arrive(NameOf(FULL)));
    NotYet(FULL, FULL);
    assert !HasId(w2.mem, NameOf(FULL)) by {
      NameIsNotIndex(FULL, n);
      forall i | 0 <= i < |w2.mem| ensures w2.mem[i].id != NameOf(FULL) {
        if i > 0 { assert w2.mem[i] == Marks(FULL)[i - 1]; }
      }
    }
    Arrives(w2, NameOf(FULL));
    RoomIsOne(w2.mem);
    assert w2.mem[1..] == Marks(FULL);
    var w3 := Run(0, ls1 + [Restart] + [Arrive(NameOf(FULL))]);
    assert w3.mem == Marks(FULL) + [y];
    RunMore(ls1 + [Restart] + [Arrive(NameOf(FULL))], Arrive(Index(n)));
    assert !HasId(w3.mem, Index(n)) by {
      forall i | 0 <= i < |w3.mem| ensures w3.mem[i].id != Index(n) {}
    }
    Arrives(w3, Index(n));
  }

  /** Every index-like id can be accepted again after a single other one. */
  lemma IndexIdReadmitted(n: ArrayIndex)
    ensures ClockOk(0, Readmitting(n))
    ensures var a := Run(0, Readmitting(n)).accepted;
            && |a| == FULL + 3 && a[FULL] == a[FULL + 2] == Mark(Index(n), 0)
            && OtherIds(a[..FULL + 2], FULL) == {NameOf(FULL)} && !Crowded(a[..FULL + 2], FULL)
  {
    hide NameOf, Run, ClockOk, Readmitting, Marks;
    AfterRestart(n);
    var y := Mark(NameOf(FULL), 0);
    var a := Run(0, Readmitting(n)).accepted;
    assert a[..FULL + 2][FULL + 1..] == [y];
    assert IdsOf([y]) == {NameOf(FULL)} by {
      assert [y][0].id == NameOf(FULL);
    }
    NameIsNotIndex(FULL, n);
  }

  /** The promise over restarts, for one id. */
  ghost predicate KeptApart(id: Id) {
    forall start, ls, i, j ::
      ClockOk(start, ls) && 0 <= i < j < |Run(start, ls).accepted|
      && Run(start, ls).accepted[i] == Run(start, ls).accepted[j] && Run(start, ls).accepted[i].id == id ==>
        Crowded(Run(start, ls).accepted[..j], i)
  }

  /** Over runs with restarts the promise holds for an id exactly when it is a name. */
  lemma KeptApartIffName(id: Id)
    ensures KeptApart(id) <==> id.Name?
  {
    hide Run, ClockOk, Crowded, Readmitting;
    if id.Name? {
      forall start, ls, i, j |
        ClockOk(start, ls) && 0 <= i < j < |Run(start, ls).accepted|
        && Run(start, ls).accepted[i] == Run(start, ls).accepted[j] && Run(start, ls).accepted[i].id == id
        ensures Crowded(Run(start, ls).accepted[..j], i)
      {
        ReadmissionNeedsCrowd(start, ls, false);
      }
    } else {
      IndexIdReadmitted(id.n);
      assert id == Index(id.n);
    }
  }
}
