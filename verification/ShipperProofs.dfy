/** Sequence number k carries the k-th event. */
module ShipperProofs {
  import opened Shipper

  /** An append-only journal: ids are unique and time does not run backwards. */
  ghost predicate Journal(src: seq<Event>) {
    forall i, j :: 0 <= i < j < |src| ==> src[i].at <= src[j].at && src[i].id != src[j].id
  }

  // ---- sorting ----

  lemma {:induction false} InsertDescMembers(e: Event, es: seq<Event>)
    ensures |InsertDesc(e, es)| == |es| + 1 && forall x :: x in InsertDesc(e, es) <==> x == e || x in es
  {
    if |es| > 0 && es[0].at > e.at {
      InsertDescMembers(e, es[1..]);
      assert es == [es[0]] + es[1..];
    }
  }

  lemma {:induction false} SortDescMembers(es: seq<Event>)
    ensures |SortDesc(es)| == |es| && forall x :: x in SortDesc(es) <==> x in es
  {
    if |es| > 0 {
      SortDescMembers(es[1..]);
      InsertDescMembers(es[0], SortDesc(es[1..]));
      assert es == [es[0]] + es[1..];
    }
  }

  ghost predicate Descending(es: seq<Event>) {
    forall i, j :: 0 <= i < j < |es| ==> es[i].at >= es[j].at
  }

  lemma {:induction false} InsertDescends(e: Event, es: seq<Event>)
    requires Descending(es)
    ensures Descending(InsertDesc(e, es))
  {
    if |es| > 0 && es[0].at > e.at {
      var rest := InsertDesc(e, es[1..]);
      InsertDescends(e, es[1..]);
      InsertDescMembers(e, es[1..]);
      forall i | 0 <= i < |rest| ensures es[0].at >= rest[i].at {
        assert rest[i] == e || rest[i] in es[1..];
      }
    }
  }

  lemma {:induction false} SortDescends(es: seq<Event>)
    ensures Descending(SortDesc(es))
  {
    if |es| > 0 {
      SortDescends(es[1..]);
      InsertDescends(es[0], SortDesc(es[1..]));
    }
  }

  ghost predicate Older(a: seq<Event>, b: seq<Event>) {
    forall i, j :: 0 <= i < |a| && 0 <= j < |b| ==> a[i].at < b[j].at
  }

  lemma {:induction false} InsertPasses(e: Event, front: seq<Event>, back: seq<Event>)
    requires forall i :: 0 <= i < |front| ==> front[i].at > e.at
    ensures InsertDesc(e, front + back) == front + InsertDesc(e, back)
  {
    if |front| > 0 {
      InsertPasses(e, front[1..], back);
      assert (front + back)[1..] == front[1..] + back;
    } else {
      assert front + back == back;
    }
  }

  /** What is strictly newer comes first. */
  lemma {:induction false} SortDescSplit(a: seq<Event>, b: seq<Event>)
    requires Older(a, b)
    ensures SortDesc(a + b) == SortDesc(b) + SortDesc(a)
  {
    if |a| == 0 {
      assert a + b == b;
    } else {
      assert (a + b)[1..] == a[1..] + b;
      SortDescSplit(a[1..], b);
      SortDescMembers(b);
      var front := SortDesc(b);
      forall i | 0 <= i < |front| ensures front[i].at > a[0].at { assert front[i] in b; }
      InsertPasses(a[0], front, SortDesc(a[1..]));
    }
  }

  lemma {:induction false} SortTies(es: seq<Event>)
    requires forall i :: 0 <= i < |es| ==> es[i].at == es[0].at
    ensures SortDesc(es) == es
  {
    if |es| > 1 { SortTies(es[1..]); }
  }

  // ---- ascending again ----

  lemma {:induction false} InsertMembers(e: Event, es: seq<Event>)
    ensures |InsertByAt(e, es)| == |es| + 1 && forall x :: x in InsertByAt(e, es) <==> x == e || x in es
  {
    if |es| > 0 && es[0].at < e.at {
      InsertMembers(e, es[1..]);
      assert es == [es[0]] + es[1..];
    }
  }

  lemma {:induction false} SortMembers(es: seq<Event>)
    ensures |SortByAt(es)| == |es| && forall x :: x in SortByAt(es) <==> x in es
  {
    if |es| > 0 {
      SortMembers(es[1..]);
      InsertMembers(es[0], SortByAt(es[1..]));
      assert es == [es[0]] + es[1..];
    }
  }

  /** A least event with only later ones before it comes out first. */
  lemma {:induction false} LeastFirst(front: seq<Event>, e: Event, back: seq<Event>)
    requires forall i :: 0 <= i < |front| ==> front[i].at > e.at
    requires forall i :: 0 <= i < |back| ==> back[i].at >= e.at
    ensures SortByAt(front + [e] + back) == [e] + SortByAt(front + back)
  {
    if |front| == 0 {
      assert front + [e] + back == [e] + back && front + back == back;
      SortMembers(back);
      if |back| > 0 { assert SortByAt(back)[0] in back; }
    } else {
      assert (front + [e] + back)[1..] == front[1..] + [e] + back && (front + back)[1..] == front[1..] + back;
      LeastFirst(front[1..], e, back);
    }
  }

  lemma {:induction false} InsertPlace(e: Event, es: seq<Event>) returns (k: nat)
    ensures k <= |es| && InsertDesc(e, es) == es[..k] + [e] + es[k..]
    ensures forall i :: 0 <= i < k ==> es[i].at > e.at
  {
    if |es| > 0 && es[0].at > e.at {
      k := InsertPlace(e, es[1..]);
      k := k + 1;
      assert es[1..][..k - 1] == es[1..k] && es == [es[0]] + es[1..];
    } else {
      k := 0;
    }
  }

  /** An event no later than any of a newest-first list comes out first. */
  lemma InsertRestores(e: Event, d: seq<Event>)
    requires forall i :: 0 <= i < |d| ==> d[i].at >= e.at
    ensures SortByAt(InsertDesc(e, d)) == [e] + SortByAt(d)
  {
    hide SortByAt, InsertDesc;
    var k := InsertPlace(e, d);
    assert forall i :: 0 <= i < |d[k..]| ==> d[k..][i] == d[k + i];
    LeastFirst(d[..k], e, d[k..]);
    assert d[..k] + d[k..] == d;
  }

  /** Sorting the newest-first list by time restores the journal, ties included. */
  lemma {:induction false} SortRestores(es: seq<Event>)
    requires forall i, j :: 0 <= i < j < |es| ==> es[i].at <= es[j].at
    ensures SortByAt(SortDesc(es)) == es
  {
    if |es| > 0 {
      hide SortByAt;
      var d := SortDesc(es[1..]);
      assert SortDesc(es) == InsertDesc(es[0], d);
      hide SortDesc, InsertDesc;
      SortRestores(es[1..]);
      SortDescMembers(es[1..]);
      forall i | 0 <= i < |d| ensures d[i].at >= es[0].at {
        assert d[i] in es[1..];
      }
      InsertRestores(es[0], d);
      assert es == [es[0]] + es[1..];
    }
  }

  // ---- leaving out what was shipped ----

  lemma {:induction false} UnseenSplit(a: seq<Event>, b: seq<Event>, order: seq<string>)
    ensures Unseen(a + b, order) == Unseen(a, order) + Unseen(b, order)
  {
    if |a| == 0 {
      assert a + b == b;
    } else {
      assert (a + b)[1..] == a[1..] + b;
      UnseenSplit(a[1..], b, order);
    }
  }

  lemma {:induction false} UnseenMembers(a: seq<Event>, order: seq<string>)
    ensures forall e :: e in Unseen(a, order) <==> e in a && e.id !in order
  {
    if |a| > 0 {
      UnseenMembers(a[1..], order);
      assert a == [a[0]] + a[1..];
    }
  }

  lemma {:induction false} AllSeen(a: seq<Event>, order: seq<string>)
    requires forall e :: e in a ==> e.id in order
    ensures Unseen(a, order) == []
  {
    if |a| > 0 { assert a[0] in a; AllSeen(a[1..], order); }
  }

  lemma {:induction false} NoneSeen(a: seq<Event>, order: seq<string>)
    requires forall e :: e in a ==> e.id !in order
    ensures Unseen(a, order) == a
  {
    if |a| > 0 { assert a[0] in a; NoneSeen(a[1..], order); }
  }

  lemma {:induction false} UnseenInsert(e: Event, es: seq<Event>, order: seq<string>)
    requires Descending(es)
    ensures Unseen(InsertDesc(e, es), order) == if e.id in order then Unseen(es, order) else InsertDesc(e, Unseen(es, order))
  {
    if |es| > 0 && es[0].at > e.at {
      UnseenInsert(e, es[1..], order);
    } else {
      UnseenMembers(es, order);
      var rest := Unseen(es, order);
      if |rest| > 0 { assert rest[0] in rest; }
    }
  }

  /** Leaving out and sorting commute. */
  lemma {:induction false} UnseenSort(es: seq<Event>, order: seq<string>)
    ensures Unseen(SortDesc(es), order) == SortDesc(Unseen(es, order))
  {
    if |es| > 0 {
      UnseenSort(es[1..], order);
      SortDescends(es[1..]);
      UnseenInsert(es[0], SortDesc(es[1..]), order);
    }
  }

  // ---- when a cycle ships exactly the unshipped rest ----

  ghost predicate OnlyShipped(src: seq<Event>, p: Progress) {
    forall id :: id in p.order ==> exists i :: 0 <= i < p.seqNo && i < |src| && src[i].id == id
  }

  ghost predicate Remembered(src: seq<Event>, p: Progress, window: nat) {
    forall i :: 0 <= i < p.seqNo && i < |src| && src[i] in Recent(src, window) ==> src[i].id in p.order
  }

  /** The first event as new as the k-th. */
  lemma {:induction false} TieStart(src: seq<Event>, k: nat) returns (f: nat)
    requires Journal(src) && k < |src|
    ensures f <= k && (forall i :: 0 <= i < f ==> src[i].at < src[k].at) && (forall i :: f <= i < |src| ==> src[i].at >= src[k].at)
  {
    f := k;
    while f > 0 && src[f - 1].at == src[k].at
      invariant f <= k && src[f].at == src[k].at
    {
      f := f - 1;
    }
  }

  lemma {:induction false} CountIs(src: seq<Event>, t: int, f: nat)
    requires f <= |src| && (forall i :: 0 <= i < f ==> src[i].at < t) && (forall i :: f <= i < |src| ==> src[i].at >= t)
    ensures NotOlder(src, t) == |src| - f
  {
    if |src| > 0 {
      var m := |src| - 1;
      CountIs(src[..m], t, if f <= m then f else m);
    }
  }

  lemma SlicesOlder(src: seq<Event>, a: seq<Event>, b: seq<Event>, t: int)
    requires |a| + |b| == |src| && a == src[..|a|] && b == src[|a|..]
    requires (forall i :: 0 <= i < |a| ==> src[i].at < t) && (forall i :: |a| <= i < |src| ==> src[i].at >= t)
    ensures Older(a, b)
  {
    forall i | 0 <= i < |a| ensures a[i].at < t {
      assert a[i] == src[i];
    }
    forall j | 0 <= j < |b| ensures b[j].at >= t {
      assert b[j] == src[|a| + j];
    }
  }

  lemma OlderSlices(src: seq<Event>, f: nat, t: int)
    requires f <= |src| && (forall i :: 0 <= i < f ==> src[i].at < t) && (forall i :: f <= i < |src| ==> src[i].at >= t)
    ensures SortDesc(src) == SortDesc(src[f..]) + SortDesc(src[..f])
  {
    hide SortDesc, Older;
    SlicesOlder(src, src[..f], src[f..], t);
    SortDescSplit(src[..f], src[f..]);
    assert src == src[..f] + src[f..];
  }

  lemma NotYetSeen(src: seq<Event>, p: Progress)
    requires Journal(src) && p.seqNo <= |src| && OnlyShipped(src, p)
    ensures forall e :: e in src[p.seqNo..] ==> e.id !in p.order
  {
    forall e | e in src[p.seqNo..] ensures e.id !in p.order {
      var j :| p.seqNo <= j < |src| && src[j] == e;
    }
  }

  lemma UnseenTies(src: seq<Event>, p: Progress, window: nat, f: nat)
    requires Journal(src) && f <= p.seqNo <= |src| && OnlyShipped(src, p) && Remembered(src, p, window)
    requires forall e :: e in src[f..] ==> e in Recent(src, window)
    ensures Unseen(src[f..], p.order) == src[p.seqNo..]
  {
    hide Unseen, Recent;
    var k := p.seqNo;
    assert src[f..] == src[f..k] + src[k..];
    UnseenSplit(src[f..k], src[k..], p.order);
    forall e | e in src[f..k] ensures e.id in p.order {
      var i :| f <= i < k && src[i] == e;
      assert src[f..][i - f] == e;
    }
    AllSeen(src[f..k], p.order);
    NotYetSeen(src, p);
    NoneSeen(src[k..], p.order);
  }

  lemma ShipsIfFits(src: seq<Event>, p: Progress, window: nat)
    requires Journal(src) && p.seqNo < |src| && OnlyShipped(src, p)
    requires Fits(src, p.seqNo, window) && Remembered(src, p, window)
    ensures ToShip(Recent(src, window), p.order) == src[p.seqNo..]
  {
    hide Unseen, SortDesc, SortByAt, OnlyShipped;
    var k := p.seqNo;
    var f := TieStart(src, k);
    CountIs(src, src[k].at, f);
    OlderSlices(src, f, src[k].at);
    var feed, b := Recent(src, window), src[f..];
    SortDescMembers(b);
    SortDescMembers(src[..f]);
    var rest := feed[|b|..];
    assert |SortDesc(b)| == |b| <= |feed|;
    assert feed[..|b|] == SortDesc(b);
    assert feed == SortDesc(b) + rest;
    forall e | e in b ensures e in feed { assert e in SortDesc(b); }
    forall e | e in rest ensures e.id in p.order {
      assert forall j :: 0 <= j < |rest| ==> rest[j] == SortDesc(src[..f])[j];
      assert e in SortDesc(src[..f]);
      assert e in feed && e in src[..f];
      var i :| 0 <= i < f && src[i] == e;
    }
    UnseenSplit(SortDesc(b), rest, p.order);
    AllSeen(rest, p.order);
    UnseenSort(b, p.order);
    UnseenTies(src, p, window, f);
    assert SortDesc(src[k..]) + [] == SortDesc(src[k..]);
    assert Unseen(feed, p.order) == SortDesc(src[k..]);
    SortRestores(src[k..]);
  }

  lemma NothingLeft(src: seq<Event>, p: Progress, window: nat)
    requires Journal(src) && p.seqNo == |src| && Remembered(src, p, window)
    ensures ToShip(Recent(src, window), p.order) == []
  {
    hide SortDesc;
    SortDescMembers(src);
    var feed := Recent(src, window);
    forall e | e in feed ensures e.id in p.order {
      assert e in SortDesc(src);
      var i :| 0 <= i < |src| && src[i] == e;
    }
    AllSeen(feed, p.order);
  }

  lemma ShippedFromFeed(src: seq<Event>, p: Progress, window: nat)
    ensures forall e :: e in ToShip(Recent(src, window), p.order) <==> e in Recent(src, window) && e.id !in p.order
  {
    UnseenMembers(Recent(src, window), p.order);
    SortMembers(Unseen(Recent(src, window), p.order));
  }

  lemma RememberedIfShips(src: seq<Event>, p: Progress, window: nat)
    requires Journal(src) && p.seqNo <= |src| && ToShip(Recent(src, window), p.order) == src[p.seqNo..]
    ensures Remembered(src, p, window)
  {
    hide ToShip, Recent;
    ShippedFromFeed(src, p, window);
    ShippedNotAhead(src, p.seqNo);
  }

  lemma ShippedNotAhead(src: seq<Event>, k: nat)
    requires Journal(src) && k <= |src|
    ensures forall i :: 0 <= i < k ==> src[i] !in src[k..]
  {
    forall i, j | 0 <= i < k && 0 <= j < |src[k..]| ensures src[i] != src[k..][j] {
      assert src[k..][j] == src[k + j];
    }
  }

  /** One past the last event of the k-th's time. */
  lemma {:induction false} TieEnd(src: seq<Event>, k: nat) returns (h: nat)
    requires Journal(src) && k < |src|
    ensures k < h <= |src| && src[h - 1].at == src[k].at && forall i :: h <= i < |src| ==> src[i].at > src[k].at
  {
    h := k + 1;
    while h < |src| && src[h].at == src[k].at
      invariant k < h <= |src| && src[h - 1].at == src[k].at
    {
      h := h + 1;
    }
  }

  lemma TieOrder(src: seq<Event>, k: nat, f: nat, h: nat)
    requires Journal(src) && f <= k < h <= |src|
    requires forall i :: f <= i < h ==> src[i].at == src[k].at
    requires forall i :: h <= i < |src| ==> src[i].at > src[k].at
    ensures SortDesc(src[f..]) == SortDesc(src[h..]) + src[f..h]
  {
    hide SortDesc;
    assert src[f..] == src[f..h] + src[h..];
    SortDescSplit(src[f..h], src[h..]);
    SortTies(src[f..h]);
  }

  /** A tie group that does not fit is cut at its end. */
  lemma LastTieIsCut(src: seq<Event>, k: nat, f: nat, h: nat, window: nat)
    requires Journal(src) && f <= k < h <= |src| && |src| - f > window && src[h - 1].at == src[k].at
    requires forall i :: h <= i < |src| ==> src[i].at > src[k].at
    requires SortDesc(src) == SortDesc(src[h..]) + src[f..h] + SortDesc(src[..f])
    ensures src[h - 1] !in Recent(src, window)
  {
    hide *;
    NotNewer(src, src[h..], k, h);
    NotAmongEarlier(src, f, h);
    CutFeed(src, SortDesc(src[h..]), src[f..h], SortDesc(src[..f]), window);
    CutLast(SortDesc(src[h..]), src[f..h], SortDesc(src[..f]), window, src[h - 1]);
  }

  lemma CutFeed(src: seq<Event>, a: seq<Event>, b: seq<Event>, c: seq<Event>, window: nat)
    requires SortDesc(src) == a + b + c && window < |a| + |b|
    ensures Recent(src, window) == (a + b + c)[..window]
  {}

  lemma NotNewer(src: seq<Event>, newer: seq<Event>, k: nat, h: nat)
    requires 0 < h <= |src| && k < |src| && newer == src[h..] && src[h - 1].at == src[k].at
    requires forall i :: h <= i < |src| ==> src[i].at > src[k].at
    ensures |SortDesc(newer)| == |newer| && src[h - 1] !in SortDesc(newer)
  {
    hide SortDesc;
    SortDescMembers(newer);
    forall i | 0 <= i < |newer| ensures newer[i] != src[h - 1] {
      assert newer[i] == src[h + i];
    }
  }

  lemma NotAmongEarlier(src: seq<Event>, f: nat, h: nat)
    requires Journal(src) && f < h <= |src|
    ensures forall i :: 0 <= i < h - f - 1 ==> src[f..h][i] != src[h - 1]
  {
    forall i | 0 <= i < h - f - 1 ensures src[f..h][i] != src[h - 1] {
      assert src[f..h][i] == src[f + i] && src[f + i].id != src[h - 1].id;
    }
  }

  lemma CutLast(a: seq<Event>, b: seq<Event>, c: seq<Event>, n: nat, e: Event)
    requires n < |a| + |b| && |b| > 0 && e !in a && b[|b| - 1] == e && forall i :: 0 <= i < |b| - 1 ==> b[i] != e
    ensures e !in (a + b + c)[..n]
  {
    var s := (a + b + c)[..n];
    forall q | 0 <= q < |s| ensures s[q] != e {
      assert s[q] == if q < |a| then a[q] else b[q - |a|];
    }
  }

  lemma FitsIfShips(src: seq<Event>, p: Progress, window: nat)
    requires Journal(src) && p.seqNo <= |src| && ToShip(Recent(src, window), p.order) == src[p.seqNo..]
    ensures Fits(src, p.seqNo, window)
  {
    hide SortDesc, ToShip, Recent, Journal;
    var k := p.seqNo;
    if k < |src| {
      var f := TieStart(src, k);
      var h := TieEnd(src, k);
      CountIs(src, src[k].at, f);
      OlderSlices(src, f, src[k].at);
      TieGroup(src, k, f, h);
      TieOrder(src, k, f, h);
      ShippedFromFeed(src, p, window);
      assert src[k..][h - 1 - k] == src[h - 1];
      if |src| - f > window { LastTieIsCut(src, k, f, h, window); }
    }
  }

  lemma TieGroup(src: seq<Event>, k: nat, f: nat, h: nat)
    requires Journal(src) && f <= k < h <= |src| && src[h - 1].at == src[k].at
    requires forall i :: f <= i < |src| ==> src[i].at >= src[k].at
    ensures forall i :: f <= i < h ==> src[i].at == src[k].at
  {
    forall i | f <= i < h ensures src[i].at == src[k].at {
      if i < h - 1 { assert src[i].at <= src[h - 1].at; }
    }
  }

  /** A cycle ships exactly the unshipped rest of the journal, in order, if and only if the
      first unshipped event and all that are not older fit the window, and every shipped
      event the source still shows is remembered. */
  lemma ShipsTheRestIff(src: seq<Event>, p: Progress, window: nat)
    requires Journal(src) && p.seqNo <= |src| && OnlyShipped(src, p)
    ensures ToShip(Recent(src, window), p.order) == src[p.seqNo..] <==>
            Fits(src, p.seqNo, window) && Remembered(src, p, window)
  {
    hide ToShip, Recent, Fits, Remembered, OnlyShipped, Journal;
    if ToShip(Recent(src, window), p.order) == src[p.seqNo..] {
      FitsIfShips(src, p, window);
      RememberedIfShips(src, p, window);
    }
    if Fits(src, p.seqNo, window) && Remembered(src, p, window) {
      if p.seqNo < |src| { ShipsIfFits(src, p, window); } else { NothingLeft(src, p, window); }
    }
  }

  // ---- what every cycle keeps ----

  /** Among the first `n` events no more than `window` share a time. */
  ghost predicate Spread(src: seq<Event>, n: nat, window: nat) {
    n <= |src| && forall i, j :: 0 <= i && i + window <= j < n ==> src[i].at < src[j].at
  }

  /** The state of a shipper of `src`: it has shipped a prefix, and remembers at least the
      last two windows of ids of it. */
  ghost predicate ProgressOk(src: seq<Event>, p: Progress, window: nat) {
    && Spread(src, p.seqNo, window) && |p.order| <= p.seqNo
    && (|p.order| >= 2 * window || |p.order| == p.seqNo)
    && forall i :: 0 <= i < |p.order| ==> p.order[i] == src[p.seqNo - |p.order| + i].id
  }

  /** What is still to be posted in this cycle continues the shipped prefix. */
  ghost predicate ShipperOk(src: seq<Event>, s: Shipper, window: nat) {
    && ProgressOk(src, s.mem, window) && ProgressOk(src, s.disk, window)
    && Spread(src, s.mem.seqNo + |s.todo|, window) && s.todo == src[s.mem.seqNo..s.mem.seqNo + |s.todo|]
  }

  lemma OrderIsShipped(src: seq<Event>, p: Progress, window: nat)
    requires ProgressOk(src, p, window)
    ensures OnlyShipped(src, p)
    ensures forall i :: p.seqNo - |p.order| <= i < p.seqNo ==> src[i].id in p.order
  {
    hide Spread;
    SpreadLength(src, p.seqNo, window);
    var base := p.seqNo - |p.order|;
    forall i | base <= i < p.seqNo ensures src[i].id in p.order {
      assert p.order[i - base] == src[i].id;
    }
    forall id | id in p.order ensures exists i :: 0 <= i < p.seqNo && i < |src| && src[i].id == id {
      var j :| 0 <= j < |p.order| && p.order[j] == id;
      assert src[base + j].id == id;
    }
  }

  lemma SpreadLength(src: seq<Event>, n: nat, window: nat)
    requires Spread(src, n, window)
    ensures n <= |src|
  {}

  /** The source never shows an event two windows behind the last one shipped. */
  lemma TwoWindowsBack(src: seq<Event>, n: nat, window: nat, i: nat)
    requires Journal(src) && Spread(src, n, window) && i + 2 * window < n
    ensures src[i] !in Recent(src, window)
  {
    hide SortDesc;
    assert src[i].at < src[i + window].at;
    var h := TieEnd(src, i);
    assert h <= i + window;
    StrictlyNewer(src, i, h);
    OlderSlices(src, h, src[i].at + 1);
    NotNewer(src, src[h..], i, h);
    SortDescMembers(src[h..]);
    var feed, newer := Recent(src, window), src[h..];
    forall q | 0 <= q < |feed| ensures feed[q] != src[i] {
      assert feed[q] == SortDesc(newer)[q] && feed[q] in newer;
      assert src[i] !in newer;
    }
  }

  lemma StrictlyNewer(src: seq<Event>, i: nat, h: nat)
    requires Journal(src) && i < h <= |src| && src[h - 1].at == src[i].at
    requires forall j :: h <= j < |src| ==> src[j].at > src[i].at
    ensures forall j :: 0 <= j < h ==> src[j].at < src[i].at + 1
    ensures src[i] !in src[h..]
  {
    forall j | 0 <= j < h ensures src[j].at < src[i].at + 1 {
      if j < h - 1 { assert src[j].at <= src[h - 1].at; }
    }
    var newer := src[h..];
    forall j | 0 <= j < |newer| ensures newer[j] != src[i] {
      assert newer[j] == src[h + j];
    }
  }

  /** Trimming the list of ids to two windows never forgets one the source still shows. */
  lemma RememberedOk(src: seq<Event>, p: Progress, window: nat)
    requires Journal(src) && ProgressOk(src, p, window)
    ensures Remembered(src, p, window) && OnlyShipped(src, p) && p.seqNo <= |src|
  {
    hide Recent, Spread, Journal, OnlyShipped;
    SpreadLength(src, p.seqNo, window);
    OrderIsShipped(src, p, window);
    forall i | 0 <= i < p.seqNo && src[i] in Recent(src, window) ensures src[i].id in p.order {
      if i < p.seqNo - |p.order| { TwoWindowsBack(src, p.seqNo, window, i); }
    }
  }

  /** In any state a run reaches, a cycle ships the unshipped rest if and only if the first
      unshipped event, with all that are not older, fits the window. */
  lemma CycleShipsIffFits(src: seq<Event>, p: Progress, window: nat)
    requires Journal(src) && ProgressOk(src, p, window)
    ensures p.seqNo <= |src|
    ensures ToShip(Recent(src, window), p.order) == src[p.seqNo..] <==> Fits(src, p.seqNo, window)
  {
    hide ToShip, Recent, Fits, Remembered, OnlyShipped, Journal, ProgressOk;
    RememberedOk(src, p, window);
    ShipsTheRestIff(src, p, window);
  }

  lemma SpreadRest(src: seq<Event>, k: nat, window: nat)
    requires Journal(src) && Spread(src, k, window) && Fits(src, k, window)
    ensures Spread(src, |src|, window)
  {
    if k < |src| {
      var f := TieStart(src, k);
      CountIs(src, src[k].at, f);
      forall i, j | 0 <= i && i + window <= j < |src| ensures src[i].at < src[j].at {
        if j >= k {
          assert i < f;
          assert src[k].at <= src[j].at;
        }
      }
    }
  }

  lemma BeginOk(src: seq<Event>, s: Shipper, window: nat)
    requires Journal(src) && ShipperOk(src, s, window)
    requires s.mem.seqNo <= |src| && Fits(src, s.mem.seqNo, window)
    ensures ShipperOk(src, Begin(s, Recent(src, window)), window)
    ensures Begin(s, Recent(src, window)).todo == src[s.mem.seqNo..]
  {
    hide ToShip, Recent, Fits, Journal, Spread;
    CycleShipsIffFits(src, s.mem, window);
    SpreadRest(src, s.mem.seqNo, window);
  }

  lemma PostOk(src: seq<Event>, s: Shipper, window: nat, o: Outcome)
    requires ShipperOk(src, s, window) && |s.todo| > 0
    ensures ShipperOk(src, Post(s, o), window)
    ensures s.mem.seqNo < |src| && s.todo[0] == src[s.mem.seqNo]
  {
    hide Spread;
    SpreadLength(src, s.mem.seqNo + |s.todo|, window);
    if o.Acked? {
      var k := s.mem.seqNo;
      assert s.todo[0] == src[k];
      assert s.todo[1..] == src[k + 1..k + |s.todo|];
      SpreadLess(src, k + |s.todo|, window, k + 1);
    } else {
      SpreadLess(src, s.mem.seqNo + |s.todo|, window, s.mem.seqNo);
    }
  }

  lemma SpreadLess(src: seq<Event>, n: nat, window: nat, m: nat)
    requires Spread(src, n, window) && m <= n
    ensures Spread(src, m, window)
  {}

  lemma BoundOk(src: seq<Event>, p: Progress, window: nat)
    requires ProgressOk(src, p, window)
    ensures ProgressOk(src, p.(order := Bound(p.order, window)), window)
  {
    hide Spread;
  }

  lemma EndOk(src: seq<Event>, s: Shipper, window: nat, saved: bool)
    requires ShipperOk(src, s, window)
    ensures ShipperOk(src, End(s, window, saved), window)
  {
    hide ProgressOk;
    BoundOk(src, s.mem, window);
    assert s.mem.seqNo <= |src| && Spread(src, s.mem.seqNo, window);
  }

  /** More events in the journal. */
  lemma GrowOk(src: seq<Event>, more: seq<Event>, s: Shipper, window: nat)
    requires ShipperOk(src, s, window) && src <= more
    ensures ShipperOk(more, s, window)
  {
    var k := s.mem.seqNo;
    assert more[k..k + |s.todo|] == src[k..k + |s.todo|];
  }
}
