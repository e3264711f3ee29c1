/** Key order: sorting by code unit is a function of the set of members alone. */
module CanonicalOrder {
  import opened Canonical

  ghost predicate Ascending<T>(ps: seq<Entry<T>>) {
    forall i, j :: 0 <= i < j < |ps| ==> Less(ps[i].key, ps[j].key)
  }

  lemma {:induction false} LessIrreflexive(a: Text)
    ensures !Less(a, a)
  {
    if |a| > 0 { LessIrreflexive(a[1..]); }
  }

  lemma {:induction false} LessTotal(a: Text, b: Text)
    requires a != b
    ensures Less(a, b) || Less(b, a)
  {
    if |a| > 0 && |b| > 0 && a[0] == b[0] {
      assert a == [a[0]] + a[1..] && b == [b[0]] + b[1..];
      LessTotal(a[1..], b[1..]);
    }
  }

  lemma {:induction false} LessTransitive(a: Text, b: Text, c: Text)
    requires Less(a, b) && Less(b, c)
    ensures Less(a, c)
  {
    if |a| > 0 && a[0] == b[0] == c[0] { LessTransitive(a[1..], b[1..], c[1..]); }
  }

  lemma AscendingDistinct<T>(ps: seq<Entry<T>>)
    requires Ascending(ps)
    ensures DistinctKeys(ps)
  {
    forall i, j | 0 <= i < j < |ps| ensures ps[i].key != ps[j].key {
      LessIrreflexive(ps[i].key);
    }
  }

  lemma {:induction false} InsertKeeps<T>(p: Entry<T>, ps: seq<Entry<T>>)
    ensures multiset(Insert(p, ps)) == multiset{p} + multiset(ps)
  {
    if |ps| > 0 && Less(ps[0].key, p.key) {
      InsertKeeps(p, ps[1..]);
      assert ps == [ps[0]] + ps[1..];
    }
  }

  /** Sorting loses and invents no member. */
  lemma {:induction false} SortKeeps<T>(ps: seq<Entry<T>>)
    ensures multiset(SortByKey(ps)) == multiset(ps)
  {
    if |ps| > 0 {
      SortKeeps(ps[1..]);
      InsertKeeps(ps[0], SortByKey(ps[1..]));
      assert ps == [ps[0]] + ps[1..];
    }
  }

  lemma MultisetMember<T>(a: seq<Entry<T>>, b: seq<Entry<T>>)
    requires multiset(a) == multiset(b)
    ensures |a| == |b| && forall x :: x in a <==> x in b
  {
    assert |multiset(a)| == |a| && |multiset(b)| == |b|;
    forall x ensures x in a <==> x in b {
      assert x in a <==> x in multiset(a);
      assert x in b <==> x in multiset(b);
    }
  }

  lemma {:induction false} InsertMembers<T>(p: Entry<T>, ps: seq<Entry<T>>)
    ensures |Insert(p, ps)| == |ps| + 1
    ensures forall i :: 0 <= i < |ps| + 1 ==> Insert(p, ps)[i] == p || Insert(p, ps)[i] in ps
  {
    if |ps| > 0 && Less(ps[0].key, p.key) { InsertMembers(p, ps[1..]); }
  }

  lemma SortMembers<T>(ps: seq<Entry<T>>)
    ensures |SortByKey(ps)| == |ps|
    ensures forall i :: 0 <= i < |ps| ==> SortByKey(ps)[i] in ps
    ensures forall x :: x in SortByKey(ps) <==> x in ps
  {
    SortKeeps(ps);
    MultisetMember(SortByKey(ps), ps);
    var r := SortByKey(ps);
    forall i | 0 <= i < |ps| ensures r[i] in ps {
      assert r[i] in multiset(r);
    }
  }

  lemma {:induction false} InsertAscending<T>(p: Entry<T>, ps: seq<Entry<T>>)
    requires Ascending(ps)
    requires forall i :: 0 <= i < |ps| ==> ps[i].key != p.key
    ensures Ascending(Insert(p, ps))
  {
    if |ps| == 0 { return; }
    if Less(ps[0].key, p.key) {
      InsertAscending(p, ps[1..]);
      var rest := Insert(p, ps[1..]);
      InsertMembers(p, ps[1..]);
      forall i | 0 <= i < |rest| ensures Less(ps[0].key, rest[i].key) {
        if rest[i] != p { var j :| 0 <= j < |ps[1..]| && ps[1..][j] == rest[i]; }
      }
    } else {
      LessTotal(p.key, ps[0].key);
      forall j | 0 <= j < |ps| ensures Less(p.key, ps[j].key) {
        if j > 0 { LessTransitive(p.key, ps[0].key, ps[j].key); }
      }
    }
  }

  lemma {:induction false} SortAscending<T>(ps: seq<Entry<T>>)
    requires DistinctKeys(ps)
    ensures Ascending(SortByKey(ps))
  {
    if |ps| > 0 {
      SortAscending(ps[1..]);
      SortMembers(ps[1..]);
      var rest := SortByKey(ps[1..]);
      forall i | 0 <= i < |rest| ensures rest[i].key != ps[0].key {
        var j :| 0 <= j < |ps[1..]| && ps[1..][j] == rest[i];
      }
      InsertAscending(ps[0], rest);
    }
  }

  lemma FirstIsLeast<T>(a: seq<Entry<T>>, b: seq<Entry<T>>)
    requires Ascending(a) && Ascending(b) && |a| > 0 && |b| > 0
    requires b[0] in a && a[0] in b
    ensures a[0] == b[0]
  {
    var i :| 0 <= i < |a| && a[i] == b[0];
    var j :| 0 <= j < |b| && b[j] == a[0];
    if i > 0 && j > 0 {
      LessTransitive(a[0].key, a[i].key, a[0].key);
      LessIrreflexive(a[0].key);
    }
  }

  lemma TailMembers<T>(a: seq<Entry<T>>)
    requires DistinctKeys(a) && |a| > 0
    ensures forall x :: x in a[1..] <==> x in a && x != a[0]
  {
    assert a == [a[0]] + a[1..];
  }

  /** Only one ascending sequence holds a given set of members. */
  lemma {:induction false} AscendingUnique<T>(a: seq<Entry<T>>, b: seq<Entry<T>>)
    requires Ascending(a) && Ascending(b) && |a| == |b|
    requires forall x :: x in a <==> x in b
    ensures a == b
  {
    if |a| > 0 {
      assert a[0] in b;
      assert b[0] in a;
      FirstIsLeast(a, b);
      AscendingDistinct(a);
      AscendingDistinct(b);
      TailMembers(a);
      TailMembers(b);
      AscendingUnique(a[1..], b[1..]);
      assert a == [a[0]] + a[1..] && b == [b[0]] + b[1..];
    }
  }

  lemma MembersOf<T>(ps: seq<Entry<T>>)
    requires |ps| > 0
    ensures (set p | p in ps) == {ps[0]} + (set p | p in ps[1..])
  {
    assert ps == [ps[0]] + ps[1..];
  }

  lemma {:induction false} DistinctCount<T>(ps: seq<Entry<T>>)
    requires DistinctKeys(ps)
    ensures |set p | p in ps| == |ps|
  {
    if |ps| > 0 {
      var rest := ps[1..];
      DistinctCount(rest);
      MembersOf(ps);
      forall i | 0 <= i < |rest| ensures rest[i] != ps[0] {
        assert rest[i] == ps[i + 1];
      }
    }
  }

  lemma SubsetOfEqualSize<T>(a: set<T>, b: set<T>)
    requires a <= b && |a| == |b|
    ensures a == b
  {
    assert |b - a| == |b| - |a|;
  }

  lemma SameMembers<T>(a: seq<Entry<T>>, b: seq<Entry<T>>)
    requires DistinctKeys(a) && DistinctKeys(b) && |a| == |b|
    requires forall i :: 0 <= i < |a| ==> a[i] in b
    ensures forall x :: x in a <==> x in b
  {
    var sa, sb := set p | p in a, set p | p in b;
    DistinctCount(a);
    DistinctCount(b);
    SubsetOfEqualSize(sa, sb);
    forall x ensures x in a <==> x in b {
      assert (x in a <==> x in sa) && (x in b <==> x in sb);
    }
  }

  /** Two objects with the same members sort to the same sequence. */
  lemma SortOrderFree<T>(a: seq<Entry<T>>, b: seq<Entry<T>>)
    requires DistinctKeys(a) && DistinctKeys(b) && |a| == |b|
    requires forall i :: 0 <= i < |a| ==> a[i] in b
    ensures SortByKey(a) == SortByKey(b)
  {
    SameMembers(a, b);
    SortAscending(a);
    SortAscending(b);
    SortMembers(a);
    SortMembers(b);
    AscendingUnique(SortByKey(a), SortByKey(b));
  }

  // ---- changing the values does not change the order ----

  function MapValues<A, B>(ps: seq<Entry<A>>, f: A -> B): (r: seq<Entry<B>>)
    ensures |r| == |ps| && forall i :: 0 <= i < |ps| ==> r[i] == Entry(ps[i].key, f(ps[i].value))
  {
    seq(|ps|, i requires 0 <= i < |ps| => Entry(ps[i].key, f(ps[i].value)))
  }

  lemma {:induction false} InsertMap<A, B>(p: Entry<A>, ps: seq<Entry<A>>, f: A -> B)
    ensures Insert(Entry(p.key, f(p.value)), MapValues(ps, f)) == MapValues(Insert(p, ps), f)
  {
    if |ps| > 0 && Less(ps[0].key, p.key) {
      InsertMap(p, ps[1..], f);
      assert MapValues(ps, f)[1..] == MapValues(ps[1..], f);
    }
  }

  lemma {:induction false} SortMap<A, B>(ps: seq<Entry<A>>, f: A -> B)
    ensures SortByKey(MapValues(ps, f)) == MapValues(SortByKey(ps), f)
  {
    if |ps| > 0 {
      SortMap(ps[1..], f);
      assert MapValues(ps, f)[1..] == MapValues(ps[1..], f);
      InsertMap(ps[0], SortByKey(ps[1..]), f);
    }
  }
}
