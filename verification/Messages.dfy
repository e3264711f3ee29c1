/** The message book of a node and its replay guard (island/src/core/messages.ts). Times are
    whole milliseconds. */
module Messages {
  import opened Wrappers

  /** The numbers that are array indices as JavaScript object keys. */
  type ArrayIndex = n: int | 0 <= n < 0xFFFF_FFFF

  /** A message id as a JavaScript object key: one that reads as an array index sorts before
      every other key when the object is written out and read back. */
  datatype Id = Name(text: string) | Index(n: ArrayIndex)

  datatype Mark = Mark(id: Id, ts: int)

  const MAX_MSG_AGE_MS: int := 15 * 60 * 1000
  const MAX_MSG_SKEW_MS: int := 5 * 60 * 1000
  const MAX_PER_PEER := 500
  const MAX_SEEN_IDS := 4096

  // ---- the guard, on values ----

  predicate HasId(seen: seq<Mark>, id: Id) {
    exists i :: 0 <= i < |seen| && seen[i].id == id
  }

  ghost predicate DistinctIds(seen: seq<Mark>) {
    forall i, j :: 0 <= i < j < |seen| ==> seen[i].id != seen[j].id
  }

  predicate Fresh(ts: int, now: int) {
    now - ts <= MAX_MSG_AGE_MS && now - ts >= -MAX_MSG_SKEW_MS
  }

  function Prune(seen: seq<Mark>, cutoff: int): (r: seq<Mark>)
    ensures |r| <= |seen|
  {
    if |seen| == 0 then []
    else
      var before, last := Prune(seen[..|seen| - 1], cutoff), seen[|seen| - 1];
      if last.ts < cutoff then before else before + [last]
  }

  /** Room for one more: the oldest-inserted go first. */
  function MakeRoom(seen: seq<Mark>): seq<Mark> {
    if |seen| >= MAX_SEEN_IDS then seen[|seen| - MAX_SEEN_IDS + 1..] else seen
  }

  function Remember(seen: seq<Mark>, m: Mark, now: int): seq<Mark> {
    MakeRoom(Prune(seen, now - MAX_MSG_AGE_MS - MAX_MSG_SKEW_MS)) + [m]
  }

  /** Whether an opened, verified, well-addressed message passes the guard: `checked` is the
      clock at the freshness test. A timestamp that does not parse and an id that is missing
      or empty are None. */
  predicate Admits(seen: seq<Mark>, checked: int, id: Option<Id>, ts: Option<int>) {
    ts.Some? && Fresh(ts.value, checked) && id.Some? && !HasId(seen, id.value)
  }

  lemma PruneNothing(cutoff: int)
    ensures Prune([], cutoff) == []
  {}

  lemma PruneOne(seen: seq<Mark>, n: nat, cutoff: int)
    requires n < |seen|
    ensures Prune(seen[..n + 1], cutoff) == Prune(seen[..n], cutoff) + if seen[n].ts < cutoff then [] else [seen[n]]
  {
    assert seen[..n + 1][..n] == seen[..n];
  }

  // ---- writing out and reading back ----

  predicate Lower(a: Mark, b: Mark) {
    a.id.Index? && b.id.Index? && a.id.n < b.id.n
  }

  function InsertIndex(m: Mark, ms: seq<Mark>): seq<Mark> {
    if |ms| > 0 && Lower(ms[0], m) then [ms[0]] + InsertIndex(m, ms[1..]) else [m] + ms
  }

  function IndexMarks(seen: seq<Mark>): seq<Mark> {
    if |seen| == 0 then []
    else
      var before, last := IndexMarks(seen[..|seen| - 1]), seen[|seen| - 1];
      if last.id.Index? then InsertIndex(last, before) else before
  }

  function NameMarks(seen: seq<Mark>): seq<Mark> {
    if |seen| == 0 then []
    else
      var before, last := NameMarks(seen[..|seen| - 1]), seen[|seen| - 1];
      if last.id.Name? then before + [last] else before
  }

  /** The order of Object.entries: array indices ascending, then the rest as inserted. */
  function Reload(seen: seq<Mark>): seq<Mark> {
    IndexMarks(seen) + NameMarks(seen)
  }

  // ---- the book ----

  function Newest<T>(log: seq<T>, cap: nat): seq<T> {
    if |log| > cap then log[|log| - cap..] else log
  }

  function LogOf<T>(logs: map<string, seq<T>>, peer: string): seq<T> {
    if peer in logs then logs[peer] else []
  }

  class MessageBook<T> {
    var logs: map<string, seq<T>>
    var seen: seq<Mark>

    constructor ()
      ensures logs == map[] && seen == []
    {
      logs, seen := map[], [];
    }

    constructor FromJson(logs: map<string, seq<T>>, stored: seq<Mark>)
      ensures this.logs == logs && seen == Reload(stored)
    {
      this.logs, seen := logs, Reload(stored);
    }

    method Append(peer: string, m: T)
      modifies this`logs
      ensures logs == old(logs)[peer := Newest(LogOf(old(logs), peer) + [m], MAX_PER_PEER)]
    {
      var log := if peer in logs then logs[peer] else [];
      log := log + [m];
      if |log| > MAX_PER_PEER { log := log[|log| - MAX_PER_PEER..]; }
      logs := logs[peer := log];
    }

    method DropOld(cutoff: int)
      modifies this`seen
      ensures seen == Prune(old(seen), cutoff)
    {
      hide Prune;
      ghost var was := seen;
      var i, done, total := 0, 0, |seen|;
      PruneNothing(cutoff);
      while done < total
        invariant 0 <= i <= done <= total == |was| && i <= |seen|
        invariant seen[..i] == Prune(was[..done], cutoff) && seen[i..] == was[done..]
      {
        PruneOne(was, done, cutoff);
        assert seen[i] == seen[i..][0] == was[done];
        if seen[i].ts < cutoff {
          seen := seen[..i] + seen[i + 1..];
        } else {
          i := i + 1;
        }
        done := done + 1;
      }
      assert was[..done] == was && seen[..i] == seen;
    }

    method MarkSeen(id: Id, ts: int, now: int) returns (isNew: bool)
      modifies this`seen
      ensures isNew == !HasId(old(seen), id)
      ensures seen == if isNew then Remember(old(seen), Mark(id, ts), now) else old(seen)
    {
      hide Prune;
      if HasId(seen, id) { return false; }
      DropOld(now - MAX_MSG_AGE_MS - MAX_MSG_SKEW_MS);
      ghost var pruned := seen;
      ghost var dropped := 0;
      while |seen| >= MAX_SEEN_IDS
        invariant 0 <= dropped <= |pruned| && seen == pruned[dropped..]
        invariant dropped > 0 ==> |seen| >= MAX_SEEN_IDS - 1
      {
        seen := seen[1..];
        dropped := dropped + 1;
      }
      seen := seen + [Mark(id, ts)];
      isNew := true;
    }

    /** The guarded part of opening an inbound message. */
    method Guard(id: Option<Id>, ts: Option<int>, checked: int, marked: int) returns (ok: bool)
      modifies this`seen
      ensures ok == Admits(old(seen), checked, id, ts)
      ensures seen == if ok then Remember(old(seen), Mark(id.value, ts.value), marked) else old(seen)
    {
      if ts.None? { return false; }
      var age := checked - ts.value;
      if age > MAX_MSG_AGE_MS || age < -MAX_MSG_SKEW_MS { return false; }
      if id.None? { return false; }
      ok := MarkSeen(id.value, ts.value, marked);
    }
  }

  // ---- a log keeps the newest ----

  function Appended<T>(log: seq<T>, ms: seq<T>): seq<T> {
    if |ms| == 0 then log else Newest(Appended(log, ms[..|ms| - 1]) + [ms[|ms| - 1]], MAX_PER_PEER)
  }

  /** After any appends a log holds the newest 500 of all messages there ever were, in order. */
  lemma {:induction false} LogKeepsNewest<T>(ms: seq<T>)
    ensures Appended([], ms) == if |ms| > 500 then ms[|ms| - 500..] else ms
  {
    if |ms| > 0 {
      var before := ms[..|ms| - 1];
      LogKeepsNewest(before);
      assert ms == before + [ms[|ms| - 1]];
      if |before| > MAX_PER_PEER {
        var k := |before| - MAX_PER_PEER;
        assert before[k..] + [ms[|ms| - 1]] == ms[k..];
        assert ms[k..][1..] == ms[k + 1..];
      }
    }
  }
}
