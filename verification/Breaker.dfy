/** The circuit breaker over whole runs of the daemon: pruning is invisible, and no peer is
    re-asserted more often than the limit in any window. */
module Breaker {
  import opened Wrappers
  import opened Heal
  import opened SelfHeal

  // ---- runs ----

  function RunLoop(cs: seq<Cycle>, s: Setup): Loop {
    if |cs| == 0 then START else NextLoop(RunLoop(cs[..|cs| - 1], s), cs[|cs| - 1], s)
  }

  /** Every re-assert attempt of the run, in order: nothing is ever dropped from it. */
  function Attempts(cs: seq<Cycle>, s: Setup): seq<ActionRecord> {
    if |cs| == 0 then []
    else
      var before, c := cs[..|cs| - 1], cs[|cs| - 1];
      Attempts(before, s) + Records(TickPushes(RunLoop(before, s), c, s), c.now)
  }

  /** The same tick with a history that is never pruned. */
  function NextFull(l: Loop, c: Cycle, s: Setup): Loop {
    if c.read.None? then l
    else
      var cache := NewCache(l, c.now, c.read.value, s.cfg);
      var actions := Decide(c.now, s.role, c.read.value, l.history, s.cfg);
      Loop(NextMemo(c.now, c.read.value, l.memo, s.cfg), cache, l.history + Records(Pushes(cache, actions, s.dryRun), c.now))
  }

  function RunFull(cs: seq<Cycle>, s: Setup): Loop {
    if |cs| == 0 then START else NextFull(RunFull(cs[..|cs| - 1], s), cs[|cs| - 1], s)
  }

  ghost predicate Ordered(cs: seq<Cycle>) {
    forall i, j :: 0 <= i < j < |cs| ==> cs[i].now <= cs[j].now
  }

  ghost predicate DistinctPeers(ps: seq<PeerState>) {
    forall i, j :: 0 <= i < j < |ps| ==> ps[i].publicKey != ps[j].publicKey
  }

  ghost predicate DistinctReads(cs: seq<Cycle>) {
    forall i :: 0 <= i < |cs| && cs[i].read.Some? ==> DistinctPeers(cs[i].read.value)
  }

  // ---- pruning is invisible ----

  lemma {:induction false} CountConcat(a: seq<ActionRecord>, b: seq<ActionRecord>, peer: Key, kind: ActionKind, cutoff: int)
    ensures CountAfter(a + b, peer, kind, cutoff) == CountAfter(a, peer, kind, cutoff) + CountAfter(b, peer, kind, cutoff)
  {
    if |b| == 0 {
      assert a + b == a;
    } else {
      assert (a + b)[..|a + b| - 1] == a + b[..|b| - 1];
      CountConcat(a, b[..|b| - 1], peer, kind, cutoff);
    }
  }

  lemma {:induction false} PruneKeepsCount(h: seq<ActionRecord>, past: int, peer: Key, kind: ActionKind, cutoff: int)
    requires past <= cutoff
    ensures CountAfter(After(h, past), peer, kind, cutoff) == CountAfter(h, peer, kind, cutoff)
  {
    if |h| > 0 {
      var before := After(h[..|h| - 1], past);
      PruneKeepsCount(h[..|h| - 1], past, peer, kind, cutoff);
      assert (before + [h[|h| - 1]])[..|before|] == before;
    }
  }

  /** Decisions taken on the pruned history are those taken on the whole of it, at the
      pruning tick and at any later one. */
  lemma {:induction false} PruneKeepsDecisions(now: int, role: Role, ps: seq<PeerState>, h: seq<ActionRecord>, cutoff: int, cfg: Config)
    requires cutoff <= now - cfg.window
    ensures Decide(now, role, ps, After(h, cutoff), cfg) == Decide(now, role, ps, h, cfg)
  {
    if |ps| > 0 {
      var p := ps[|ps| - 1];
      PruneKeepsDecisions(now, role, ps[..|ps| - 1], h, cutoff, cfg);
      PruneKeepsCount(h, cutoff, p.publicKey, ReResolve, now - cfg.window);
      PruneKeepsCount(h, cutoff, p.publicKey, BounceInterface, now - cfg.window);
    }
  }

  lemma {:induction false} AfterAfter(h: seq<ActionRecord>, a: int, b: int)
    requires a <= b
    ensures After(After(h, a), b) == After(h, b)
  {
    if |h| > 0 {
      var before := After(h[..|h| - 1], a);
      AfterAfter(h[..|h| - 1], a, b);
      assert (before + [h[|h| - 1]])[..|before|] == before;
    }
  }

  lemma {:induction false} AfterConcat(a: seq<ActionRecord>, b: seq<ActionRecord>, cutoff: int)
    ensures After(a + b, cutoff) == After(a, cutoff) + After(b, cutoff)
  {
    if |b| == 0 {
      assert a + b == a;
    } else {
      assert (a + b)[..|a + b| - 1] == a + b[..|b| - 1];
      AfterConcat(a, b[..|b| - 1], cutoff);
    }
  }

  /** What the pruned loop pushes at the next tick is what the unpruned one would. */
  lemma SamePushes(l: Loop, f: Loop, c: Cycle, s: Setup)
    requires l.memo == f.memo && l.cache == f.cache && c.read.Some?
    requires After(l.history, c.now - s.cfg.window) == After(f.history, c.now - s.cfg.window)
    ensures TickPushes(l, c, s) ==
            Pushes(NewCache(f, c.now, c.read.value, s.cfg), Decide(c.now, s.role, c.read.value, f.history, s.cfg), s.dryRun)
  {
    hide Pushes, Decide, After, CacheHealthy, PruneCache;
    PruneKeepsDecisions(c.now, s.role, c.read.value, f.history, c.now - s.cfg.window, s.cfg);
  }

  /** Same memo, same cache, same records after `cutoff`. */
  ghost predicate Matches(l: Loop, f: Loop, cutoff: int) {
    l.memo == f.memo && l.cache == f.cache && After(l.history, cutoff) == After(f.history, cutoff)
  }

  lemma StepMatches(l: Loop, f: Loop, c: Cycle, s: Setup, cutoff: int)
    requires Matches(l, f, cutoff) && Matches(l, f, c.now - s.cfg.window) && cutoff >= c.now - s.cfg.window
    ensures Matches(NextLoop(l, c, s), NextFull(f, c, s), cutoff)
    ensures NextFull(f, c, s).history == f.history + Records(TickPushes(l, c, s), c.now)
  {
    hide Pushes, Decide, After, CacheHealthy, PruneCache, NextMemo, TickPushes, NewCache;
    if c.read.None? {
      NoPushes(l, c, s);
      assert f.history + [] == f.history;
    } else {
      var cut := c.now - s.cfg.window;
      SamePushes(l, f, c, s);
      SameCache(l, f, c, s);
      var r := Records(TickPushes(l, c, s), c.now);
      AfterConcat(After(l.history, cut), r, cutoff);
      AfterConcat(f.history, r, cutoff);
      AfterAfter(l.history, cut, cutoff);
    }
  }

  lemma SameCache(l: Loop, f: Loop, c: Cycle, s: Setup)
    requires l.memo == f.memo && l.cache == f.cache && c.read.Some?
    ensures NewCache(l, c.now, c.read.value, s.cfg) == NewCache(f, c.now, c.read.value, s.cfg)
  {
    hide CacheHealthy, PruneCache;
  }

  /** The daemon refines the one that never prunes: same memo, same cache, same attempts,
      and the same records after any cutoff a later tick can ask for. */
  lemma {:induction false} PrunedRunRefines(cs: seq<Cycle>, s: Setup, cutoff: int)
    requires Ordered(cs) && (|cs| > 0 ==> cutoff >= cs[|cs| - 1].now - s.cfg.window)
    ensures Matches(RunLoop(cs, s), RunFull(cs, s), cutoff)
    ensures Attempts(cs, s) == RunFull(cs, s).history
  {
    hide NextLoop, NextFull, Matches, TickPushes;
    if |cs| == 0 {
      StartMatches(cutoff);
    } else {
      var before, c := cs[..|cs| - 1], cs[|cs| - 1];
      PrunedRunRefines(before, s, cutoff);
      PrunedRunRefines(before, s, c.now - s.cfg.window);
      StepMatches(RunLoop(before, s), RunFull(before, s), c, s, cutoff);
    }
  }

  lemma StartMatches(cutoff: int)
    ensures Matches(START, START, cutoff)
  {}

  lemma NoPushes(l: Loop, c: Cycle, s: Setup)
    requires c.read.None?
    ensures TickPushes(l, c, s) == []
  {}

  // ---- the limit ----

  /** Each attempt found fewer than the limit in the window before it. */
  ghost predicate Spaced(h: seq<ActionRecord>, cfg: Config) {
    forall i :: 0 <= i < |h| ==>
      h[i].kind == ReResolve && CountAfter(h[..i], h[i].peer, ReResolve, h[i].at - cfg.window) < cfg.maxReResolve
  }

  lemma SpacedExtend(h: seq<ActionRecord>, r: ActionRecord, cfg: Config)
    requires Spaced(h, cfg)
    requires r.kind == ReResolve && CountAfter(h, r.peer, ReResolve, r.at - cfg.window) < cfg.maxReResolve
    ensures Spaced(h + [r], cfg)
  {
    hide CountAfter;
    var g := h + [r];
    assert g[..|h|] == h;
    forall i | 0 <= i < |g|
      ensures g[i].kind == ReResolve && CountAfter(g[..i], g[i].peer, ReResolve, g[i].at - cfg.window) < cfg.maxReResolve
    {
      if i < |h| { assert g[..i] == h[..i]; }
    }
  }

  lemma {:induction false} CountAbsent(h: seq<ActionRecord>, peer: Key, cutoff: int)
    requires forall i :: 0 <= i < |h| ==> h[i].peer != peer
    ensures CountAfter(h, peer, ReResolve, cutoff) == 0
  {
    if |h| > 0 { CountAbsent(h[..|h| - 1], peer, cutoff); }
  }

  ghost predicate Read(ps: seq<PeerState>, peer: Key) {
    exists j :: 0 <= j < |ps| && ps[j].publicKey == peer
  }

  ghost predicate From(pushes: seq<Push>, ps: seq<PeerState>) {
    forall i :: 0 <= i < |pushes| ==> Read(ps, pushes[i].peer)
  }

  /** One tick on distinct peers: at most one attempt per peer, each within the limit. */
  lemma {:induction false} SpacedTick(h: seq<ActionRecord>, cache: map<Key, string>, ps: seq<PeerState>, now: int, s: Setup)
    requires Spaced(h, s.cfg) && DistinctPeers(ps)
    ensures var pushes := Pushes(cache, Decide(now, s.role, ps, h, s.cfg), s.dryRun);
            Spaced(h + Records(pushes, now), s.cfg) && From(pushes, ps)
  {
    hide Spaced, CountAfter;
    if |ps| == 0 {
      assert h + Records([], now) == h;
    } else {
      var m, p := |ps| - 1, ps[|ps| - 1];
      var acts := Decide(now, s.role, ps[..m], h, s.cfg);
      var before := Pushes(cache, acts, s.dryRun);
      var after := Pushes(cache, Decide(now, s.role, ps, h, s.cfg), s.dryRun);
      SpacedTick(h, cache, ps[..m], now, s);
      PushOne(cache, ps, h, now, s);
      if after != before {
        var r := ActionRecord(p.publicKey, ReResolve, now);
        var cutoff := now - s.cfg.window;
        forall i | 0 <= i < |before| ensures Records(before, now)[i].peer != p.publicKey {
          assert Read(ps[..m], before[i].peer);
          var j :| 0 <= j < |ps[..m]| && ps[..m][j].publicKey == before[i].peer;
        }
        CountConcat(h, Records(before, now), p.publicKey, ReResolve, cutoff);
        CountAbsent(Records(before, now), p.publicKey, cutoff);
        SpacedExtend(h + Records(before, now), r, s.cfg);
        assert h + Records(after, now) == h + Records(before, now) + [r];
      }
      FromGrows(before, after, if p.publicKey in cache then cache[p.publicKey] else "", ps);
    }
  }

  lemma FromGrows(before: seq<Push>, after: seq<Push>, endpoint: string, ps: seq<PeerState>)
    requires |ps| > 0 && From(before, ps[..|ps| - 1])
    requires after == before || after == before + [Push(ps[|ps| - 1].publicKey, endpoint)]
    ensures From(after, ps)
  {
    forall i | 0 <= i < |after| ensures Read(ps, after[i].peer) {
      if i < |before| {
        assert Read(ps[..|ps| - 1], before[i].peer);
        var j :| 0 <= j < |ps| - 1 && ps[..|ps| - 1][j].publicKey == before[i].peer;
        assert ps[j].publicKey == after[i].peer;
      } else {
        var j := |ps| - 1;
        assert ps[j].publicKey == after[i].peer;
      }
    }
  }

  /** The last peer of a read adds a push only when the count is below the limit. */
  lemma PushOne(cache: map<Key, string>, ps: seq<PeerState>, h: seq<ActionRecord>, now: int, s: Setup)
    requires |ps| > 0
    ensures var m, p := |ps| - 1, ps[|ps| - 1];
            var before := Pushes(cache, Decide(now, s.role, ps[..m], h, s.cfg), s.dryRun);
            var after := Pushes(cache, Decide(now, s.role, ps, h, s.cfg), s.dryRun);
            || after == before
            || (p.publicKey in cache && after == before + [Push(p.publicKey, cache[p.publicKey])]
                && CountAfter(h, p.publicKey, ReResolve, now - s.cfg.window) < s.cfg.maxReResolve)
  {
    hide CountAfter;
    var m, p := |ps| - 1, ps[|ps| - 1];
    var acts := Decide(now, s.role, ps[..m], h, s.cfg);
    var a := DecidePeer(now, s.role, p, h, s.cfg);
    assert (acts + [a])[..|acts|] == acts;
  }

  lemma {:induction false} AttemptsSpaced(cs: seq<Cycle>, s: Setup)
    requires DistinctReads(cs)
    ensures Spaced(RunFull(cs, s).history, s.cfg)
  {
    hide Spaced, Pushes, Decide;
    if |cs| == 0 {
      SpacedNil(s.cfg);
    } else {
      var before, c := cs[..|cs| - 1], cs[|cs| - 1];
      AttemptsSpaced(before, s);
      var f := RunFull(before, s);
      if c.read.Some? {
        assert DistinctPeers(c.read.value) by { assert cs[|cs| - 1].read.Some?; }
        SpacedTick(f.history, NewCache(f, c.now, c.read.value, s.cfg), c.read.value, c.now, s);
      }
    }
  }

  lemma SpacedNil(cfg: Config)
    ensures Spaced([], cfg)
  {}

  function CountWithin(h: seq<ActionRecord>, peer: Key, lo: int, hi: int): nat {
    if |h| == 0 then 0
    else
      var r := h[|h| - 1];
      CountWithin(h[..|h| - 1], peer, lo, hi) + if r.peer == peer && lo < r.at <= hi then 1 else 0
  }

  lemma {:induction false} WithinIsAfter(h: seq<ActionRecord>, peer: Key, lo: int, hi: int, cutoff: int)
    requires cutoff <= lo && forall i :: 0 <= i < |h| ==> h[i].kind == ReResolve
    ensures CountWithin(h, peer, lo, hi) <= CountAfter(h, peer, ReResolve, cutoff)
  {
    if |h| > 0 { WithinIsAfter(h[..|h| - 1], peer, lo, hi, cutoff); }
  }

  lemma SpacedPrefix(h: seq<ActionRecord>, cfg: Config)
    requires Spaced(h, cfg) && |h| > 0
    ensures var m, r := |h| - 1, h[|h| - 1];
            && Spaced(h[..m], cfg) && (forall i :: 0 <= i < |h| ==> h[i].kind == ReResolve)
            && CountAfter(h[..m], r.peer, ReResolve, r.at - cfg.window) < cfg.maxReResolve
  {
    hide CountAfter;
    var m := |h| - 1;
    forall i | 0 <= i < m
      ensures h[..m][i].kind == ReResolve && CountAfter(h[..m][..i], h[..m][i].peer, ReResolve, h[..m][i].at - cfg.window) < cfg.maxReResolve
    {
      assert h[..m][..i] == h[..i];
    }
  }

  lemma {:induction false} SpacedBounds(h: seq<ActionRecord>, peer: Key, hi: int, cfg: Config)
    requires Spaced(h, cfg)
    ensures CountWithin(h, peer, hi - cfg.window, hi) <= if cfg.maxReResolve > 0 then cfg.maxReResolve else 0
  {
    hide Spaced, CountAfter;
    if |h| > 0 {
      var m, r := |h| - 1, h[|h| - 1];
      SpacedPrefix(h, cfg);
      SpacedBounds(h[..m], peer, hi, cfg);
      if r.peer == peer && hi - cfg.window < r.at <= hi {
        WithinIsAfter(h[..m], peer, hi - cfg.window, hi, r.at - cfg.window);
      }
    }
  }

  /** In any run with an ordered clock and one entry per peer in each read, every window of
      the breaker's length, open at its start, holds at most the limit of attempts. */
  lemma BreakerHolds(cs: seq<Cycle>, s: Setup, peer: Key, hi: int)
    requires Ordered(cs) && DistinctReads(cs)
    ensures CountWithin(Attempts(cs, s), peer, hi - s.cfg.window, hi) <= if s.cfg.maxReResolve > 0 then s.cfg.maxReResolve else 0
  {
    hide CountWithin, Spaced, Attempts, RunFull, RunLoop, Matches;
    PrunedRunRefines(cs, s, if |cs| > 0 then cs[|cs| - 1].now - s.cfg.window else 0);
    AttemptsSpaced(cs, s);
    SpacedBounds(RunFull(cs, s).history, peer, hi, s.cfg);
  }
}
