/** The edge of the breaker's window: which intervals closed at both ends keep to the limit. */
module BreakerEdge {
  import opened Wrappers
  import opened Heal
  import opened SelfHeal
  import opened Breaker
  import opened DaemonRuns

  /** Attempts on a peer from `lo` to `hi`, both ends included. */
  function CountClosed(h: seq<ActionRecord>, peer: Key, lo: int, hi: int): nat {
    CountWithin(h, peer, lo - 1, hi)
  }

  lemma {:induction false} CountMonotone(h: seq<ActionRecord>, peer: Key, lo: int, hi: int, lo': int, hi': int)
    requires lo' <= lo && hi <= hi'
    ensures CountWithin(h, peer, lo, hi) <= CountWithin(h, peer, lo', hi')
  {
    if |h| > 0 { CountMonotone(h[..|h| - 1], peer, lo, hi, lo', hi'); }
  }

  lemma {:induction false} CountJoin(h: seq<ActionRecord>, peer: Key, lo: int, mid: int, hi: int)
    requires lo <= mid <= hi
    ensures CountWithin(h, peer, lo, hi) == CountWithin(h, peer, lo, mid) + CountWithin(h, peer, mid, hi)
  {
    if |h| > 0 { CountJoin(h[..|h| - 1], peer, lo, mid, hi); }
  }

  /** A closed interval shorter than the window keeps to the limit. */
  lemma ShorterKeepsLimit(cs: seq<Cycle>, s: Setup, peer: Key, lo: int, length: int)
    requires Ordered(cs) && DistinctReads(cs) && s.cfg.maxReResolve >= 1 && length < s.cfg.window
    ensures CountClosed(Attempts(cs, s), peer, lo, lo + length) <= s.cfg.maxReResolve
  {
    hide CountWithin, Attempts;
    BreakerHolds(cs, s, peer, lo + length);
    CountMonotone(Attempts(cs, s), peer, lo - 1, lo + length, lo + length - s.cfg.window, lo + length);
  }

  /** A closed interval as long as the window holds at most twice the limit. */
  lemma ClosedHoldsTwice(cs: seq<Cycle>, s: Setup, peer: Key, lo: int)
    requires Ordered(cs) && DistinctReads(cs) && s.cfg.maxReResolve >= 1 && s.cfg.window > 0
    ensures CountClosed(Attempts(cs, s), peer, lo, lo + s.cfg.window) <= 2 * s.cfg.maxReResolve
  {
    hide CountWithin, Attempts;
    BreakerHolds(cs, s, peer, lo + s.cfg.window);
    ShorterKeepsLimit(cs, s, peer, lo, 0);
    CountJoin(Attempts(cs, s), peer, lo - 1, lo, lo + s.cfg.window);
  }

  // ---- a run that reaches twice the limit ----

  const K: Key := [107]

  /** What a tick reads: the one peer, its handshake just old enough to be acted on. */
  function Dead(t: int, cfg: Config): Cycle {
    Cycle(t, Some([PeerState(K, [], [], Some(t - cfg.staleness), "e")]))
  }

  /** What the first tick reads: the same peer, healthy. */
  function Alive(t: int, cfg: Config): Cycle {
    var age := (if cfg.staleAfter < cfg.degradedAfter then cfg.staleAfter else cfg.degradedAfter) - 1;
    Cycle(t, Some([PeerState(K, [], [], Some(t - age), "e")]))
  }

  function Ticks(t: int, n: nat, cfg: Config): seq<Cycle> {
    if n == 0 then [] else Ticks(t, n - 1, cfg) + [Dead(t, cfg)]
  }

  function Tries(t: int, n: nat): seq<ActionRecord> {
    if n == 0 then [] else Tries(t, n - 1) + [ActionRecord(K, ReResolve, t)]
  }

  lemma SoloCache(l: Loop, now: int, p: PeerState, cfg: Config)
    ensures Cached(NewCache(l, now, [p], cfg), p.publicKey) ==
            if Healthy(p, now, cfg) && p.endpoint != "" then Some(p.endpoint) else Cached(l.cache, p.publicKey)
  {
    hide CacheHealthy, Statuses, Healthy;
    assert [p][0].publicKey == p.publicKey;
    KeysAreRead(now, [p], l.memo, cfg, p.publicKey);
    CacheHit(PruneCache(l.cache, Statuses(now, [p], l.memo, cfg)), now, [p], l.memo, cfg, 0);
  }

  lemma SoloPush(cache: map<Key, string>, now: int, p: PeerState, h: seq<ActionRecord>, s: Setup)
    ensures Pushes(cache, Decide(now, s.role, [p], h, s.cfg), s.dryRun) ==
            if Staleness(p, now) >= s.cfg.staleness && CountAfter(h, p.publicKey, ReResolve, now - s.cfg.window) < s.cfg.maxReResolve
               && p.publicKey in cache && !s.dryRun
            then [Push(p.publicKey, cache[p.publicKey])] else []
  {
    hide CountAfter;
    assert [p][..0] == [];
    var a := DecidePeer(now, s.role, p, h, s.cfg);
    assert [a][..0] == [];
  }

  /** One tick of a dead peer with a cached endpoint and room in its window: one attempt. */
  lemma DeadTick(f: Loop, t: int, s: Setup)
    requires !s.dryRun && Cached(f.cache, K).Some?
    requires CountAfter(f.history, K, ReResolve, t - s.cfg.window) < s.cfg.maxReResolve
    ensures var f' := NextFull(f, Dead(t, s.cfg), s);
            Cached(f'.cache, K).Some? && f'.history == f.history + [ActionRecord(K, ReResolve, t)]
  {
    hide CountAfter, Pushes, Decide, NewCache, NextMemo, Healthy;
    var p := Dead(t, s.cfg).read.value[0];
    SoloCache(f, t, p, s.cfg);
    SoloPush(NewCache(f, t, [p], s.cfg), t, p, f.history, s);
  }

  /** The first tick caches the endpoint, and attempts at most once. */
  lemma AliveTick(t: int, s: Setup)
    ensures var f := NextFull(START, Alive(t, s.cfg), s);
            Cached(f.cache, K).Some? && (f.history == [] || f.history == [ActionRecord(K, ReResolve, t)])
  {
    hide CountAfter, Pushes, Decide, NewCache, NextMemo;
    var p := Alive(t, s.cfg).read.value[0];
    SoloCache(START, t, p, s.cfg);
    SoloPush(NewCache(START, t, [p], s.cfg), t, p, [], s);
  }

  lemma {:induction false} CountTries(t: int, n: nat, cutoff: int)
    ensures CountAfter(Tries(t, n), K, ReResolve, cutoff) == if t > cutoff then n else 0
  {
    if n > 0 {
      CountTries(t, n - 1, cutoff);
      assert Tries(t, n)[..|Tries(t, n)| - 1] == Tries(t, n - 1);
    }
  }

  lemma {:induction false} WithinTries(t: int, n: nat, lo: int, hi: int)
    ensures CountWithin(Tries(t, n), K, lo, hi) == if lo < t <= hi then n else 0
  {
    if n > 0 {
      WithinTries(t, n - 1, lo, hi);
      assert Tries(t, n)[..|Tries(t, n)| - 1] == Tries(t, n - 1);
    }
  }

  lemma {:induction false} WithinConcat(a: seq<ActionRecord>, b: seq<ActionRecord>, lo: int, hi: int)
    ensures CountWithin(a + b, K, lo, hi) == CountWithin(a, K, lo, hi) + CountWithin(b, K, lo, hi)
  {
    if |b| == 0 {
      assert a + b == a;
    } else {
      assert (a + b)[..|a + b| - 1] == a + b[..|b| - 1];
      WithinConcat(a, b[..|b| - 1], lo, hi);
    }
  }

  lemma FullOne(before: seq<Cycle>, c: Cycle, s: Setup)
    ensures RunFull(before + [c], s) == NextFull(RunFull(before, s), c, s)
  {
    hide NextFull;
    assert (before + [c])[..|before|] == before;
  }

  /** As many attempts as the limit allows, all at one time. */
  lemma {:induction false} Fill(before: seq<Cycle>, t: int, n: nat, s: Setup)
    requires !s.dryRun && s.cfg.window > 0 && n <= s.cfg.maxReResolve && Cached(RunFull(before, s).cache, K).Some?
    requires CountAfter(RunFull(before, s).history, K, ReResolve, t - s.cfg.window) == 0
    ensures var f := RunFull(before + Ticks(t, n, s.cfg), s);
            Cached(f.cache, K).Some? && f.history == RunFull(before, s).history + Tries(t, n)
  {
    hide CountAfter, NextFull, RunFull, Dead;
    var h := RunFull(before, s).history;
    if n == 0 {
      assert before + [] == before && h + [] == h;
    } else {
      var longer := before + Ticks(t, n - 1, s.cfg);
      Fill(before, t, n - 1, s);
      CountConcat(h, Tries(t, n - 1), K, ReResolve, t - s.cfg.window);
      CountTries(t, n - 1, t - s.cfg.window);
      DeadTick(RunFull(longer, s), t, s);
      FullOne(longer, Dead(t, s.cfg), s);
      assert longer + [Dead(t, s.cfg)] == before + Ticks(t, n, s.cfg);
      assert h + Tries(t, n - 1) + [ActionRecord(K, ReResolve, t)] == h + Tries(t, n);
    }
  }

  /** A healthy tick, and then twice as many dead ones as the limit, one window apart. */
  function Burst(s: Setup): seq<Cycle>
    requires s.cfg.maxReResolve >= 0
  {
    [Alive(-s.cfg.window - 1, s.cfg)] + Ticks(0, s.cfg.maxReResolve, s.cfg) + Ticks(s.cfg.window, s.cfg.maxReResolve, s.cfg)
  }

  lemma {:induction false} TicksAre(t: int, n: nat, cfg: Config)
    ensures |Ticks(t, n, cfg)| == n && forall i :: 0 <= i < n ==> Ticks(t, n, cfg)[i] == Dead(t, cfg)
  {
    if n > 0 { TicksAre(t, n - 1, cfg); }
  }

  lemma BurstInOrder(s: Setup)
    requires s.cfg.maxReResolve >= 1 && s.cfg.window > 0
    ensures Ordered(Burst(s)) && DistinctReads(Burst(s))
  {
    hide Ticks;
    TicksAre(0, s.cfg.maxReResolve, s.cfg);
    TicksAre(s.cfg.window, s.cfg.maxReResolve, s.cfg);
  }

  lemma BurstHistory(s: Setup)
    requires s.cfg.maxReResolve >= 1 && s.cfg.window > 0 && !s.dryRun
    ensures exists first :: (first == [] || first == [ActionRecord(K, ReResolve, -s.cfg.window - 1)])
              && RunFull(Burst(s), s).history == first + Tries(0, s.cfg.maxReResolve) + Tries(s.cfg.window, s.cfg.maxReResolve)
  {
    hide CountAfter, NextFull, RunFull, Ticks, Tries;
    var m, w := s.cfg.maxReResolve, s.cfg.window;
    var c0 := Alive(-w - 1, s.cfg);
    NoCycles(s);
    FullOne([], c0, s);
    assert [] + [c0] == [c0];
    AliveTick(-w - 1, s);
    var first := RunFull([c0], s).history;
    OneCount(first, -w - 1, -w);
    OneCount(first, -w - 1, 0);
    Fill([c0], 0, m, s);
    CountConcat(first, Tries(0, m), K, ReResolve, 0);
    CountTries(0, m, 0);
    Fill([c0] + Ticks(0, m, s.cfg), w, m, s);
  }

  lemma NoCycles(s: Setup)
    ensures RunFull([], s) == START
  {}

  lemma OneCount(h: seq<ActionRecord>, t: int, cutoff: int)
    requires (h == [] || h == [ActionRecord(K, ReResolve, t)]) && t <= cutoff
    ensures CountAfter(h, K, ReResolve, cutoff) == 0
  {
    if |h| > 0 { assert h[..0] == []; }
  }

  /** Twice the limit is reached, whatever the configuration. */
  lemma TwiceReached(s: Setup, length: int)
    requires s.cfg.maxReResolve >= 1 && s.cfg.window > 0 && !s.dryRun && length >= s.cfg.window
    ensures Ordered(Burst(s)) && DistinctReads(Burst(s))
    ensures CountClosed(Attempts(Burst(s), s), K, 0, length) == 2 * s.cfg.maxReResolve
  {
    hide CountWithin, RunFull, Tries, Burst, Attempts, RunLoop, Matches;
    var m, w, cs := s.cfg.maxReResolve, s.cfg.window, Burst(s);
    BurstInOrder(s);
    BurstHistory(s);
    var first :| (first == [] || first == [ActionRecord(K, ReResolve, -w - 1)])
              && RunFull(cs, s).history == first + Tries(0, m) + Tries(w, m);
    PrunedRunRefines(cs, s, if |cs| > 0 then cs[|cs| - 1].now - w else 0);
    WithinConcat(first + Tries(0, m), Tries(w, m), -1, length);
    WithinConcat(first, Tries(0, m), -1, length);
    WithinTries(0, m, -1, length);
    WithinTries(w, m, -1, length);
    OneWithin(first, -w - 1, -1, length);
  }

  lemma OneWithin(h: seq<ActionRecord>, t: int, lo: int, hi: int)
    requires (h == [] || h == [ActionRecord(K, ReResolve, t)]) && t <= lo
    ensures CountWithin(h, K, lo, hi) == 0
  {
    if |h| > 0 { assert h[..0] == []; }
  }

  predicate InLimit(cs: seq<Cycle>, s: Setup, peer: Key, lo: int, length: int) {
    CountClosed(Attempts(cs, s), peer, lo, lo + length) <= s.cfg.maxReResolve
  }

  /** Every run keeps every closed interval of a length within the limit. */
  ghost predicate KeepsLimit(s: Setup, length: int) {
    forall cs, peer, lo :: Ordered(cs) && DistinctReads(cs) ==> InLimit(cs, s, peer, lo, length)
  }

  /** For every daemon that may act: the closed intervals that keep to the limit in all runs
      are exactly those shorter than the window. */
  lemma KeepsLimitIffShorter(s: Setup, length: int)
    requires s.cfg.maxReResolve >= 1 && s.cfg.window > 0 && !s.dryRun
    ensures KeepsLimit(s, length) <==> length < s.cfg.window
  {
    hide CountClosed, Attempts, Burst, Ordered, DistinctReads;
    if length < s.cfg.window {
      forall cs, peer, lo | Ordered(cs) && DistinctReads(cs)
        ensures InLimit(cs, s, peer, lo, length)
      {
        ShorterKeepsLimit(cs, s, peer, lo, length);
      }
    } else {
      TwiceReached(s, length);
      assert !InLimit(Burst(s), s, K, 0, length);
    }
  }
}
