/** Whole runs of the daemon: the ladder of a peer present at every read, the endpoint cache,
    and the event stream as a delta of the memo. */
module DaemonRuns {
  import opened Wrappers
  import opened Heal
  import opened SelfHeal
  import opened Breaker
  import opened HealthLadder
  import A = Alert

  // ---- one read, looked at peer by peer ----

  lemma {:induction false} MemoAt(now: int, ps: seq<PeerState>, prev: map<Key, PeerMemo>, cfg: Config, i: nat)
    requires i < |ps| && DistinctPeers(ps)
    ensures ps[i].publicKey in NextMemo(now, ps, prev, cfg)
    ensures NextMemo(now, ps, prev, cfg)[ps[i].publicKey] == StepPeer(now, ps[i], MemoOf(prev, ps[i].publicKey), cfg)
  {
    hide StepPeer;
    if i < |ps| - 1 { MemoAt(now, ps[..|ps| - 1], prev, cfg, i); }
  }

  lemma {:induction false} MemoKeys(now: int, ps: seq<PeerState>, prev: map<Key, PeerMemo>, cfg: Config, k: Key)
    ensures k in NextMemo(now, ps, prev, cfg) <==> Read(ps, k)
  {
    hide StepPeer;
    if |ps| > 0 {
      var m := |ps| - 1;
      MemoKeys(now, ps[..m], prev, cfg, k);
      if ps[m].publicKey == k {
        assert Read(ps, k);
      } else if Read(ps, k) {
        var i :| 0 <= i < |ps| && ps[i].publicKey == k;
        assert ps[..m][i].publicKey == k;
      }
    }
  }

  // ---- the ladder ----

  ghost predicate AlwaysRead(cs: seq<Cycle>, k: Key) {
    forall i :: 0 <= i < |cs| && cs[i].read.Some? ==> Read(cs[i].read.value, k)
  }

  ghost function Entry(ps: seq<PeerState>, k: Key): (p: PeerState)
    requires Read(ps, k)
    ensures p in ps && p.publicKey == k
  {
    var i :| 0 <= i < |ps| && ps[i].publicKey == k;
    ps[i]
  }

  /** What the successful reads of a run saw of one peer. */
  ghost function Sights(cs: seq<Cycle>, k: Key): seq<Sight>
    requires AlwaysRead(cs, k)
  {
    if |cs| == 0 then []
    else
      var before, c := cs[..|cs| - 1], cs[|cs| - 1];
      if c.read.None? then Sights(before, k) else Sights(before, k) + [Sight(c.now, Entry(c.read.value, k))]
  }

  lemma {:induction false} MemoAfterPrefix(start: PeerMemo, a: seq<Sight>, b: seq<Sight>, n: nat, cfg: Config)
    requires n <= |a|
    ensures MemoAfter(start, a + b, n, cfg) == MemoAfter(start, a, n, cfg)
  {
    if n > 0 { MemoAfterPrefix(start, a, b, n - 1, cfg); }
  }

  /** The memo of a peer present at every read is the ladder walked over what was seen of it;
      failed reads leave no trace. */
  lemma {:induction false} RunWalksLadder(cs: seq<Cycle>, s: Setup, k: Key)
    requires DistinctReads(cs) && AlwaysRead(cs, k)
    ensures MemoOf(RunLoop(cs, s).memo, k) == MemoAfter(FIRST_SEEN, Sights(cs, k), |Sights(cs, k)|, s.cfg)
  {
    hide TickPushes, NewCache, After, StepPeer;
    if |cs| > 0 {
      var before, c := cs[..|cs| - 1], cs[|cs| - 1];
      RunWalksLadder(before, s, k);
      if c.read.Some? {
        var ps, seen := c.read.value, Sights(before, k);
        var i :| 0 <= i < |ps| && ps[i] == Entry(ps, k);
        MemoAt(c.now, ps, RunLoop(before, s).memo, s.cfg, i);
        MemoAfterPrefix(FIRST_SEEN, seen, [Sight(c.now, ps[i])], |seen|, s.cfg);
      }
    }
  }

  lemma {:induction false} SightsOrdered(cs: seq<Cycle>, k: Key, now: int)
    requires AlwaysRead(cs, k) && Ordered(cs) && (|cs| > 0 ==> cs[|cs| - 1].now <= now)
    ensures TimeOrdered(Sights(cs, k)) && forall i :: 0 <= i < |Sights(cs, k)| ==> Sights(cs, k)[i].now <= now
  {
    if |cs| > 0 { SightsOrdered(cs[..|cs| - 1], k, cs[|cs| - 1].now); }
  }

  /** A peer that renews its handshake faster than both thresholds is ok in the daemon's memo
      once the restored hold has passed since the renewals began, whatever came before. */
  lemma RenewingPeerReadsOk(cs: seq<Cycle>, s: Setup, k: Key, from: nat, period: int)
    requires Ordered(cs) && DistinctReads(cs) && AlwaysRead(cs, k)
    requires from < |Sights(cs, k)| - 1 && period < s.cfg.staleAfter && period < s.cfg.degradedAfter
    requires forall i :: from <= i < |Sights(cs, k)| ==>
               && Sights(cs, k)[i].peer.lastHandshake.Some?
               && Sights(cs, k)[i].now - Sights(cs, k)[i].peer.lastHandshake.value <= period
    requires Sights(cs, k)[|Sights(cs, k)| - 1].now - Sights(cs, k)[from].now >= s.cfg.restoredHold
    ensures MemoOf(RunLoop(cs, s).memo, k).state == Fine
  {
    hide RunLoop, StepPeer, MemoAfter;
    var sights := Sights(cs, k);
    SightsOrdered(cs, k, if |cs| > 0 then cs[|cs| - 1].now else 0);
    RenewingLinkIsOk(FIRST_SEEN, sights, from, |sights| - 1, period, s.cfg);
    RunWalksLadder(cs, s, k);
  }

  /** A tick reads a peer by the age of its last handshake alone when that age is past a
      threshold, whatever came before: stale from `staleAfter`, degraded from `degradedAfter`,
      and neither below both; a peer that never shook hands is infinitely old. */
  lemma PeerReadsItsAge(cs: seq<Cycle>, s: Setup, i: nat)
    requires |cs| > 0 && cs[|cs| - 1].read.Some?
    requires DistinctPeers(cs[|cs| - 1].read.value) && i < |cs[|cs| - 1].read.value|
    ensures var c := cs[|cs| - 1];
            var p, memo := c.read.value[i], RunLoop(cs, s).memo;
            && p.publicKey in memo
            && (match p.lastHandshake
                case None => s.cfg.degradedAfter <= MAX_STALENESS ==> memo[p.publicKey].state == Degraded
                case Some(h) =>
                  && (memo[p.publicKey].state == Degraded <==> c.now - h >= s.cfg.degradedAfter)
                  && (memo[p.publicKey].state == Stale <==> s.cfg.staleAfter <= c.now - h < s.cfg.degradedAfter)
                  && (memo[p.publicKey].state in {Fine, Restored} <==> c.now - h < s.cfg.staleAfter && c.now - h < s.cfg.degradedAfter))
  {
    hide NewCache, TickPushes, After;
    MemoAt(cs[|cs| - 1].now, cs[|cs| - 1].read.value, RunLoop(cs[..|cs| - 1], s).memo, s.cfg, i);
  }

  lemma {:induction false} WalkStaysOk(sights: seq<Sight>, n: nat, cfg: Config)
    requires n <= |sights| && forall i :: 0 <= i < n ==> HealthyAt(sights, i, cfg)
    ensures MemoAfter(FIRST_SEEN, sights, n, cfg).state == Fine
  {
    if n > 0 {
      WalkStaysOk(sights, n - 1, cfg);
      assert HealthyAt(sights, n - 1, cfg);
    }
  }

  /** A peer whose handshake is younger than both thresholds at every read is ok from its first
      read on: a restored hold only follows an unhealthy spell. */
  lemma NeverUnhealthyReadsOk(cs: seq<Cycle>, s: Setup, k: Key)
    requires DistinctReads(cs) && AlwaysRead(cs, k)
    requires forall i :: 0 <= i < |Sights(cs, k)| ==>
               var v := Sights(cs, k)[i];
               && v.peer.lastHandshake.Some?
               && v.now - v.peer.lastHandshake.value < s.cfg.staleAfter && v.now - v.peer.lastHandshake.value < s.cfg.degradedAfter
    ensures MemoOf(RunLoop(cs, s).memo, k).state == Fine
  {
    hide RunLoop, MemoAfter;
    RunWalksLadder(cs, s, k);
    WalkStaysOk(Sights(cs, k), |Sights(cs, k)|, s.cfg);
  }

  /** So is, after any run, a peer that is not known when it is read. */
  lemma NewPeerReadsOk(cs: seq<Cycle>, s: Setup, c: Cycle, i: nat)
    requires DistinctReads(cs + [c]) && c.read.Some? && i < |c.read.value|
    requires var p := c.read.value[i];
             && p.publicKey !in RunLoop(cs, s).memo && p.lastHandshake.Some?
             && c.now - p.lastHandshake.value < s.cfg.staleAfter && c.now - p.lastHandshake.value < s.cfg.degradedAfter
    ensures MemoOf(RunLoop(cs + [c], s).memo, c.read.value[i].publicKey).state == Fine
  {
    hide TickPushes, NewCache, After;
    assert (cs + [c])[|cs|] == c && (cs + [c])[..|cs|] == cs;
    MemoAt(c.now, c.read.value, RunLoop(cs, s).memo, s.cfg, i);
  }

  /** A link that dies after working: with its last handshake at `h`, it reads stale at exactly
      the later ticks at least `staleAfter` and less than `degradedAfter` after it, and
      degraded at exactly those `degradedAfter` or more after it. */
  lemma DeadLinkDegrades(cs: seq<Cycle>, s: Setup, k: Key, h: int, n: nat)
    requires DistinctReads(cs) && AlwaysRead(cs, k) && 0 < n <= |cs| && cs[n - 1].read.Some?
    requires Entry(cs[n - 1].read.value, k).lastHandshake == Some(h)
    ensures var memo, now := RunLoop(cs[..n], s).memo, cs[n - 1].now;
            && k in memo
            && (memo[k].state == Stale <==> s.cfg.staleAfter <= now - h < s.cfg.degradedAfter)
            && (memo[k].state == Degraded <==> now - h >= s.cfg.degradedAfter)
  {
    hide RunLoop;
    var ps := cs[n - 1].read.value;
    assert cs[..n][|cs[..n]| - 1] == cs[n - 1];
    var i :| 0 <= i < |ps| && ps[i] == Entry(ps, k);
    PeerReadsItsAge(cs[..n], s, i);
  }

  // ---- the endpoint cache ----

  function Cached(cache: map<Key, string>, k: Key): Option<string> {
    if k in cache then Some(cache[k]) else None
  }

  lemma LiveIffHealthy(now: int, p: PeerState, prev: map<Key, PeerMemo>, cfg: Config)
    ensures Live(StatusOf(now, p, prev, cfg)) <==> Healthy(p, now, cfg) && p.endpoint != ""
  {}

  lemma ReadPrefix(ps: seq<PeerState>, k: Key)
    requires |ps| > 0
    ensures Read(ps[..|ps| - 1], k) ==> Read(ps, k)
  {
    if Read(ps[..|ps| - 1], k) {
      var i :| 0 <= i < |ps| - 1 && ps[..|ps| - 1][i].publicKey == k;
      assert ps[i].publicKey == k;
    }
  }

  lemma {:induction false} CacheMiss(cache: map<Key, string>, now: int, ps: seq<PeerState>, prev: map<Key, PeerMemo>, cfg: Config, k: Key)
    requires !Read(ps, k)
    ensures Cached(CacheHealthy(cache, Statuses(now, ps, prev, cfg)), k) == Cached(cache, k)
  {
    hide StepPeer, Live;
    if |ps| > 0 {
      var m, ss := |ps| - 1, Statuses(now, ps, prev, cfg);
      ReadPrefix(ps, k);
      CacheMiss(cache, now, ps[..m], prev, cfg, k);
      assert ss[..m] == Statuses(now, ps[..m], prev, cfg);
      assert ps[m].publicKey != k;
    }
  }

  lemma {:induction false} CacheHit(cache: map<Key, string>, now: int, ps: seq<PeerState>, prev: map<Key, PeerMemo>, cfg: Config, i: nat)
    requires DistinctPeers(ps) && i < |ps|
    ensures Cached(CacheHealthy(cache, Statuses(now, ps, prev, cfg)), ps[i].publicKey) ==
            if Healthy(ps[i], now, cfg) && ps[i].endpoint != "" then Some(ps[i].endpoint) else Cached(cache, ps[i].publicKey)
  {
    hide StepPeer, Live, Healthy;
    var m, ss := |ps| - 1, Statuses(now, ps, prev, cfg);
    assert ss[..m] == Statuses(now, ps[..m], prev, cfg);
    if i < m {
      CacheHit(cache, now, ps[..m], prev, cfg, i);
    } else {
      LiveIffHealthy(now, ps[m], prev, cfg);
      CacheMiss(cache, now, ps[..m], prev, cfg, ps[m].publicKey);
    }
  }

  lemma KeysAreRead(now: int, ps: seq<PeerState>, prev: map<Key, PeerMemo>, cfg: Config, k: Key)
    ensures k in Keys(Statuses(now, ps, prev, cfg)) <==> Read(ps, k)
  {
    var ss := Statuses(now, ps, prev, cfg);
    if Read(ps, k) {
      var i :| 0 <= i < |ps| && ps[i].publicKey == k;
      assert ss[i].peer == k;
    }
  }

  /** The endpoint seen at the last healthy tick that saw one. */
  function LastLive(sights: seq<Sight>, cfg: Config): Option<string> {
    if |sights| == 0 then None
    else
      var v := sights[|sights| - 1];
      if Healthy(v.peer, v.now, cfg) && v.peer.endpoint != "" then Some(v.peer.endpoint) else LastLive(sights[..|sights| - 1], cfg)
  }

  /** What a re-assert of a peer present at every read pushes is the endpoint of its last
      healthy tick. */
  lemma {:induction false} RunCachesLastHealthy(cs: seq<Cycle>, s: Setup, k: Key)
    requires DistinctReads(cs) && AlwaysRead(cs, k)
    ensures Cached(RunLoop(cs, s).cache, k) == LastLive(Sights(cs, k), s.cfg)
  {
    hide TickPushes, After, NextMemo, Healthy, CacheHealthy, Statuses;
    if |cs| > 0 {
      var before, c := cs[..|cs| - 1], cs[|cs| - 1];
      RunCachesLastHealthy(before, s, k);
      if c.read.Some? {
        var l, ps := RunLoop(before, s), c.read.value;
        var i :| 0 <= i < |ps| && ps[i] == Entry(ps, k);
        var seen := Sights(before, k);
        assert (seen + [Sight(c.now, ps[i])])[..|seen|] == seen;
        KeysAreRead(c.now, ps, l.memo, s.cfg, k);
        CacheHit(PruneCache(l.cache, Statuses(c.now, ps, l.memo, s.cfg)), c.now, ps, l.memo, s.cfg, i);
      }
    }
  }

  /** A key gone from the interface leaves the cache with it. */
  lemma {:induction false} CacheOnlyPresent(cs: seq<Cycle>, s: Setup, k: Key)
    ensures k in RunLoop(cs, s).cache ==> k in RunLoop(cs, s).memo
  {
    hide TickPushes, After, NextMemo, CacheHealthy, Statuses;
    if |cs| > 0 {
      var before, c := cs[..|cs| - 1], cs[|cs| - 1];
      CacheOnlyPresent(before, s, k);
      if c.read.Some? {
        var l, ps := RunLoop(before, s), c.read.value;
        MemoKeys(c.now, ps, l.memo, s.cfg, k);
        if !Read(ps, k) {
          KeysAreRead(c.now, ps, l.memo, s.cfg, k);
          CacheMiss(PruneCache(l.cache, Statuses(c.now, ps, l.memo, s.cfg)), c.now, ps, l.memo, s.cfg, k);
          assert Cached(RunLoop(cs, s).cache, k) == None;
        }
      }
    }
  }

  // ---- the event stream ----

  ghost predicate CycleLog(l: Loop, c: Cycle, s: Setup, events: seq<A.Event>) {
    match c.read
    case None => events == []
    case Some(ps) => A.IsDiff(StatesOf(l.memo), Statuses(c.now, ps, l.memo, s.cfg), c.now, events)
  }

  /** What each cycle of a run logs. */
  ghost predicate IsLog(cs: seq<Cycle>, s: Setup, logs: seq<seq<A.Event>>) {
    |logs| == |cs| && forall i :: 0 <= i < |cs| ==> CycleLog(RunLoop(cs[..i], s), cs[i], s, logs[i])
  }

  lemma LogPrefix(cs: seq<Cycle>, s: Setup, logs: seq<seq<A.Event>>)
    requires IsLog(cs, s, logs) && |cs| > 0
    ensures |logs| == |cs|
    ensures var m := |cs| - 1;
            IsLog(cs[..m], s, logs[..m]) && CycleLog(RunLoop(cs[..m], s), cs[m], s, logs[m])
  {
    hide CycleLog, RunLoop;
    var m := |cs| - 1;
    forall i | 0 <= i < m ensures CycleLog(RunLoop(cs[..m][..i], s), cs[..m][i], s, logs[..m][i]) {
      assert cs[..m][..i] == cs[..i];
    }
  }

  function Flat(logs: seq<seq<A.Event>>): seq<A.Event> {
    if |logs| == 0 then [] else Flat(logs[..|logs| - 1]) + logs[|logs| - 1]
  }

  lemma {:induction false} MemoStates(now: int, ps: seq<PeerState>, prev: map<Key, PeerMemo>, cfg: Config)
    ensures StatesOf(NextMemo(now, ps, prev, cfg)) == A.NextStates(Statuses(now, ps, prev, cfg))
  {
    hide StepPeer;
    if |ps| > 0 {
      var m := |ps| - 1;
      MemoStates(now, ps[..m], prev, cfg);
      assert Statuses(now, ps, prev, cfg)[..m] == Statuses(now, ps[..m], prev, cfg);
    }
  }

  lemma StatusesDistinct(now: int, ps: seq<PeerState>, prev: map<Key, PeerMemo>, cfg: Config)
    requires DistinctPeers(ps)
    ensures A.DistinctStatuses(Statuses(now, ps, prev, cfg))
    ensures forall i :: 0 <= i < |ps| ==> Statuses(now, ps, prev, cfg)[i].state != Gone
  {}

  /** The stream loses nothing: folded from the start of any run, gone removing a peer and
      absence meaning ok, it gives every present peer its memo state and no other peer. */
  lemma {:induction false} StreamIsLossless(cs: seq<Cycle>, s: Setup, logs: seq<seq<A.Event>>)
    requires DistinctReads(cs) && IsLog(cs, s, logs)
    ensures A.Agrees(A.Replay(map[], Flat(logs)), StatesOf(RunLoop(cs, s).memo))
  {
    hide TickPushes, NewCache, After, NextMemo, Statuses, A.IsDiff, A.Agrees, A.Replay, IsLog;
    if |cs| == 0 {
      NothingAgrees(cs, s, logs);
    } else {
      var m := |cs| - 1;
      LogPrefix(cs, s, logs);
      StreamIsLossless(cs[..m], s, logs[..m]);
      A.ReplayConcat(map[], Flat(logs[..m]), logs[m]);
      var c, l, view := cs[m], RunLoop(cs[..m], s), A.Replay(map[], Flat(logs[..m]));
      if c.read.Some? {
        StatusesDistinct(c.now, c.read.value, l.memo, s.cfg);
        MemoStates(c.now, c.read.value, l.memo, s.cfg);
        A.DiffMovesView(view, StatesOf(l.memo), Statuses(c.now, c.read.value, l.memo, s.cfg), c.now, logs[m]);
      } else {
        NothingReplayed(view);
      }
    }
  }

  lemma NothingAgrees(cs: seq<Cycle>, s: Setup, logs: seq<seq<A.Event>>)
    requires IsLog(cs, s, logs) && |cs| == 0
    ensures A.Agrees(A.Replay(map[], Flat(logs)), StatesOf(RunLoop(cs, s).memo))
  {}

  lemma NothingReplayed(view: map<Key, State>)
    ensures A.Replay(view, []) == view
  {}

  // ---- departures carry only the key ----

  ghost predicate GoneBare(es: seq<A.Event>) {
    forall i :: 0 <= i < |es| && es[i].to == Gone ==> es[i].name == [] && es[i].tunnelIp == []
  }

  lemma {:induction false} ChangesNotGone(last: map<Key, State>, ss: seq<PeerStatus>, now: int)
    requires forall i :: 0 <= i < |ss| ==> ss[i].state != Gone
    ensures forall i :: 0 <= i < |A.Changes(last, ss, now)| ==> A.Changes(last, ss, now)[i].to != Gone
  {
    if |ss| > 0 { ChangesNotGone(last, ss[..|ss| - 1], now); }
  }

  lemma CycleGoneBare(l: Loop, c: Cycle, s: Setup, events: seq<A.Event>)
    requires CycleLog(l, c, s, events)
    ensures GoneBare(events)
  {
    hide StepPeer, A.NextStates, A.Changes;
    if c.read.Some? {
      var ss := Statuses(c.now, c.read.value, l.memo, s.cfg);
      NeverGone(c.now, c.read.value, l.memo, s.cfg);
      ChangesNotGone(StatesOf(l.memo), ss, c.now);
      var gone :| A.GoneList(StatesOf(l.memo), A.NextStates(ss), gone)
        && events == A.Changes(StatesOf(l.memo), ss, c.now) + A.GoneEvents(gone, c.now);
    }
  }

  lemma NeverGone(now: int, ps: seq<PeerState>, prev: map<Key, PeerMemo>, cfg: Config)
    ensures forall i :: 0 <= i < |ps| ==> Statuses(now, ps, prev, cfg)[i].state != Gone
  {}

  lemma {:induction false} RunGoneBare(cs: seq<Cycle>, s: Setup, logs: seq<seq<A.Event>>)
    requires IsLog(cs, s, logs)
    ensures GoneBare(Flat(logs))
  {
    hide CycleLog, RunLoop;
    if |cs| > 0 {
      var m := |cs| - 1;
      LogPrefix(cs, s, logs);
      RunGoneBare(cs[..m], s, logs[..m]);
      CycleGoneBare(RunLoop(cs[..m], s), cs[m], s, logs[m]);
    }
  }
}
