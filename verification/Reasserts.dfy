/** Which peers a tick of a run acts on, and what it pushes. */
module Reasserts {
  import opened Wrappers
  import opened Heal
  import opened SelfHeal
  import opened Breaker
  import opened HealthLadder
  import opened DaemonRuns

  function ActionsFor(actions: seq<Action>, k: Key): seq<Action> {
    if |actions| == 0 then []
    else
      var a := actions[|actions| - 1];
      ActionsFor(actions[..|actions| - 1], k) + if a.peer == k then [a] else []
  }

  function PushesTo(pushes: seq<Push>, k: Key): seq<Push> {
    if |pushes| == 0 then []
    else
      var p := pushes[|pushes| - 1];
      PushesTo(pushes[..|pushes| - 1], k) + if p.peer == k then [p] else []
  }

  // ---- one tick ----

  lemma ActionsPush(actions: seq<Action>, a: Action, k: Key)
    ensures ActionsFor(actions + [a], k) == if a.peer == k then ActionsFor(actions, k) + [a] else ActionsFor(actions, k)
  {
    assert (actions + [a])[..|actions|] == actions;
  }

  lemma DecidedFor(now: int, role: Role, p: PeerState, h: seq<ActionRecord>, cfg: Config)
    ensures DecidePeer(now, role, p, h, cfg).peer == p.publicKey
  {
    hide CountAfter;
  }

  lemma {:induction false} NoActionFor(now: int, role: Role, ps: seq<PeerState>, h: seq<ActionRecord>, cfg: Config, k: Key)
    requires !Read(ps, k)
    ensures ActionsFor(Decide(now, role, ps, h, cfg), k) == []
  {
    hide DecidePeer, Staleness;
    if |ps| > 0 {
      var m := |ps| - 1;
      ReadPrefix(ps, k);
      assert ps[m].publicKey != k;
      NoActionFor(now, role, ps[..m], h, cfg, k);
      DecidedFor(now, role, ps[m], h, cfg);
      hide ActionsFor;
      ActionsPush(Decide(now, role, ps[..m], h, cfg), DecidePeer(now, role, ps[m], h, cfg), k);
    }
  }

  lemma {:induction false} ActionFor(now: int, role: Role, ps: seq<PeerState>, h: seq<ActionRecord>, cfg: Config, i: nat)
    requires DistinctPeers(ps) && i < |ps|
    ensures ActionsFor(Decide(now, role, ps, h, cfg), ps[i].publicKey) ==
            if Staleness(ps[i], now) < cfg.staleness then [] else [DecidePeer(now, role, ps[i], h, cfg)]
  {
    hide DecidePeer, Staleness, ActionsFor;
    var m, k := |ps| - 1, ps[i].publicKey;
    DecidedFor(now, role, ps[m], h, cfg);
    ActionsPush(Decide(now, role, ps[..m], h, cfg), DecidePeer(now, role, ps[m], h, cfg), k);
    if i < m {
      ActionFor(now, role, ps[..m], h, cfg, i);
    } else {
      NoActionFor(now, role, ps[..m], h, cfg, k);
    }
  }

  lemma PushesPush(cache: map<Key, string>, actions: seq<Action>, a: Action, dryRun: bool)
    ensures Pushes(cache, actions + [a], dryRun) ==
            Pushes(cache, actions, dryRun) +
            if a.kind == ReResolve && a.peer in cache && !dryRun then [Push(a.peer, cache[a.peer])] else []
  {
    assert (actions + [a])[..|actions|] == actions;
  }

  lemma PushesToPush(pushes: seq<Push>, p: Push, k: Key)
    ensures PushesTo(pushes + [p], k) == if p.peer == k then PushesTo(pushes, k) + [p] else PushesTo(pushes, k)
  {
    assert (pushes + [p])[..|pushes|] == pushes;
  }

  lemma {:induction false} PushesFollow(cache: map<Key, string>, actions: seq<Action>, dryRun: bool, k: Key)
    ensures PushesTo(Pushes(cache, actions, dryRun), k) == Pushes(cache, ActionsFor(actions, k), dryRun)
  {
    if |actions| > 0 {
      var before, a := actions[..|actions| - 1], actions[|actions| - 1];
      PushesFollow(cache, before, dryRun, k);
      assert actions == before + [a];
      hide PushesTo, Pushes, ActionsFor;
      PushesPush(cache, before, a, dryRun);
      ActionsPush(before, a, k);
      PushesPush(cache, ActionsFor(before, k), a, dryRun);
      if a.peer in cache { PushesToPush(Pushes(cache, before, dryRun), Push(a.peer, cache[a.peer]), k); }
    }
  }

  lemma PushesOfOne(cache: map<Key, string>, a: Action, dryRun: bool)
    ensures Pushes(cache, [], dryRun) == []
    ensures Pushes(cache, [a], dryRun) ==
            if a.kind == ReResolve && a.peer in cache && !dryRun then [Push(a.peer, cache[a.peer])] else []
  {
    assert [a][..0] == [];
  }

  // ---- counting attempts ----

  ghost predicate PastAttempts(h: seq<ActionRecord>, now: int) {
    forall i :: 0 <= i < |h| ==> h[i].kind == ReResolve && h[i].at <= now
  }

  lemma {:induction false} AttemptsPast(cs: seq<Cycle>, s: Setup, now: int)
    requires Ordered(cs) && (|cs| > 0 ==> cs[|cs| - 1].now <= now)
    ensures PastAttempts(Attempts(cs, s), now)
  {
    hide TickPushes, RunLoop;
    if |cs| > 0 { AttemptsPast(cs[..|cs| - 1], s, cs[|cs| - 1].now); }
  }

  lemma {:induction false} CountsAgree(h: seq<ActionRecord>, k: Key, cutoff: int, now: int)
    requires PastAttempts(h, now)
    ensures CountAfter(h, k, ReResolve, cutoff) == CountWithin(h, k, cutoff, now)
    ensures CountAfter(h, k, BounceInterface, cutoff) == 0
  {
    if |h| > 0 { CountsAgree(h[..|h| - 1], k, cutoff, now); }
  }

  // ---- runs ----

  /** Dead for the daemon's purposes: no handshake ever, or none for `staleness`. */
  predicate Dead(p: PeerState, now: int, cfg: Config) {
    match p.lastHandshake
    case None => true
    case Some(h) => now - h >= cfg.staleness
  }

  /** Re-asserts of `k` that a run has tried in the breaker's window before `now`. */
  function Tried(cs: seq<Cycle>, s: Setup, k: Key, now: int): nat {
    CountWithin(Attempts(cs, s), k, now - s.cfg.window, now)
  }

  /** The actions the next tick decides on. */
  function NextActions(cs: seq<Cycle>, s: Setup, c: Cycle): seq<Action> {
    if c.read.None? then []
    else Decide(c.now, s.role, c.read.value, After(RunLoop(cs, s).history, c.now - s.cfg.window), s.cfg)
  }

  /** After any run, a tick decides on one action for each dead peer and none for the others:
      a re-assert while the window has room, after that a bounce at a spoke that may bounce,
      and else an alert. */
  lemma DecidedIff(cs: seq<Cycle>, s: Setup, c: Cycle, i: nat)
    requires Ordered(cs + [c]) && DistinctReads(cs + [c]) && s.cfg.staleness <= MAX_STALENESS
    requires c.read.Some? && i < |c.read.value|
    ensures var p := c.read.value[i];
            ActionsFor(NextActions(cs, s, c), p.publicKey) ==
            if !Dead(p, c.now, s.cfg) then []
            else if Tried(cs, s, p.publicKey, c.now) < s.cfg.maxReResolve then [Action(ReResolve, p.publicKey)]
            else if s.role == Spoke && s.cfg.maxBounce > 0 then [Action(BounceInterface, p.publicKey)]
            else [Action(RaiseAlert, p.publicKey)]
  {
    hide Decide, After, RunLoop, RunFull, Attempts, CountAfter, CountWithin, ActionsFor;
    LastCycle(cs, c);
    var past, ps := c.now - s.cfg.window, c.read.value;
    PrunedRunRefines(cs, s, past);
    PruneKeepsDecisions(c.now, s.role, ps, RunLoop(cs, s).history, past, s.cfg);
    PruneKeepsDecisions(c.now, s.role, ps, RunFull(cs, s).history, past, s.cfg);
    ActionFor(c.now, s.role, ps, RunFull(cs, s).history, s.cfg, i);
    AttemptsPast(cs, s, c.now);
    CountsAgree(Attempts(cs, s), ps[i].publicKey, past, c.now);
  }

  lemma LastCycle(cs: seq<Cycle>, c: Cycle)
    requires Ordered(cs + [c]) && DistinctReads(cs + [c])
    ensures Ordered(cs) && (|cs| > 0 ==> cs[|cs| - 1].now <= c.now)
    ensures c.read.Some? ==> DistinctPeers(c.read.value)
  {
    var all := cs + [c];
    assert all[|cs|] == c;
    forall i, j | 0 <= i < j < |cs| ensures cs[i].now <= cs[j].now {
      assert all[i].now <= all[j].now;
    }
    if |cs| > 0 { assert all[|cs| - 1].now <= all[|cs|].now; }
  }

  /** After any run, a tick pushes an endpoint for a peer seen at every read if and only if the
      peer is dead, fewer than the limit were tried in the window, an endpoint was seen at a
      healthy tick, and the daemon is not on a dry run; it pushes the one seen last, once. */
  lemma PushedIff(cs: seq<Cycle>, s: Setup, c: Cycle, i: nat)
    requires Ordered(cs + [c]) && DistinctReads(cs + [c]) && s.cfg.staleness <= MAX_STALENESS
    requires c.read.Some? && i < |c.read.value| && AlwaysRead(cs + [c], c.read.value[i].publicKey)
    ensures var p := c.read.value[i];
            var seen := LastLive(Sights(cs + [c], p.publicKey), s.cfg);
            PushesTo(TickPushes(RunLoop(cs, s), c, s), p.publicKey) ==
            if !s.dryRun && Dead(p, c.now, s.cfg) && Tried(cs, s, p.publicKey, c.now) < s.cfg.maxReResolve && seen.Some?
            then [Push(p.publicKey, seen.value)] else []
  {
    hide Decide, After, Pushes, NewCache, Attempts, CountWithin, ActionsFor, PushesTo, Sights, LastLive, Ordered, DistinctReads, AlwaysRead;
    var k, cache := c.read.value[i].publicKey, NewCache(RunLoop(cs, s), c.now, c.read.value, s.cfg);
    assert (cs + [c])[..|cs|] == cs;
    assert RunLoop(cs + [c], s).cache == cache;
    DecidedIff(cs, s, c, i);
    RunCachesLastHealthy(cs + [c], s, k);
    var actions := NextActions(cs, s, c);
    PushesFollow(cache, actions, s.dryRun, k);
    PushesOfOne(cache, Action(ReResolve, k), s.dryRun);
    PushesOfOne(cache, Action(BounceInterface, k), s.dryRun);
    PushesOfOne(cache, Action(RaiseAlert, k), s.dryRun);
  }

  // ---- the history stays short ----

  lemma {:induction false} AfterKeeps(h: seq<ActionRecord>, cutoff: int)
    ensures forall r :: r in After(h, cutoff) <==> r in h && r.at > cutoff
  {
    if |h| > 0 {
      AfterKeeps(h[..|h| - 1], cutoff);
      assert h == h[..|h| - 1] + [h[|h| - 1]];
    }
  }

  lemma HistoryStep(l: Loop, c: Cycle, s: Setup, r: ActionRecord)
    requires r in NextLoop(l, c, s).history
    ensures r in l.history || r in Records(TickPushes(l, c, s), c.now)
  {
    hide TickPushes, NewCache, NextMemo, After;
    AfterKeeps(l.history, c.now - s.cfg.window);
  }

  lemma {:induction false} HistoryTried(cs: seq<Cycle>, s: Setup, r: ActionRecord)
    requires r in RunLoop(cs, s).history
    ensures r in Attempts(cs, s)
  {
    hide TickPushes, NextLoop;
    if |cs| > 0 {
      var before, c := cs[..|cs| - 1], cs[|cs| - 1];
      assert cs == before + [c];
      RunExtends(before, s, c);
      HistoryStep(RunLoop(before, s), c, s, r);
      if r in RunLoop(before, s).history { HistoryTried(before, s, r); }
    }
  }

  lemma StayStep(l: Loop, c: Cycle, s: Setup, r: ActionRecord)
    requires (r in l.history && r.at > c.now - s.cfg.window) || r in Records(TickPushes(l, c, s), c.now)
    ensures r in NextLoop(l, c, s).history
  {
    hide Pushes, Decide, NewCache, NextMemo, After;
    AfterKeeps(l.history, c.now - s.cfg.window);
  }

  lemma {:induction false} TriedStays(cs: seq<Cycle>, s: Setup, c: Cycle, r: ActionRecord)
    requires Ordered(cs + [c]) && r in Attempts(cs, s) && r.at > c.now - s.cfg.window
    ensures r in RunLoop(cs, s).history
  {
    hide RunLoop, TickPushes, NextLoop, Ordered;
    if |cs| > 0 {
      var before, d := cs[..|cs| - 1], cs[|cs| - 1];
      assert cs == before + [d];
      OrderedLast(before, d, c, cs + [c]);
      RunExtends(before, s, d);
      if r in Attempts(before, s) { TriedStays(before, s, d, r); }
      StayStep(RunLoop(before, s), d, s, r);
    }
  }

  lemma OrderedLast(before: seq<Cycle>, d: Cycle, c: Cycle, all: seq<Cycle>)
    requires all == before + [d] + [c] && Ordered(all)
    ensures Ordered(before + [d]) && d.now <= c.now
  {
    forall i, j | 0 <= i < j < |before| + 1 ensures (before + [d])[i].now <= (before + [d])[j].now {
      assert all[i].now <= all[j].now;
    }
    assert all[|before|].now <= all[|before| + 1].now;
  }

  /** After a successful tick the daemon remembers exactly the attempts still in the window
      before that tick, and those of the tick itself. */
  lemma HistoryIsRecent(cs: seq<Cycle>, s: Setup, c: Cycle, r: ActionRecord)
    requires Ordered(cs + [c]) && c.read.Some? && s.cfg.window > 0
    ensures r in RunLoop(cs + [c], s).history <==> r in Attempts(cs + [c], s) && r.at > c.now - s.cfg.window
  {
    hide TickPushes, NewCache, NextMemo, After, Ordered, RunLoop, Attempts;
    RunExtends(cs, s, c);
    AfterKeeps(RunLoop(cs, s).history, c.now - s.cfg.window);
    if r in RunLoop(cs, s).history { HistoryTried(cs, s, r); }
    if r in Attempts(cs, s) && r.at > c.now - s.cfg.window { TriedStays(cs, s, c, r); }
  }

  lemma RunExtends(cs: seq<Cycle>, s: Setup, c: Cycle)
    ensures RunLoop(cs + [c], s) == NextLoop(RunLoop(cs, s), c, s)
    ensures Attempts(cs + [c], s) == Attempts(cs, s) + Records(TickPushes(RunLoop(cs, s), c, s), c.now)
  {
    hide NextLoop, TickPushes;
    assert (cs + [c])[..|cs|] == cs;
  }
}
