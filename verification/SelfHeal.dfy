/** The loop of the self-heal daemon (daemon/cmd/wg-selfheal/main.go): one tick reads,
    classifies, caches endpoints and remediates. */
module SelfHeal {
  import opened Wrappers
  import opened Heal
  import Alert

  datatype Loop = Loop(memo: map<Key, PeerMemo>, cache: map<Key, string>, history: seq<ActionRecord>)

  /** One turn of the ticker: a failed read is None. */
  datatype Cycle = Cycle(now: int, read: Option<seq<PeerState>>)

  datatype Setup = Setup(role: Role, cfg: Config, dryRun: bool)

  /** An endpoint pushed onto the tunnel, whether or not the kernel took it. */
  datatype Push = Push(peer: Key, endpoint: string)

  const START := Loop(map[], map[], [])

  // ---- what one tick does, on values ----

  function After(history: seq<ActionRecord>, cutoff: int): (r: seq<ActionRecord>)
    ensures |r| <= |history|
  {
    if |history| == 0 then []
    else
      var before, last := After(history[..|history| - 1], cutoff), history[|history| - 1];
      if last.at > cutoff then before + [last] else before
  }

  function Keys(ss: seq<PeerStatus>): set<Key> {
    set i | 0 <= i < |ss| :: ss[i].peer
  }

  function PruneCache(cache: map<Key, string>, ss: seq<PeerStatus>): map<Key, string> {
    map k | k in cache && k in Keys(ss) :: cache[k]
  }

  predicate Live(s: PeerStatus) {
    s.state in {Fine, Restored} && s.endpoint != ""
  }

  function CacheHealthy(cache: map<Key, string>, ss: seq<PeerStatus>): map<Key, string> {
    if |ss| == 0 then cache
    else
      var before, s := CacheHealthy(cache, ss[..|ss| - 1]), ss[|ss| - 1];
      if Live(s) then before[s.peer := s.endpoint] else before
  }

  function Pushes(cache: map<Key, string>, actions: seq<Action>, dryRun: bool): seq<Push> {
    if |actions| == 0 then []
    else
      var before, a := Pushes(cache, actions[..|actions| - 1], dryRun), actions[|actions| - 1];
      if a.kind == ReResolve && a.peer in cache && !dryRun then before + [Push(a.peer, cache[a.peer])] else before
  }

  function Records(pushes: seq<Push>, now: int): (r: seq<ActionRecord>)
    ensures |r| == |pushes| && forall i :: 0 <= i < |r| ==> r[i] == ActionRecord(pushes[i].peer, ReResolve, now)
  {
    seq(|pushes|, i requires 0 <= i < |pushes| => ActionRecord(pushes[i].peer, ReResolve, now))
  }

  function NewCache(l: Loop, now: int, peers: seq<PeerState>, cfg: Config): map<Key, string> {
    var ss := Statuses(now, peers, l.memo, cfg);
    CacheHealthy(PruneCache(l.cache, ss), ss)
  }

  function TickPushes(l: Loop, c: Cycle, s: Setup): seq<Push> {
    if c.read.None? then []
    else
      var history := After(l.history, c.now - s.cfg.window);
      Pushes(NewCache(l, c.now, c.read.value, s.cfg), Decide(c.now, s.role, c.read.value, history, s.cfg), s.dryRun)
  }

  function NextLoop(l: Loop, c: Cycle, s: Setup): Loop {
    if c.read.None? then l
    else
      Loop(NextMemo(c.now, c.read.value, l.memo, s.cfg),
           NewCache(l, c.now, c.read.value, s.cfg),
           After(l.history, c.now - s.cfg.window) + Records(TickPushes(l, c, s), c.now))
  }

  // ---- the loop, in place ----

  lemma AfterNothing(cutoff: int)
    ensures After([], cutoff) == []
  {}

  lemma AfterOne(h: seq<ActionRecord>, n: nat, cutoff: int)
    requires n < |h|
    ensures After(h[..n + 1], cutoff) == After(h[..n], cutoff) + if h[n].at > cutoff then [h[n]] else []
  {
    assert h[..n + 1][..n] == h[..n];
  }

  /** Filters the first `n` elements into the front of the same array. */
  method PruneHistory(a: array<ActionRecord>, n: nat, cutoff: int) returns (k: nat)
    requires n <= a.Length
    modifies a
    ensures k <= n && a[..k] == After(old(a[..n]), cutoff) && a[n..] == old(a[n..])
  {
    hide After;
    ghost var was := a[..];
    k := 0;
    AfterNothing(cutoff);
    for i := 0 to n
      invariant k <= i && a[..k] == After(was[..i], cutoff)
      invariant forall j :: i <= j < a.Length ==> a[j] == was[j]
    {
      AfterOne(was, i, cutoff);
      if a[i].at > cutoff {
        ghost var kept := a[..k];
        a[k] := a[i];
        assert a[..k + 1] == kept + [was[i]];
        k := k + 1;
      }
    }
    assert was[..n] == old(a[..n]) && a[n..] == was[n..];
  }

  class Daemon {
    var memo: map<Key, PeerMemo>
    var cache: map<Key, string>
    /** The history slice: the first `used` elements of its backing array. */
    var buf: array<ActionRecord>
    var used: nat

    ghost predicate Valid() reads this {
      used <= buf.Length
    }

    ghost function History(): seq<ActionRecord> reads this, buf
      requires Valid()
    {
      buf[..used]
    }

    ghost function State(): Loop reads this, buf
      requires Valid()
    {
      Loop(memo, cache, History())
    }

    constructor ()
      ensures Valid() && State() == START && fresh(buf)
    {
      memo, cache, used := map[], map[], 0;
      buf := new ActionRecord[0];
    }

    method DropAbsent(ss: seq<PeerStatus>)
      modifies this`cache
      ensures cache == PruneCache(old(cache), ss)
    {
      var present := {};
      for i := 0 to |ss|
        invariant present == Keys(ss[..i])
      {
        present := present + {ss[i].peer};
      }
      assert ss[..|ss|] == ss;
      var todo := cache.Keys;
      while todo != {}
        invariant todo <= old(cache).Keys
        invariant cache == map k | k in old(cache) && (k in todo || k in present) :: old(cache)[k]
        decreases |todo|
      {
        var k :| k in todo;
        if k !in present { cache := cache - {k}; }
        todo := todo - {k};
      }
    }

    method RememberEndpoints(ss: seq<PeerStatus>)
      modifies this`cache
      ensures cache == CacheHealthy(old(cache), ss)
    {
      for i := 0 to |ss|
        invariant cache == CacheHealthy(old(cache), ss[..i])
      {
        var s := ss[i];
        assert ss[..i + 1][..i] == ss[..i];
        if (s.state == Fine || s.state == Restored) && s.endpoint != "" { cache := cache[s.peer := s.endpoint]; }
      }
      assert ss[..|ss|] == ss;
    }

    /** Go's append: a full backing array is replaced by a larger copy. */
    method Append(r: ActionRecord)
      requires Valid()
      modifies this`buf, this`used, buf
      ensures Valid() && History() == old(History()) + [r]
      ensures buf == old(buf) || fresh(buf)
    {
      if used == buf.Length {
        var bigger := new ActionRecord[2 * used + 1];
        forall i | 0 <= i < used { bigger[i] := buf[i]; }
        buf := bigger;
      }
      buf[used] := r;
      used := used + 1;
    }

    method Remediate(a: Action, now: int, dryRun: bool) returns (pushed: seq<Push>)
      requires Valid()
      modifies this`buf, this`used, buf
      ensures Valid() && (buf == old(buf) || fresh(buf))
      ensures pushed == Pushes(cache, [a], dryRun)
      ensures History() == old(History()) + Records(pushed, now)
    {
      pushed := [];
      assert [a][..0] == [];
      if a.kind == ReResolve && a.peer in cache && !dryRun {
        Append(ActionRecord(a.peer, ReResolve, now));
        pushed := [Push(a.peer, cache[a.peer])];
      }
    }

    method RemediateAll(actions: seq<Action>, now: int, dryRun: bool) returns (pushed: seq<Push>)
      requires Valid()
      modifies this`buf, this`used, buf
      ensures Valid() && (buf == old(buf) || fresh(buf))
      ensures pushed == Pushes(cache, actions, dryRun)
      ensures History() == old(History()) + Records(pushed, now)
    {
      pushed := [];
      for i := 0 to |actions|
        invariant Valid() && (buf == old(buf) || fresh(buf))
        invariant pushed == Pushes(cache, actions[..i], dryRun)
        invariant History() == old(History()) + Records(pushed, now)
      {
        var more := Remediate(actions[i], now, dryRun);
        assert actions[..i + 1][..i] == actions[..i] && [actions[i]][..0] == [];
        pushed := pushed + more;
      }
      assert actions[..|actions|] == actions;
    }

    method Tick(now: int, read: Option<seq<PeerState>>, s: Setup) returns (pushed: seq<Push>, events: seq<Alert.Event>)
      requires Valid()
      modifies this, buf
      ensures Valid() && (buf == old(buf) || fresh(buf))
      ensures State() == NextLoop(old(State()), Cycle(now, read), s)
      ensures pushed == TickPushes(old(State()), Cycle(now, read), s)
      ensures match read
              case None => events == []
              case Some(peers) => Alert.IsDiff(StatesOf(old(memo)), Statuses(now, peers, old(memo), s.cfg), now, events)
    {
      hide Pushes, Decide, CacheHealthy, PruneCache, After, NextMemo, Alert.IsDiff;
      pushed, events := [], [];
      if read.None? { return; }
      used := PruneHistory(buf, used, now - s.cfg.window);
      ghost var kept := History();
      var statuses, nextMemo := Step(now, read.value, memo, s.cfg);
      DropAbsent(statuses);
      RememberEndpoints(statuses);
      var changes, _ := Alert.Diff(StatesOf(memo), statuses, now);
      events := changes;
      memo := nextMemo;
      var actions := DecideAll(now, s.role, read.value, buf[..used], s.cfg);
      pushed := RemediateAll(actions, now, s.dryRun);
    }
  }
}
