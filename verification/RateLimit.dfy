/** The failure limiter (island/src/core/ratelimit.ts) and the two checks of the node that
    stand behind it (island/src/main.ts). Times are whole milliseconds. */
module RateLimit {

  // ---- the limiter, on values ----

  function Since(times: seq<int>, cutoff: int): (r: seq<int>)
    ensures |r| <= |times|
  {
    if |times| == 0 then []
    else
      var before, last := Since(times[..|times| - 1], cutoff), times[|times| - 1];
      if last > cutoff then before + [last] else before
  }

  function Hits(hits: map<string, seq<int>>, key: string): seq<int> {
    if key in hits then hits[key] else []
  }

  function Trim(hits: map<string, seq<int>>, key: string, cutoff: int): map<string, seq<int>> {
    var kept := Since(Hits(hits, key), cutoff);
    if |kept| > 0 then hits[key := kept] else hits - {key}
  }

  class AttemptLimiter {
    const max: int
    const windowMs: int
    var hits: map<string, seq<int>>

    constructor (max: int, windowMs: int)
      ensures this.max == max && this.windowMs == windowMs && hits == map[]
    {
      this.max, this.windowMs, hits := max, windowMs, map[];
    }

    method Recent(key: string, now: int) returns (kept: seq<int>)
      modifies this`hits
      ensures kept == Since(Hits(old(hits), key), now - windowMs)
      ensures hits == Trim(old(hits), key, now - windowMs)
    {
      var cutoff, all := now - windowMs, if key in hits then hits[key] else [];
      kept := [];
      for i := 0 to |all|
        invariant kept == Since(all[..i], cutoff) && hits == old(hits)
      {
        assert all[..i + 1][..i] == all[..i];
        if all[i] > cutoff { kept := kept + [all[i]]; }
      }
      assert all[..|all|] == all;
      if |kept| > 0 { hits := hits[key := kept]; } else { hits := hits - {key}; }
    }

    method Locked(key: string, now: int) returns (locked: bool)
      modifies this`hits
      ensures locked <==> |Since(Hits(old(hits), key), now - windowMs)| >= max
      ensures hits == Trim(old(hits), key, now - windowMs)
    {
      var kept := Recent(key, now);
      locked := |kept| >= max;
    }

    /** The clock is read twice: for the cutoff and for the new stamp. */
    method Fail(key: string, now: int, stamp: int)
      modifies this`hits
      ensures hits == old(hits)[key := Since(Hits(old(hits), key), now - windowMs) + [stamp]]
    {
      var a := Recent(key, now);
      a := a + [stamp];
      hits := hits[key := a];
    }

    method Reset(key: string)
      modifies this`hits
      ensures hits == old(hits) - {key}
    {
      hits := hits - {key};
    }
  }

  // ---- the checks behind it ----

  datatype Surface = Operator | Admin

  /** One guarded request; `good` is what the token check would say. The three clock readings
      are those of the lock test and of the two in a failure. */
  datatype Request = Request(surface: Surface, ip: string, good: bool, locked: int, cutoff: int, stamp: int)

  datatype Setup = Setup(mock: bool, adminToken: bool, max: int, windowMs: int)

  datatype Outcome = Allowed | Limited | Refused | Unconfigured

  /** Whether the request is settled before the limiter is asked. */
  predicate Bypasses(r: Request, s: Setup) {
    r.surface == Admin && (s.mock || !s.adminToken)
  }

  /** What the check finds: on a mock node every caller is the operator. */
  predicate Passes(r: Request, s: Setup) {
    r.good || (r.surface == Operator && s.mock)
  }

  function Decision(hits: map<string, seq<int>>, r: Request, s: Setup): Outcome {
    if Bypasses(r, s) then (if s.mock then Allowed else Unconfigured)
    else if |Since(Hits(hits, r.ip), r.locked - s.windowMs)| >= s.max then Limited
    else if Passes(r, s) then Allowed
    else Refused
  }

  function NextHits(hits: map<string, seq<int>>, r: Request, s: Setup): map<string, seq<int>> {
    if Bypasses(r, s) then hits
    else
      var trimmed := Trim(hits, r.ip, r.locked - s.windowMs);
      match Decision(hits, r, s)
      case Allowed => trimmed - {r.ip}
      case Refused => trimmed[r.ip := Since(Hits(trimmed, r.ip), r.cutoff - s.windowMs) + [r.stamp]]
      case _ => trimmed
  }

  method RequireOperator(l: AttemptLimiter, r: Request, s: Setup) returns (o: Outcome)
    requires r.surface == Operator && l.max == s.max && l.windowMs == s.windowMs
    modifies l`hits
    ensures o == Decision(old(l.hits), r, s) && l.hits == NextHits(old(l.hits), r, s)
  {
    var locked := l.Locked(r.ip, r.locked);
    if locked { return Limited; }
    if r.good || s.mock {
      l.Reset(r.ip);
      return Allowed;
    }
    l.Fail(r.ip, r.cutoff, r.stamp);
    o := Refused;
  }

  method RequireAdmin(l: AttemptLimiter, r: Request, s: Setup) returns (o: Outcome)
    requires r.surface == Admin && l.max == s.max && l.windowMs == s.windowMs
    modifies l`hits
    ensures o == Decision(old(l.hits), r, s) && l.hits == NextHits(old(l.hits), r, s)
  {
    if s.mock { return Allowed; }
    if !s.adminToken { return Unconfigured; }
    var locked := l.Locked(r.ip, r.locked);
    if locked { return Limited; }
    if !r.good {
      l.Fail(r.ip, r.cutoff, r.stamp);
      return Refused;
    }
    l.Reset(r.ip);
    o := Allowed;
  }

  // ---- runs, with the full failure history beside the trimmed one ----

  /** A failed check: when the lock was tested and when the failure was stamped. */
  datatype Strike = Strike(tested: int, at: int)

  /** `full` is every strike of an address since its last success; nothing is ever dropped. */
  datatype World = World(hits: map<string, seq<int>>, full: map<string, seq<Strike>>, clock: int)

  function Strikes(full: map<string, seq<Strike>>, ip: string): seq<Strike> {
    if ip in full then full[ip] else []
  }

  function Next(w: World, r: Request, s: Setup): World {
    var full := match Decision(w.hits, r, s)
                case Allowed => if Bypasses(r, s) then w.full else w.full - {r.ip}
                case Refused => w.full[r.ip := Strikes(w.full, r.ip) + [Strike(r.locked, r.stamp)]]
                case _ => w.full;
    World(NextHits(w.hits, r, s), full, r.stamp)
  }

  function Run(start: int, rs: seq<Request>, s: Setup): World {
    if |rs| == 0 then World(map[], map[], start) else Next(Run(start, rs[..|rs| - 1], s), rs[|rs| - 1], s)
  }

  ghost predicate ClockOk(start: int, rs: seq<Request>, s: Setup) {
    |rs| > 0 ==>
      var before, r := rs[..|rs| - 1], rs[|rs| - 1];
      ClockOk(start, before, s) && Run(start, before, s).clock <= r.locked <= r.cutoff <= r.stamp
  }

  // ---- trimming is invisible ----

  function Times(ks: seq<Strike>): (r: seq<int>)
    ensures |r| == |ks| && forall i :: 0 <= i < |r| ==> r[i] == ks[i].at
  {
    seq(|ks|, i requires 0 <= i < |ks| => ks[i].at)
  }

  ghost predicate SameFrom(hits: seq<int>, full: seq<int>, from: int) {
    forall cutoff :: cutoff >= from ==> Since(hits, cutoff) == Since(full, cutoff)
  }

  ghost predicate Faithful(w: World, windowMs: int) {
    forall ip :: SameFrom(Hits(w.hits, ip), Times(Strikes(w.full, ip)), w.clock - windowMs)
  }

  lemma {:induction false} SinceSince(times: seq<int>, a: int, b: int)
    requires a <= b
    ensures Since(Since(times, a), b) == Since(times, b)
  {
    if |times| > 0 {
      var before := Since(times[..|times| - 1], a);
      SinceSince(times[..|times| - 1], a, b);
      assert (before + [times[|times| - 1]])[..|before|] == before;
    }
  }

  lemma SincePush(times: seq<int>, t: int, cutoff: int)
    ensures Since(times + [t], cutoff) == Since(times, cutoff) + if t > cutoff then [t] else []
  {
    assert (times + [t])[..|times|] == times;
  }

  lemma SameTrimmed(hits: seq<int>, full: seq<int>, from: int, cut: int)
    requires SameFrom(hits, full, from) && from <= cut
    ensures SameFrom(Since(hits, cut), full, cut)
  {
    forall cutoff | cutoff >= cut ensures Since(Since(hits, cut), cutoff) == Since(full, cutoff) {
      SinceSince(hits, cut, cutoff);
    }
  }

  lemma SamePushed(hits: seq<int>, full: seq<int>, from: int, t: int)
    requires SameFrom(hits, full, from)
    ensures SameFrom(hits + [t], full + [t], from)
  {
    forall cutoff | cutoff >= from ensures Since(hits + [t], cutoff) == Since(full + [t], cutoff) {
      SincePush(hits, t, cutoff);
      SincePush(full, t, cutoff);
    }
  }
}
