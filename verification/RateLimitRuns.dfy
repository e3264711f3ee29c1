/** The limiter over whole runs: it answers as the full history would, and bounds the guesses
    one address gets between two successes. */
module RateLimitRuns {
  import opened RateLimit

  lemma SameLater(hits: seq<int>, full: seq<int>, from: int, later: int)
    requires SameFrom(hits, full, from) && from <= later
    ensures SameFrom(hits, full, later)
  {}

  lemma TrimHits(hits: map<string, seq<int>>, key: string, cutoff: int, ip: string)
    ensures Hits(Trim(hits, key, cutoff), ip) == if ip == key then Since(Hits(hits, ip), cutoff) else Hits(hits, ip)
  {
    hide Since;
  }

  lemma TimesPush(ks: seq<Strike>, k: Strike)
    ensures Times(ks + [k]) == Times(ks) + [k.at]
  {}

  /** What one request does to the entry of one address, in both histories. */
  lemma EntryStep(w: World, r: Request, s: Setup, ip: string)
    ensures var n := Next(w, r, s);
            var hit, full := Hits(w.hits, ip), Strikes(w.full, ip);
            var d := Decision(w.hits, r, s);
            if ip != r.ip || Bypasses(r, s) then Hits(n.hits, ip) == hit && Strikes(n.full, ip) == full
            else match d
                 case Allowed => Hits(n.hits, ip) == [] && Strikes(n.full, ip) == []
                 case Refused =>
                   && Hits(n.hits, ip) == Since(Since(hit, r.locked - s.windowMs), r.cutoff - s.windowMs) + [r.stamp]
                   && Strikes(n.full, ip) == full + [Strike(r.locked, r.stamp)]
                 case _ => Hits(n.hits, ip) == Since(hit, r.locked - s.windowMs) && Strikes(n.full, ip) == full
  {
    hide Since, Trim;
    TrimHits(w.hits, r.ip, r.locked - s.windowMs, ip);
  }

  lemma FaithfulStep(w: World, r: Request, s: Setup)
    requires Faithful(w, s.windowMs) && w.clock <= r.locked <= r.cutoff <= r.stamp
    ensures Faithful(Next(w, r, s), s.windowMs)
  {
    hide Since, SameFrom, Next, Decision, Hits, Strikes, Times;
    var n, from, to := Next(w, r, s), w.clock - s.windowMs, r.stamp - s.windowMs;
    ClockMoves(w, r, s);
    forall ip ensures SameFrom(Hits(n.hits, ip), Times(Strikes(n.full, ip)), to) {
      var hit, full := Hits(w.hits, ip), Strikes(w.full, ip);
      var cut1, cut2 := r.locked - s.windowMs, r.cutoff - s.windowMs;
      EntryStep(w, r, s, ip);
      SameLater(hit, Times(full), from, to);
      SameTrimmed(hit, Times(full), from, cut1);
      SameLater(Since(hit, cut1), Times(full), cut1, to);
      SameTrimmed(Since(hit, cut1), Times(full), cut1, cut2);
      SamePushed(Since(Since(hit, cut1), cut2), Times(full), cut2, r.stamp);
      TimesPush(full, Strike(r.locked, r.stamp));
      SameLater(Since(Since(hit, cut1), cut2) + [r.stamp], Times(full) + [r.stamp], cut2, to);
      SameEmpty(to);
    }
  }

  lemma ClockMoves(w: World, r: Request, s: Setup)
    ensures Next(w, r, s).clock == r.stamp
  {}

  lemma SameEmpty(from: int)
    ensures SameFrom([], Times([]), from)
  {}

  lemma {:induction false} RunFaithful(start: int, rs: seq<Request>, s: Setup)
    requires ClockOk(start, rs, s)
    ensures Faithful(Run(start, rs, s), s.windowMs)
  {
    hide Next, SameFrom;
    if |rs| == 0 {
      SameEmpty(start - s.windowMs);
    } else {
      RunFaithful(start, rs[..|rs| - 1], s);
      FaithfulStep(Run(start, rs[..|rs| - 1], s), rs[|rs| - 1], s);
    }
  }

  /** At any later moment the lock test sees exactly the failures of the full history since
      the last success that fall in the window: discarding entries never changes an answer. */
  lemma LockAnswersFullHistory(start: int, rs: seq<Request>, s: Setup, ip: string, now: int)
    requires ClockOk(start, rs, s) && Run(start, rs, s).clock <= now
    ensures var w := Run(start, rs, s);
            Since(Hits(w.hits, ip), now - s.windowMs) == Since(Times(Strikes(w.full, ip)), now - s.windowMs)
  {
    hide Since;
    RunFaithful(start, rs, s);
    var w := Run(start, rs, s);
    assert SameFrom(Hits(w.hits, ip), Times(Strikes(w.full, ip)), w.clock - s.windowMs);
  }

  // ---- the bound ----

  /** Each strike found fewer than the limit before it in the window of its lock test. */
  ghost predicate Spaced(ks: seq<Strike>, s: Setup) {
    forall i :: 0 <= i < |ks| ==>
      ks[i].tested <= ks[i].at && |Since(Times(ks[..i]), ks[i].tested - s.windowMs)| < s.max
  }

  lemma SpacedPush(ks: seq<Strike>, k: Strike, s: Setup)
    requires Spaced(ks, s) && k.tested <= k.at && |Since(Times(ks), k.tested - s.windowMs)| < s.max
    ensures Spaced(ks + [k], s)
  {
    hide Since, Times;
    var ls := ks + [k];
    assert ls[..|ks|] == ks;
    forall i | 0 <= i < |ls| ensures ls[i].tested <= ls[i].at && |Since(Times(ls[..i]), ls[i].tested - s.windowMs)| < s.max {
      if i < |ks| { assert ls[..i] == ks[..i]; }
    }
  }

  lemma SpacedNil(s: Setup)
    ensures Spaced([], s)
  {}

  lemma SpacedStep(w: World, r: Request, s: Setup, ip: string)
    requires Faithful(w, s.windowMs) && w.clock <= r.locked <= r.cutoff <= r.stamp
    requires Spaced(Strikes(w.full, ip), s)
    ensures Spaced(Strikes(Next(w, r, s).full, ip), s)
  {
    hide Since, Next, Hits, Strikes, Times, Spaced;
    EntryStep(w, r, s, ip);
    SpacedNil(s);
    if ip == r.ip && !Bypasses(r, s) && Decision(w.hits, r, s) == Refused {
      assert SameFrom(Hits(w.hits, ip), Times(Strikes(w.full, ip)), w.clock - s.windowMs);
      SpacedPush(Strikes(w.full, ip), Strike(r.locked, r.stamp), s);
    }
  }

  lemma {:induction false} RunSpaced(start: int, rs: seq<Request>, s: Setup, ip: string)
    requires ClockOk(start, rs, s)
    ensures Spaced(Strikes(Run(start, rs, s).full, ip), s)
  {
    hide Next, Spaced, Faithful;
    if |rs| == 0 {
      SpacedNil(s);
    } else {
      RunSpaced(start, rs[..|rs| - 1], s, ip);
      RunFaithful(start, rs[..|rs| - 1], s);
      SpacedStep(Run(start, rs[..|rs| - 1], s), rs[|rs| - 1], s, ip);
    }
  }

  function CountWithin(ks: seq<Strike>, lo: int, hi: int): nat {
    if |ks| == 0 then 0
    else CountWithin(ks[..|ks| - 1], lo, hi) + if lo < ks[|ks| - 1].at <= hi then 1 else 0
  }

  lemma {:induction false} WithinIsSince(ks: seq<Strike>, lo: int, hi: int, cutoff: int)
    requires cutoff <= lo
    ensures CountWithin(ks, lo, hi) <= |Since(Times(ks), cutoff)|
  {
    if |ks| > 0 {
      WithinIsSince(ks[..|ks| - 1], lo, hi, cutoff);
      assert Times(ks)[..|ks| - 1] == Times(ks[..|ks| - 1]);
    }
  }

  lemma SpacedPrefix(ks: seq<Strike>, s: Setup)
    requires Spaced(ks, s) && |ks| > 0
    ensures var m, k := |ks| - 1, ks[|ks| - 1];
            Spaced(ks[..m], s) && k.tested <= k.at && |Since(Times(ks[..m]), k.tested - s.windowMs)| < s.max
  {
    hide Since, Times;
    var m := |ks| - 1;
    forall i | 0 <= i < m
      ensures ks[..m][i].tested <= ks[..m][i].at && |Since(Times(ks[..m][..i]), ks[..m][i].tested - s.windowMs)| < s.max
    {
      assert ks[..m][..i] == ks[..i];
    }
  }

  lemma {:induction false} SpacedBounds(ks: seq<Strike>, s: Setup, hi: int)
    requires Spaced(ks, s)
    ensures CountWithin(ks, hi - s.windowMs, hi) <= if s.max > 0 then s.max else 0
  {
    hide Spaced, Since, Times;
    if |ks| > 0 {
      var m, k := |ks| - 1, ks[|ks| - 1];
      SpacedPrefix(ks, s);
      SpacedBounds(ks[..m], s, hi);
      if hi - s.windowMs < k.at <= hi { WithinIsSince(ks[..m], hi - s.windowMs, hi, k.tested - s.windowMs); }
    }
  }

  // ---- the requests alone ----

  /** Failures after a moment. */
  function After(ks: seq<Strike>, cutoff: int): nat {
    if |ks| == 0 then 0 else After(ks[..|ks| - 1], cutoff) + if ks[|ks| - 1].at > cutoff then 1 else 0
  }

  /** What a request is owed, given the failures of its address since the last success. */
  function Owed(ks: seq<Strike>, r: Request, s: Setup): Outcome {
    if r.surface == Admin && s.mock then Allowed
    else if r.surface == Admin && !s.adminToken then Unconfigured
    else if After(ks, r.locked - s.windowMs) >= s.max then Limited
    else if r.good || s.mock then Allowed
    else Refused
  }

  /** The wrong tokens an address got checked since its last success, read off the requests:
      a request of the admin surface of a mock or unconfigured node is not one of them. */
  function Guesses(rs: seq<Request>, s: Setup, ip: string): seq<Strike> {
    if |rs| == 0 then []
    else
      var before, r := Guesses(rs[..|rs| - 1], s, ip), rs[|rs| - 1];
      if r.ip != ip || (r.surface == Admin && (s.mock || !s.adminToken)) then before
      else if After(before, r.locked - s.windowMs) >= s.max then before
      else if r.good || s.mock then []
      else before + [Strike(r.locked, r.stamp)]
  }

  lemma {:induction false} AfterIsSince(ks: seq<Strike>, cutoff: int)
    ensures After(ks, cutoff) == |Since(Times(ks), cutoff)|
  {
    if |ks| > 0 {
      AfterIsSince(ks[..|ks| - 1], cutoff);
      assert Times(ks)[..|ks| - 1] == Times(ks[..|ks| - 1]);
    }
  }

  lemma DecisionIsOwed(w: World, r: Request, s: Setup)
    requires Faithful(w, s.windowMs) && w.clock <= r.locked
    ensures Decision(w.hits, r, s) == Owed(Strikes(w.full, r.ip), r, s)
  {
    hide Since, Hits, Strikes, Times, After;
    assert SameFrom(Hits(w.hits, r.ip), Times(Strikes(w.full, r.ip)), w.clock - s.windowMs);
    AfterIsSince(Strikes(w.full, r.ip), r.locked - s.windowMs);
  }

  lemma {:induction false} StrikesAreGuesses(start: int, rs: seq<Request>, s: Setup, ip: string)
    requires ClockOk(start, rs, s)
    ensures Strikes(Run(start, rs, s).full, ip) == Guesses(rs, s, ip)
  {
    hide Next, Faithful, After, Decision, Strikes;
    if |rs| == 0 {
      NoStrikes(start, s, ip);
    } else {
      var before, r := rs[..|rs| - 1], rs[|rs| - 1];
      var w := Run(start, before, s);
      StrikesAreGuesses(start, before, s, ip);
      RunFaithful(start, before, s);
      DecisionIsOwed(w, r, s);
      EntryStep(w, r, s, ip);
    }
  }

  lemma NoStrikes(start: int, s: Setup, ip: string)
    ensures Strikes(Run(start, [], s).full, ip) == []
  {}

  /** After any run the checks answer as the requests alone demand, although entries are
      discarded: locked by the wrong tokens of the window, else by the token. */
  lemma AnswersAsOwed(start: int, rs: seq<Request>, s: Setup, r: Request)
    requires ClockOk(start, rs, s) && Run(start, rs, s).clock <= r.locked
    ensures Decision(Run(start, rs, s).hits, r, s) == Owed(Guesses(rs, s, r.ip), r, s)
  {
    hide Run, Decision, Owed, Guesses, Strikes, Faithful;
    RunFaithful(start, rs, s);
    StrikesAreGuesses(start, rs, s, r.ip);
    DecisionIsOwed(Run(start, rs, s), r, s);
  }

  /** Off a mock node a wrong token is never allowed, nor is any admin request where no admin
      token is configured. */
  lemma WrongTokenNeverAllowed(start: int, rs: seq<Request>, s: Setup, r: Request)
    requires ClockOk(start, rs, s) && Run(start, rs, s).clock <= r.locked && !s.mock
    ensures !r.good ==> Decision(Run(start, rs, s).hits, r, s) != Allowed
    ensures r.surface == Admin && !s.adminToken ==> Decision(Run(start, rs, s).hits, r, s) == Unconfigured
  {
    hide Run, Decision, Guesses;
    AnswersAsOwed(start, rs, s, r);
  }

  /** A right token is allowed exactly when fewer than `max` wrong ones stand in the window,
      and it clears the address. */
  lemma RightTokenClears(start: int, rs: seq<Request>, s: Setup, r: Request)
    requires ClockOk(start, rs + [r], s) && r.good && (r.surface == Admin ==> s.adminToken) && !s.mock
    ensures Decision(Run(start, rs, s).hits, r, s) == Allowed <==> After(Guesses(rs, s, r.ip), r.locked - s.windowMs) < s.max
    ensures After(Guesses(rs, s, r.ip), r.locked - s.windowMs) < s.max ==> r.ip !in Run(start, rs + [r], s).hits
  {
    hide Guesses, After, Decision, Trim;
    assert (rs + [r])[..|rs|] == rs;
    AnswersAsOwed(start, rs, s, r);
  }

  /** Every guess is a wrong token of that address that the limiter let through. */
  lemma {:induction false} GuessesAreWrong(rs: seq<Request>, s: Setup, ip: string, i: nat)
    requires i < |Guesses(rs, s, ip)|
    ensures exists j :: 0 <= j < |rs| && rs[j].ip == ip && !rs[j].good && Guesses(rs, s, ip)[i] == Strike(rs[j].locked, rs[j].stamp)
  {
    hide After;
    var m := |rs| - 1;
    var before := Guesses(rs[..m], s, ip);
    if i < |before| && Guesses(rs, s, ip)[i] == before[i] {
      GuessesAreWrong(rs[..m], s, ip, i);
      var j :| 0 <= j < m && rs[..m][j].ip == ip && !rs[..m][j].good && before[i] == Strike(rs[..m][j].locked, rs[..m][j].stamp);
      assert rs[j] == rs[..m][j];
    } else {
      assert rs[m].ip == ip && !rs[m].good;
    }
  }

  /** Behind both checks together: since the last success of an address, any window of the
      limiter's length, open at its start, holds at most `max` of its wrong tokens that were
      let through to the check. */
  lemma GuessesAreBounded(start: int, rs: seq<Request>, s: Setup, ip: string, hi: int)
    requires ClockOk(start, rs, s)
    ensures CountWithin(Guesses(rs, s, ip), hi - s.windowMs, hi) <= if s.max > 0 then s.max else 0
  {
    hide Spaced, CountWithin, Run, Guesses, Strikes;
    RunSpaced(start, rs, s, ip);
    StrikesAreGuesses(start, rs, s, ip);
    SpacedBounds(Strikes(Run(start, rs, s).full, ip), s, hi);
  }

  // ---- what the limiter keeps ----

  ghost predicate NoneEmpty(hits: map<string, seq<int>>) {
    forall ip :: ip in hits ==> |hits[ip]| > 0
  }

  lemma TrimNoneEmpty(hits: map<string, seq<int>>, key: string, cutoff: int)
    requires NoneEmpty(hits)
    ensures NoneEmpty(Trim(hits, key, cutoff))
  {
    hide Since;
  }

  /** In every run, an address is remembered only with failures: one without any left when it
      is looked up is forgotten. */
  lemma {:induction false} NoEmptyEntries(start: int, rs: seq<Request>, s: Setup)
    ensures NoneEmpty(Run(start, rs, s).hits)
  {
    hide Trim, Since, Decision, Strikes;
    if |rs| > 0 {
      var before, r := rs[..|rs| - 1], rs[|rs| - 1];
      NoEmptyEntries(start, before, s);
      TrimNoneEmpty(Run(start, before, s).hits, r.ip, r.locked - s.windowMs);
    }
  }
}
