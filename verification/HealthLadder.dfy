/** The health ladder of one peer over the ticks of a run (daemon/internal/heal/status.go). */
module HealthLadder {
  import opened Heal

  /** What one tick saw of the peer. */
  datatype Sight = Sight(now: int, peer: PeerState)

  /** The memo after the first `n` sights. */
  function MemoAfter(start: PeerMemo, sights: seq<Sight>, n: nat, cfg: Config): PeerMemo
    requires n <= |sights|
  {
    if n == 0 then start
    else StepPeer(sights[n - 1].now, sights[n - 1].peer, MemoAfter(start, sights, n - 1, cfg), cfg)
  }

  function StateAt(start: PeerMemo, sights: seq<Sight>, i: nat, cfg: Config): State
    requires i < |sights|
  {
    MemoAfter(start, sights, i + 1, cfg).state
  }

  ghost predicate TimeOrdered(sights: seq<Sight>) {
    forall i, j :: 0 <= i < j < |sights| ==> sights[i].now <= sights[j].now
  }

  predicate HealthyAt(sights: seq<Sight>, i: nat, cfg: Config)
    requires i < |sights|
  {
    Healthy(sights[i].peer, sights[i].now, cfg)
  }

  /** Healthy at every tick from `k` to `j`, over at least the restored hold. */
  ghost predicate HealthyStretch(sights: seq<Sight>, k: nat, j: nat, cfg: Config)
    requires j < |sights|
  {
    k <= j && (forall i :: k <= i <= j ==> HealthyAt(sights, i, cfg)) && sights[j].now - sights[k].now >= cfg.restoredHold
  }

  /** The tick that ends an unhealthy spell starts the hold; the peer is ok exactly when a
      later tick of the same stretch is the restored hold away from it. */
  lemma {:induction false} StretchState(start: PeerMemo, sights: seq<Sight>, k: nat, j: nat, cfg: Config)
    requires TimeOrdered(sights) && 0 < k <= j < |sights|
    requires !HealthyAt(sights, k - 1, cfg) && forall i :: k <= i <= j ==> HealthyAt(sights, i, cfg)
    ensures MemoAfter(start, sights, j + 1, cfg) ==
            if k < j && sights[j].now - sights[k].now >= cfg.restoredHold then PeerMemo(Fine, 0) else PeerMemo(Restored, sights[k].now)
  {
    assert HealthyAt(sights, j, cfg);
    if k < j {
      StretchState(start, sights, k, j - 1, cfg);
      assert sights[j - 1].now <= sights[j].now;
    }
  }

  lemma {:induction false} StretchStart(sights: seq<Sight>, bad: nat, j: nat, cfg: Config) returns (k: nat)
    requires bad < j < |sights| && !HealthyAt(sights, bad, cfg) && HealthyAt(sights, j, cfg)
    ensures bad < k <= j && !HealthyAt(sights, k - 1, cfg) && forall i :: k <= i <= j ==> HealthyAt(sights, i, cfg)
  {
    if !HealthyAt(sights, j - 1, cfg) { k := j; } else { k := StretchStart(sights, bad, j - 1, cfg); }
  }

  /** Ok after a stale or degraded tick means an unbroken stretch of healthy ticks at least
      as long as the restored hold. */
  lemma OkMeansHeldHealthy(start: PeerMemo, sights: seq<Sight>, bad: nat, j: nat, cfg: Config)
    requires TimeOrdered(sights) && bad < j < |sights|
    requires StateAt(start, sights, bad, cfg) in {Stale, Degraded} && StateAt(start, sights, j, cfg) == Fine
    ensures exists k :: bad < k <= j && HealthyStretch(sights, k, j, cfg)
  {
    var k := StretchStart(sights, bad, j, cfg);
    StretchState(start, sights, k, j, cfg);
    assert HealthyStretch(sights, k, j, cfg);
  }

  /** From a tick on healthy: the hold, once begun, began no later than that tick. */
  lemma {:induction false} HeldSince(start: PeerMemo, sights: seq<Sight>, from: nat, j: nat, cfg: Config)
    requires TimeOrdered(sights) && from <= j < |sights|
    requires start.state == Restored ==> start.since <= sights[0].now
    requires forall i :: from <= i <= j ==> HealthyAt(sights, i, cfg)
    ensures var m := MemoAfter(start, sights, j + 1, cfg);
            || m.state == Fine
            || (m.state == Restored && m.since <= sights[from].now
                && (from < j ==> sights[j].now - m.since < cfg.restoredHold))
  {
    if from < j {
      HeldSince(start, sights, from, j - 1, cfg);
    } else {
      SinceInPast(start, sights, j, cfg);
    }
    assert HealthyAt(sights, j, cfg);
  }

  lemma {:induction false} SinceInPast(start: PeerMemo, sights: seq<Sight>, n: nat, cfg: Config)
    requires TimeOrdered(sights) && n < |sights|
    requires start.state == Restored ==> start.since <= sights[0].now
    ensures var m := MemoAfter(start, sights, n, cfg); m.state == Restored ==> m.since <= sights[n].now
  {
    if n > 0 { SinceInPast(start, sights, n - 1, cfg); }
  }

  /** A peer whose age stays below both thresholds from tick `from` on is ok at every later
      tick that is the restored hold away from it, and stays ok. */
  lemma HealthyBecomesOk(start: PeerMemo, sights: seq<Sight>, from: nat, j: nat, cfg: Config)
    requires TimeOrdered(sights) && from < j < |sights|
    requires start.state == Restored ==> start.since <= sights[0].now
    requires forall i :: from <= i <= j ==> HealthyAt(sights, i, cfg)
    ensures sights[j].now - sights[from].now >= cfg.restoredHold ==> StateAt(start, sights, j, cfg) == Fine
    ensures StateAt(start, sights, j - 1, cfg) == Fine ==> StateAt(start, sights, j, cfg) == Fine
  {
    HeldSince(start, sights, from, j, cfg);
  }

  /** A link that renews its handshake at least every `period`, below both thresholds, is ok
      at every tick the restored hold or more after the renewals began. */
  lemma RenewingLinkIsOk(start: PeerMemo, sights: seq<Sight>, from: nat, j: nat, period: int, cfg: Config)
    requires TimeOrdered(sights) && from < j < |sights| && period < cfg.staleAfter && period < cfg.degradedAfter
    requires start.state == Restored ==> start.since <= sights[0].now
    requires forall i :: from <= i <= j ==>
               sights[i].peer.lastHandshake.Some? && sights[i].now - sights[i].peer.lastHandshake.value <= period
    ensures sights[j].now - sights[from].now >= cfg.restoredHold ==> StateAt(start, sights, j, cfg) == Fine
  {
    forall i | from <= i <= j ensures HealthyAt(sights, i, cfg) {}
    HealthyBecomesOk(start, sights, from, j, cfg);
  }
}
