/** The decision core of the self-heal daemon (daemon/internal/heal). Times and durations
    are whole nanoseconds; a handshake that never happened is None. */
module Heal {
  import opened Wrappers
  import C = Canonical

  /** A public key, as text; keys sort by code unit. */
  type Key = C.Text
  type Label = C.Text

  datatype Role = Spoke | RelayNode

  datatype PeerState = PeerState(publicKey: Key, name: Label, tunnelIp: Label, lastHandshake: Option<int>, endpoint: string)

  datatype State = Fine | Stale | Degraded | Restored | Gone

  /** `since` is the time the restored hold began; 0 outside it. */
  datatype PeerMemo = PeerMemo(state: State, since: int)

  const FIRST_SEEN := PeerMemo(Fine, 0)

  datatype PeerStatus = PeerStatus(peer: Key, name: Label, tunnelIp: Label, state: State, lastHandshake: Option<int>, endpoint: string)

  datatype ActionKind = ReResolve | BounceInterface | RaiseAlert
  datatype Action = Action(kind: ActionKind, peer: Key)
  datatype ActionRecord = ActionRecord(peer: Key, kind: ActionKind, at: int)

  datatype Config = Config(
    staleAfter: int, degradedAfter: int, restoredHold: int,
    staleness: int, window: int, maxReResolve: int, maxBounce: int)

  const MAX_STALENESS: int := 0x7FFF_FFFF_FFFF_FFFF

  function Staleness(p: PeerState, now: int): int {
    if p.lastHandshake.None? then MAX_STALENESS else now - p.lastHandshake.value
  }

  // ---- decide.go ----

  predicate Counts(r: ActionRecord, peer: Key, kind: ActionKind, cutoff: int) {
    r.peer == peer && r.kind == kind && r.at > cutoff
  }

  function CountAfter(history: seq<ActionRecord>, peer: Key, kind: ActionKind, cutoff: int): nat {
    if |history| == 0 then 0
    else CountAfter(history[..|history| - 1], peer, kind, cutoff)
         + if Counts(history[|history| - 1], peer, kind, cutoff) then 1 else 0
  }

  method CountRecent(history: seq<ActionRecord>, peer: Key, kind: ActionKind, now: int, window: int) returns (n: nat)
    ensures n == CountAfter(history, peer, kind, now - window)
  {
    var cutoff := now - window;
    n := 0;
    for i := 0 to |history|
      invariant n == CountAfter(history[..i], peer, kind, cutoff)
    {
      var r := history[i];
      assert history[..i + 1][..i] == history[..i];
      if r.peer == peer && r.kind == kind && r.at > cutoff { n := n + 1; }
    }
    assert history[..|history|] == history;
  }

  function DecidePeer(now: int, role: Role, p: PeerState, history: seq<ActionRecord>, cfg: Config): Action {
    var reResolves := CountAfter(history, p.publicKey, ReResolve, now - cfg.window);
    var bounces := CountAfter(history, p.publicKey, BounceInterface, now - cfg.window);
    if reResolves < cfg.maxReResolve then Action(ReResolve, p.publicKey)
    else if role == Spoke && bounces < cfg.maxBounce then Action(BounceInterface, p.publicKey)
    else Action(RaiseAlert, p.publicKey)
  }

  function Decide(now: int, role: Role, peers: seq<PeerState>, history: seq<ActionRecord>, cfg: Config): seq<Action> {
    if |peers| == 0 then []
    else
      var p, before := peers[|peers| - 1], Decide(now, role, peers[..|peers| - 1], history, cfg);
      if Staleness(p, now) < cfg.staleness then before else before + [DecidePeer(now, role, p, history, cfg)]
  }

  method DecideOne(now: int, role: Role, p: PeerState, history: seq<ActionRecord>, cfg: Config) returns (a: Action)
    ensures a == DecidePeer(now, role, p, history, cfg)
  {
    var reResolves := CountRecent(history, p.publicKey, ReResolve, now, cfg.window);
    var bounces := CountRecent(history, p.publicKey, BounceInterface, now, cfg.window);
    if reResolves < cfg.maxReResolve {
      a := Action(ReResolve, p.publicKey);
    } else if role == Spoke && bounces < cfg.maxBounce {
      a := Action(BounceInterface, p.publicKey);
    } else {
      a := Action(RaiseAlert, p.publicKey);
    }
  }

  method DecideAll(now: int, role: Role, peers: seq<PeerState>, history: seq<ActionRecord>, cfg: Config) returns (actions: seq<Action>)
    ensures actions == Decide(now, role, peers, history, cfg)
  {
    hide DecidePeer, Staleness, CountAfter;
    actions := [];
    for i := 0 to |peers|
      invariant actions == Decide(now, role, peers[..i], history, cfg)
    {
      assert peers[..i + 1][..i] == peers[..i];
      if Staleness(peers[i], now) >= cfg.staleness {
        var a := DecideOne(now, role, peers[i], history, cfg);
        actions := actions + [a];
      }
    }
    assert peers[..|peers|] == peers;
  }

  // ---- status.go ----

  predicate Healthy(p: PeerState, now: int, cfg: Config) {
    Staleness(p, now) < cfg.degradedAfter && Staleness(p, now) < cfg.staleAfter
  }

  function StepPeer(now: int, p: PeerState, prev: PeerMemo, cfg: Config): PeerMemo {
    var age := Staleness(p, now);
    if age >= cfg.degradedAfter then PeerMemo(Degraded, 0)
    else if age >= cfg.staleAfter then PeerMemo(Stale, 0)
    else
      match prev.state
      case Stale => PeerMemo(Restored, now)
      case Degraded => PeerMemo(Restored, now)
      case Restored => if now - prev.since >= cfg.restoredHold then PeerMemo(Fine, 0) else PeerMemo(Restored, prev.since)
      case _ => PeerMemo(Fine, 0)
  }

  function MemoOf(memo: map<Key, PeerMemo>, peer: Key): PeerMemo {
    if peer in memo then memo[peer] else FIRST_SEEN
  }

  function StatusOf(now: int, p: PeerState, prev: map<Key, PeerMemo>, cfg: Config): PeerStatus {
    PeerStatus(p.publicKey, p.name, p.tunnelIp, StepPeer(now, p, MemoOf(prev, p.publicKey), cfg).state, p.lastHandshake, p.endpoint)
  }

  function Statuses(now: int, peers: seq<PeerState>, prev: map<Key, PeerMemo>, cfg: Config): (r: seq<PeerStatus>)
    ensures |r| == |peers| && forall i :: 0 <= i < |peers| ==> r[i] == StatusOf(now, peers[i], prev, cfg)
  {
    seq(|peers|, i requires 0 <= i < |peers| => StatusOf(now, peers[i], prev, cfg))
  }

  /** The next memo: of two peers with one key the later one stays. */
  function NextMemo(now: int, peers: seq<PeerState>, prev: map<Key, PeerMemo>, cfg: Config): map<Key, PeerMemo> {
    if |peers| == 0 then map[]
    else
      var p := peers[|peers| - 1];
      NextMemo(now, peers[..|peers| - 1], prev, cfg)[p.publicKey := StepPeer(now, p, MemoOf(prev, p.publicKey), cfg)]
  }

  method Step(now: int, peers: seq<PeerState>, prev: map<Key, PeerMemo>, cfg: Config)
    returns (out: seq<PeerStatus>, next: map<Key, PeerMemo>)
    ensures out == Statuses(now, peers, prev, cfg) && next == NextMemo(now, peers, prev, cfg)
  {
    out, next := [], map[];
    for i := 0 to |peers|
      invariant out == Statuses(now, peers[..i], prev, cfg) && next == NextMemo(now, peers[..i], prev, cfg)
    {
      var p := peers[i];
      var memo := StepPeer(now, p, MemoOf(prev, p.publicKey), cfg);
      assert peers[..i + 1][..i] == peers[..i];
      next := next[p.publicKey := memo];
      out := out + [PeerStatus(p.publicKey, p.name, p.tunnelIp, memo.state, p.lastHandshake, p.endpoint)];
    }
    assert peers[..|peers|] == peers;
  }

  function StatesOf(memo: map<Key, PeerMemo>): map<Key, State> {
    map k | k in memo :: memo[k].state
  }
}
