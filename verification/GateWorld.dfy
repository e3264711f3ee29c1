/** The gate with everything around it: the clock, the real egress, the canary route of
    island/src/main.ts and the file of spent nonces. A run is any script of these steps. */
module GateWorld {
  import opened Wrappers
  import opened InternetGate

  /** `freshMs` is the canary freshness window; no call of `open` comes later than `delayMs`
      after the verification it acts on. */
  datatype Config = Config(ttlMs: nat, pruneMs: nat, freshMs: nat, delayMs: nat)

  datatype Checked = Checked(canary: Canary, at: int)

  /** One call of `exec.open`. */
  datatype ExecOpen = ExecOpen(canary: Canary, id: nat, life: nat)

  datatype World = World(
    gate: Mem,
    clock: int,
    egress: bool,                // what nftables really lets through
    checked: map<nat, Checked>,  // canaries verified, `open` not yet called
    nextCheck: nat,
    returned: map<nat, Canary>,  // calls of `open` that returned, answer not yet sent
    answered: set<Canary>,       // requests answered
    disk: map<string, int>,      // the nonces last persisted
    admitted: seq<Canary>,       // by request id, this process
    opens: seq<ExecOpen>,        // every exec.open so far, all processes
    life: nat)

  datatype Label =
    | Advance(ms: nat)
    | VerifyCanary(canary: Canary)
    | CallOpen(check: nat)
    | Reply(id: nat, verdict: Verdict)
    | CallClose
    | TimerFires
    | StartBody(i: nat)
    | CommandEnds(i: nat, ok: bool, stillOpen: bool)
    | FinishBody(i: nat)
    | Answer(id: nat)
    | Save
    | Restart

  function Boot(clock: int): World {
    World(FRESH, clock, false, map[], 0, map[], {}, map[], [], [], 0)
  }

  /** `verifyCanary`: neither stale nor future-dated. */
  predicate IsFresh(cfg: Config, c: Canary, now: int) {
    now - c.issued <= cfg.freshMs && c.issued - now <= cfg.freshMs
  }

  /** What the command did to the real egress: a failed open changes nothing, a failed
      close may or may not have closed it. */
  function Effect(body: Body, ok: bool, stillOpen: bool, egress: bool): bool {
    match body
    case OpenBody(_, _, _) => ok || egress
    case CloseBody(_) => !ok && egress && stillOpen
  }

  function Next(cfg: Config, w: World, l: Label): Option<World> {
    match l
    case Advance(ms) => Some(w.(clock := w.clock + ms))
    case VerifyCanary(c) =>
      if !IsFresh(cfg, c, w.clock) then None
      else Some(w.(checked := w.checked[w.nextCheck := Checked(c, w.clock)], nextCheck := w.nextCheck + 1))
    case CallOpen(n) =>
      if n !in w.checked || w.clock > w.checked[n].at + cfg.delayMs then None
      else
        var c := w.checked[n].canary;
        var (g, asked) := OpenCall(cfg.pruneMs, w.gate, c, w.clock);
        Some(w.(gate := g, checked := w.checked - {n}, admitted := if asked then w.admitted + [c] else w.admitted))
    case Reply(id, verdict) =>
      if id !in w.gate.asking then None
      else
        var c := w.gate.asking[id].canary;
        Some(w.(gate := Decide(w.gate, id, verdict), returned := if verdict.Deny? then w.returned[id := c] else w.returned))
    case CallClose => Some(w.(gate := CloseCall(w.gate, w.clock)))
    case TimerFires =>
      if w.gate.timer.None? || w.clock < w.gate.timer.value then None
      else Some(w.(gate := Fire(w.gate, w.clock)))
    case StartBody(i) =>
      if !Startable(w.gate.tasks, i) then None
      else
        var b := w.gate.tasks[i].body;
        Some(w.(gate := Start(w.gate, i),
                opens := if b.OpenBody? then w.opens + [ExecOpen(b.canary, b.id, w.life)] else w.opens))
    case CommandEnds(i, ok, stillOpen) =>
      if i >= |w.gate.tasks| || !w.gate.tasks[i].status.Running? then None
      else
        Some(w.(gate := w.gate.(tasks := SetStatus(w.gate.tasks, i, Settled(ok))),
                egress := Effect(w.gate.tasks[i].body, ok, stillOpen, w.egress)))
    case FinishBody(i) =>
      if i >= |w.gate.tasks| || !w.gate.tasks[i].status.Settled? then None
      else
        var t := w.gate.tasks[i];
        Some(w.(gate := Finish(cfg.ttlMs, w.gate, i, t.status.ok, w.clock),
                returned := if t.body.OpenBody? && t.status.ok then w.returned[t.body.id := t.body.canary] else w.returned))
    case Answer(id) =>
      if id !in w.returned then None
      else
        Some(w.(disk := w.gate.consumed, returned := w.returned - {id}, answered := w.answered + {w.returned[id]}))
    case Save => Some(w.(disk := w.gate.consumed))
    case Restart =>
      Some(w.(gate := FRESH.(consumed := w.disk), checked := map[], returned := map[], admitted := [], life := w.life + 1))
  }

  function Run(cfg: Config, w: World, script: seq<Label>): Option<World> {
    if |script| == 0 then Some(w)
    else
      var before := Run(cfg, w, script[..|script| - 1]);
      if before.None? then None else Next(cfg, before.value, script[|script| - 1])
  }
}
