/** The internet gate (island/src/core/gate.ts): one stretch of code between two awaits is
    one call here. `tasks` is the promise chain behind `locked`: each body waits for the
    promise that was in `lock` when it was queued, and that promise settles whichever way
    the earlier body ends. Times are milliseconds. */
module InternetGate {
  import opened Wrappers

  /** A verified canary (island/src/core/canary.ts). */
  datatype Canary = Canary(admin: string, text: string, nonce: string, issued: int)

  datatype GateState = Island | Internet(closesAt: int)
  datatype Action = OpenAction | CloseAction | DenyAction
  datatype LogEntry = LogEntry(at: int, action: Action)

  datatype Body = OpenBody(id: nat, canary: Canary, now: int) | CloseBody(now: int)
  datatype Status = Waiting | Running | Settled(ok: bool) | Done(fulfilled: bool)
  datatype Task = Task(body: Body, after: Option<nat>, status: Status)

  /** A call to `open` that is waiting for the LLM. */
  datatype Question = Question(canary: Canary, now: int)
  datatype Verdict = Approve | Deny | Unanswered

  datatype Mem = Mem(
    state: GateState,
    log: seq<LogEntry>,
    consumed: map<string, int>,
    timer: Option<int>,
    lock: Option<nat>,
    attempts: nat,
    tasks: seq<Task>,
    asking: map<nat, Question>,
    nextId: nat)

  const FRESH := Mem(Island, [], map[], None, None, 0, [], map[], 0)

  function Pow2(n: nat): (p: nat)
    ensures p >= 1
  {
    if n == 0 then 1 else 2 * Pow2(n - 1)
  }

  /** Milliseconds until the retry of a close that has failed `attempts` times. */
  function Backoff(attempts: nat): int {
    var d := 1000 * Pow2(attempts);
    if d < 60_000 then d else 60_000
  }

  function Prune(consumed: map<string, int>, cutoff: int): map<string, int> {
    map n | n in consumed && consumed[n] >= cutoff :: consumed[n]
  }

  /** `open` up to the LLM: false means it threw "canary already used". */
  function OpenCall(pruneMs: nat, g: Mem, c: Canary, now: int): (Mem, bool) {
    var kept := Prune(g.consumed, now - pruneMs);
    if c.nonce in kept then (g.(consumed := kept), false)
    else
      (g.(consumed := kept[c.nonce := now], asking := g.asking[g.nextId := Question(c, now)], nextId := g.nextId + 1), true)
  }

  /** `locked`: queue a body behind everything queued before it. */
  function Enqueue(g: Mem, body: Body): Mem {
    g.(tasks := g.tasks + [Task(body, g.lock, Waiting)], lock := Some(|g.tasks|))
  }

  function Decide(g: Mem, id: nat, v: Verdict): Mem
    requires id in g.asking
  {
    var q := g.asking[id];
    var h := g.(asking := g.asking - {id});
    match v
    case Approve => Enqueue(h, OpenBody(id, q.canary, q.now))
    case Deny => h.(log := h.log + [LogEntry(q.now, DenyAction)])
    case Unanswered => h
  }

  function CloseCall(g: Mem, now: int): Mem {
    Enqueue(g, CloseBody(now))
  }

  function Fire(g: Mem, now: int): Mem {
    CloseCall(g.(timer := None), now)
  }

  predicate Startable(tasks: seq<Task>, i: nat) {
    && i < |tasks| && tasks[i].status.Waiting?
    && (tasks[i].after.None? || (tasks[i].after.value < |tasks| && tasks[tasks[i].after.value].status.Done?))
  }

  function SetStatus(tasks: seq<Task>, i: nat, s: Status): seq<Task>
    requires i < |tasks|
  {
    tasks[i := tasks[i].(status := s)]
  }

  /** A body's code up to the gate command. */
  function Start(g: Mem, i: nat): Mem
    requires i < |g.tasks|
  {
    g.(tasks := SetStatus(g.tasks, i, Running), timer := if g.tasks[i].body.OpenBody? then None else g.timer)
  }

  /** A body's code after the gate command ended, at time `clock`. */
  function Finish(ttlMs: nat, g: Mem, i: nat, ok: bool, clock: int): Mem
    requires i < |g.tasks|
  {
    var h := g.(tasks := SetStatus(g.tasks, i, Done(ok)));
    match g.tasks[i].body
    case OpenBody(_, _, now) =>
      if ok then
        h.(attempts := 0, state := Internet(now + ttlMs), timer := Some(clock + ttlMs), log := g.log + [LogEntry(now, OpenAction)])
      else if g.state.Internet? then h.(timer := Some(clock))
      else h
    case CloseBody(now) =>
      if ok then h.(attempts := 0, state := Island, timer := None, log := g.log + [LogEntry(now, CloseAction)])
      else h.(attempts := g.attempts + 1, timer := Some(clock + Backoff(g.attempts + 1)))
  }

  class Gate {
    const ttlMs: nat
    const pruneMs: nat
    var state: GateState
    var log: seq<LogEntry>
    var consumed: map<string, int>
    var timer: Option<int>
    var lock: Option<nat>
    var recloseAttempts: nat
    // the event loop's side: queued bodies and calls waiting for the LLM
    var tasks: seq<Task>
    var asking: map<nat, Question>
    var nextId: nat

    function Memory(): Mem
      reads this
    {
      Mem(state, log, consumed, timer, lock, recloseAttempts, tasks, asking, nextId)
    }

    /** A new gate with the nonces of an earlier run (`loadConsumed`). */
    constructor (ttlMs: nat, pruneMs: nat, saved: map<string, int>)
      ensures this.ttlMs == ttlMs && this.pruneMs == pruneMs
      ensures Memory() == FRESH.(consumed := saved)
    {
      this.ttlMs, this.pruneMs := ttlMs, pruneMs;
      state, log, consumed, timer, lock, recloseAttempts := Island, [], saved, None, None, 0;
      tasks, asking, nextId := [], map[], 0;
    }

    method Open(canary: Canary, now: int) returns (asked: bool)
      modifies this
      ensures (Memory(), asked) == OpenCall(pruneMs, old(Memory()), canary, now)
    {
      PruneConsumed(now - pruneMs);
      if canary.nonce in consumed { return false; }
      consumed := consumed[canary.nonce := now];
      asking := asking[nextId := Question(canary, now)];
      nextId := nextId + 1;
      return true;
    }

    /** The loop that deletes aged nonces while it walks the map. */
    method PruneConsumed(cutoff: int)
      modifies this`consumed
      ensures consumed == Prune(old(consumed), cutoff)
    {
      var before := consumed;
      var left := before.Keys;
      while left != {}
        invariant left <= before.Keys
        invariant consumed == map n | n in before && (n in left || before[n] >= cutoff) :: before[n]
        decreases |left|
      {
        var nonce :| nonce in left;
        left := left - {nonce};
        if before[nonce] < cutoff {
          consumed := consumed - {nonce};
        }
      }
    }

    method Locked(body: Body)
      modifies this
      ensures Memory() == Enqueue(old(Memory()), body)
    {
      tasks, lock := tasks + [Task(body, lock, Waiting)], Some(|tasks|);
    }

    method Answered(id: nat, verdict: Verdict)
      requires id in asking
      modifies this
      ensures Memory() == Decide(old(Memory()), id, verdict)
    {
      var q := asking[id];
      asking := asking - {id};
      match verdict
      case Approve => Locked(OpenBody(id, q.canary, q.now));
      case Deny => log := log + [LogEntry(q.now, DenyAction)];
      case Unanswered =>
    }

    method Close(now: int)
      modifies this
      ensures Memory() == CloseCall(old(Memory()), now)
    {
      Locked(CloseBody(now));
    }

    method ScheduleReclose(delayMs: int, clock: int)
      modifies this`timer
      ensures timer == Some(clock + delayMs)
    {
      timer := Some(clock + delayMs);
    }

    method TimerFires(now: int)
      modifies this
      ensures Memory() == Fire(old(Memory()), now)
    {
      timer := None;
      Close(now);
    }

    method StartBody(i: nat)
      requires i < |tasks|
      modifies this
      ensures Memory() == Start(old(Memory()), i)
    {
      if tasks[i].body.OpenBody? {
        timer := None;
      }
      tasks := SetStatus(tasks, i, Running);
    }

    method CommandEnded(i: nat, ok: bool)
      requires i < |tasks|
      modifies this
      ensures Memory() == old(Memory()).(tasks := SetStatus(old(tasks), i, Settled(ok)))
    {
      tasks := SetStatus(tasks, i, Settled(ok));
    }

    method FinishBody(i: nat, ok: bool, clock: int)
      requires i < |tasks|
      modifies this
      ensures Memory() == Finish(ttlMs, old(Memory()), i, ok, clock)
    {
      var body := tasks[i].body;
      tasks := SetStatus(tasks, i, Done(ok));
      if body.OpenBody? {
        if !ok {
          if state.Internet? { ScheduleReclose(0, clock); }
          return;
        }
        recloseAttempts := 0;
        state := Internet(body.now + ttlMs);
        ScheduleReclose(ttlMs, clock);
        log := log + [LogEntry(body.now, OpenAction)];
      } else {
        if !ok {
          recloseAttempts := recloseAttempts + 1;
          ScheduleReclose(Backoff(recloseAttempts), clock);
          return;
        }
        timer := None;
        recloseAttempts := 0;
        state := Island;
        log := log + [LogEntry(body.now, CloseAction)];
      }
    }
  }
}
