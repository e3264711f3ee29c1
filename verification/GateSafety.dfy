/** Safety of the gate in every interleaving of opens, closes, timers, LLM replies and
    command failures. */
module GateSafety {
  import opened Wrappers
  import opened InternetGate
  import opened GateWorld

  // ---- the lock ----

  /** Bodies run one at a time in call order: nothing has left the queue while an earlier
      body is unfinished. */
  ghost predicate InOrder(tasks: seq<Task>) {
    forall i, j :: 0 <= i < j < |tasks| && !tasks[j].status.Waiting? ==> tasks[i].status.Done?
  }

  /** Each body waits for the one queued just before it. */
  ghost predicate Chained(g: Mem) {
    && (forall i :: 0 <= i < |g.tasks| ==> g.tasks[i].after == if i == 0 then None else Some(i - 1))
    && g.lock == if |g.tasks| == 0 then None else Some(|g.tasks| - 1)
  }

  predicate InCommand(t: Task) {
    t.status.Running? || t.status.Settled?
  }

  // ---- a way back to island ----

  ghost predicate CloseComing(tasks: seq<Task>) {
    exists i :: 0 <= i < |tasks| && tasks[i].body.CloseBody? && !tasks[i].status.Done?
  }

  ghost predicate OpenInCommand(tasks: seq<Task>) {
    exists i :: 0 <= i < |tasks| && tasks[i].body.OpenBody? && InCommand(tasks[i])
  }

  /** Never "open, no timer, nothing coming". */
  ghost predicate Recloses(g: Mem) {
    g.state.Internet? ==> g.timer.Some? || CloseComing(g.tasks) || OpenInCommand(g.tasks)
  }

  // ---- deadlines ----

  function MaxDelay(cfg: Config): int {
    if cfg.ttlMs > 60_000 then cfg.ttlMs else 60_000
  }

  ghost predicate DeadlineNear(cfg: Config, w: World) {
    w.gate.timer.Some? ==> w.gate.timer.value <= w.clock + MaxDelay(cfg)
  }

  // ---- the audit log ----

  /** The state the log tells: that of its last entry that is not a denial. */
  function Replay(ttlMs: nat, log: seq<LogEntry>): GateState {
    if |log| == 0 then Island
    else
      var e := log[|log| - 1];
      match e.action
      case OpenAction => Internet(e.at + ttlMs)
      case CloseAction => Island
      case DenyAction => Replay(ttlMs, log[..|log| - 1])
  }

  // ---- the real egress ----

  ghost predicate OpenJustSucceeded(tasks: seq<Task>) {
    exists i :: 0 <= i < |tasks| && tasks[i].body.OpenBody? && tasks[i].status == Settled(true)
  }

  ghost predicate CloseJustSucceeded(tasks: seq<Task>) {
    exists i :: 0 <= i < |tasks| && tasks[i].body.CloseBody? && tasks[i].status == Settled(true)
  }

  ghost predicate EgressOk(w: World) {
    && (w.egress ==> w.gate.state.Internet? || OpenJustSucceeded(w.gate.tasks))
    && (CloseJustSucceeded(w.gate.tasks) ==> !w.egress)
  }

  ghost predicate Inv(cfg: Config, w: World) {
    && InOrder(w.gate.tasks) && Chained(w.gate)
    && Recloses(w.gate)
    && DeadlineNear(cfg, w)
    && w.gate.state == Replay(cfg.ttlMs, w.gate.log)
  }

  // ---- each clause, step by step ----

  lemma OrderKept(g: Mem, i: nat)
    requires InOrder(g.tasks) && Chained(g) && Startable(g.tasks, i)
    ensures InOrder(SetStatus(g.tasks, i, Running)) && Chained(g.(tasks := SetStatus(g.tasks, i, Running)))
  {
    var tasks' := SetStatus(g.tasks, i, Running);
    if i > 0 {
      assert g.tasks[i].after == Some(i - 1);
      assert g.tasks[i - 1].status.Done?;
    }
    forall a, b | 0 <= a < b < |tasks'| && !tasks'[b].status.Waiting? ensures tasks'[a].status.Done? {
      if b == i {
        if a < i - 1 { assert !g.tasks[i - 1].status.Waiting?; }
      } else {
        assert !g.tasks[b].status.Waiting?;
      }
    }
  }

  lemma EnqueueKeeps(g: Mem, b: Body)
    requires InOrder(g.tasks) && Chained(g)
    ensures InOrder(Enqueue(g, b).tasks) && Chained(Enqueue(g, b))
  {}

  /** A body in its command moves on; everything before it is done. */
  lemma MovesOn(g: Mem, i: nat, s: Status)
    requires InOrder(g.tasks) && Chained(g) && i < |g.tasks| && InCommand(g.tasks[i]) && !s.Waiting?
    ensures InOrder(SetStatus(g.tasks, i, s)) && Chained(g.(tasks := SetStatus(g.tasks, i, s)))
  {
    var tasks' := SetStatus(g.tasks, i, s);
    forall a, b | 0 <= a < b < |tasks'| && !tasks'[b].status.Waiting? ensures tasks'[a].status.Done? {
      assert !g.tasks[b].status.Waiting?;
    }
  }

  /** Tasks and lock as they were: the lock is as it was. */
  lemma LockSame(cfg: Config, w: World, l: Label)
    requires InOrder(w.gate.tasks) && Chained(w.gate) && Next(cfg, w, l).Some?
    requires l.Advance? || l.VerifyCanary? || l.CallOpen? || l.Answer? || l.Save?
    ensures var g := Next(cfg, w, l).value.gate; InOrder(g.tasks) && Chained(g)
  {
    hide InOrder, Chained, Prune, IsFresh;
    AskingIrrelevant(w.gate, Next(cfg, w, l).value.gate);
  }

  lemma LockQueues(cfg: Config, w: World, l: Label)
    requires InOrder(w.gate.tasks) && Chained(w.gate) && Next(cfg, w, l).Some?
    requires l.Reply? || l.CallClose? || l.TimerFires?
    ensures var g := Next(cfg, w, l).value.gate; InOrder(g.tasks) && Chained(g)
  {
    hide InOrder, Chained, Enqueue;
    var g := w.gate;
    match l
    case Reply(id, verdict) =>
      AskingIrrelevant(g, g.(asking := g.asking - {id}));
      if verdict.Approve? {
        EnqueueKeeps(g.(asking := g.asking - {id}), OpenBody(id, g.asking[id].canary, g.asking[id].now));
      } else {
        AskingIrrelevant(g, Next(cfg, w, l).value.gate);
      }
    case CallClose => EnqueueKeeps(g, CloseBody(w.clock));
    case TimerFires =>
      AskingIrrelevant(g, g.(timer := None));
      EnqueueKeeps(g.(timer := None), CloseBody(w.clock));
  }

  lemma LockMoves(cfg: Config, w: World, l: Label)
    requires InOrder(w.gate.tasks) && Chained(w.gate) && Next(cfg, w, l).Some?
    requires l.StartBody? || l.CommandEnds? || l.FinishBody?
    ensures var g := Next(cfg, w, l).value.gate; InOrder(g.tasks) && Chained(g)
  {
    hide InOrder, Chained, SetStatus, Backoff, Effect;
    var g := w.gate;
    match l
    case StartBody(i) =>
      OrderKept(g, i);
      AskingIrrelevant(g.(tasks := SetStatus(g.tasks, i, Running)), Next(cfg, w, l).value.gate);
    case CommandEnds(i, ok, _) => MovesOn(g, i, Settled(ok));
    case FinishBody(i) =>
      var ok := g.tasks[i].status.ok;
      MovesOn(g, i, Done(ok));
      AskingIrrelevant(g.(tasks := SetStatus(g.tasks, i, Done(ok))), Next(cfg, w, l).value.gate);
  }

  lemma LockKept(cfg: Config, w: World, l: Label)
    requires InOrder(w.gate.tasks) && Chained(w.gate) && Next(cfg, w, l).Some?
    ensures var g := Next(cfg, w, l).value.gate; InOrder(g.tasks) && Chained(g)
  {
    hide InOrder, Chained;
    if l.Restart? {
      EmptyLock(w.disk);
    } else if l.StartBody? || l.CommandEnds? || l.FinishBody? {
      LockMoves(cfg, w, l);
    } else if l.Reply? || l.CallClose? || l.TimerFires? {
      LockQueues(cfg, w, l);
    } else {
      LockSame(cfg, w, l);
    }
  }

  lemma EmptyLock(saved: map<string, int>)
    ensures InOrder([]) && Chained(FRESH.(consumed := saved))
  {}

  lemma AskingIrrelevant(g: Mem, h: Mem)
    requires InOrder(g.tasks) && Chained(g) && h.tasks == g.tasks && h.lock == g.lock
    ensures InOrder(h.tasks) && Chained(h)
  {}

  lemma ReclosesEnqueue(g: Mem, b: Body)
    requires Recloses(g) || b.CloseBody?
    ensures Recloses(Enqueue(g, b))
  {
    var t, t' := g.tasks, Enqueue(g, b).tasks;
    if b.CloseBody? {
      assert t'[|t|].body.CloseBody? && !t'[|t|].status.Done?;
    } else if g.state.Internet? && g.timer.None? {
      if CloseComing(t) {
        var i :| 0 <= i < |t| && t[i].body.CloseBody? && !t[i].status.Done?;
        assert t'[i] == t[i];
      } else {
        var i :| 0 <= i < |t| && t[i].body.OpenBody? && InCommand(t[i]);
        assert t'[i] == t[i];
      }
    }
  }

  /** Only the end of a body takes it out of the queue or out of its command. */
  lemma ReclosesMoves(g: Mem, i: nat, s: Status)
    requires Recloses(g) && i < |g.tasks| && (s.Running? || (s.Settled? && g.tasks[i].status.Running?))
    ensures Recloses(g.(tasks := SetStatus(g.tasks, i, s)))
    ensures g.tasks[i].body.OpenBody? ==> Recloses(g.(tasks := SetStatus(g.tasks, i, s), timer := None))
  {
    var t, t' := g.tasks, SetStatus(g.tasks, i, s);
    if g.tasks[i].body.OpenBody? {
      assert t'[i].body.OpenBody? && InCommand(t'[i]);
    }
    if CloseComing(t) {
      var j :| 0 <= j < |t| && t[j].body.CloseBody? && !t[j].status.Done?;
      assert t'[j].body.CloseBody? && !t'[j].status.Done?;
    }
    if OpenInCommand(t) {
      var j :| 0 <= j < |t| && t[j].body.OpenBody? && InCommand(t[j]);
      assert t'[j].body.OpenBody? && InCommand(t'[j]);
    }
  }

  lemma ReclosesKept(cfg: Config, w: World, l: Label)
    requires Recloses(w.gate) && Next(cfg, w, l).Some?
    ensures Recloses(Next(cfg, w, l).value.gate)
  {
    var g := w.gate;
    match l
    case Reply(id, verdict) =>
      if verdict.Approve? {
        ReclosesEnqueue(g.(asking := g.asking - {id}), OpenBody(id, g.asking[id].canary, g.asking[id].now));
      }
    case CallClose => ReclosesEnqueue(g, CloseBody(w.clock));
    case TimerFires => ReclosesEnqueue(g.(timer := None), CloseBody(w.clock));
    case StartBody(i) => ReclosesMoves(g, i, Running);
    case CommandEnds(i, ok, _) => ReclosesMoves(g, i, Settled(ok));
    case _ =>
  }

  lemma {:induction false} BackoffBounds(n: nat)
    ensures n >= 1 ==> 2_000 <= Backoff(n) <= 60_000
  {
    if n >= 1 { assert Pow2(n) == 2 * Pow2(n - 1); }
  }

  lemma DeadlineKept(cfg: Config, w: World, l: Label)
    requires DeadlineNear(cfg, w) && Next(cfg, w, l).Some?
    ensures DeadlineNear(cfg, Next(cfg, w, l).value)
  {
    if l.FinishBody? { BackoffBounds(w.gate.attempts + 1); }
  }

  lemma ReplayPush(ttlMs: nat, log: seq<LogEntry>, e: LogEntry)
    ensures Replay(ttlMs, log + [e]) ==
            match e.action
            case OpenAction => Internet(e.at + ttlMs)
            case CloseAction => Island
            case DenyAction => Replay(ttlMs, log)
  {
    assert (log + [e])[..|log|] == log;
  }

  lemma FinishReplays(ttlMs: nat, g: Mem, i: nat, ok: bool, clock: int)
    requires g.state == Replay(ttlMs, g.log) && i < |g.tasks|
    ensures var h := Finish(ttlMs, g, i, ok, clock); h.state == Replay(ttlMs, h.log)
  {
    hide Replay, Backoff, SetStatus;
    var now := g.tasks[i].body.now;
    ReplayPush(ttlMs, g.log, LogEntry(now, OpenAction));
    ReplayPush(ttlMs, g.log, LogEntry(now, CloseAction));
  }

  lemma DecideReplays(ttlMs: nat, g: Mem, id: nat, v: Verdict)
    requires g.state == Replay(ttlMs, g.log) && id in g.asking
    ensures var h := Decide(g, id, v); h.state == Replay(ttlMs, h.log)
  {
    hide Replay;
    ReplayPush(ttlMs, g.log, LogEntry(g.asking[id].now, DenyAction));
  }

  lemma ReplayKept(cfg: Config, w: World, l: Label)
    requires w.gate.state == Replay(cfg.ttlMs, w.gate.log) && Next(cfg, w, l).Some?
    ensures var g := Next(cfg, w, l).value.gate; g.state == Replay(cfg.ttlMs, g.log)
  {
    if l.FinishBody? {
      FinishReplays(cfg.ttlMs, w.gate, l.i, w.gate.tasks[l.i].status.ok, w.clock);
    } else if l.Reply? {
      DecideReplays(cfg.ttlMs, w.gate, l.id, l.verdict);
    }
    hide Finish, Decide, SetStatus, Prune;
  }

  lemma EgressKept(cfg: Config, w: World, l: Label)
    requires EgressOk(w) && InOrder(w.gate.tasks) && Next(cfg, w, l).Some? && !l.Restart?
    ensures EgressOk(Next(cfg, w, l).value)
  {
    var w' := Next(cfg, w, l).value;
    var t, t' := w.gate.tasks, w'.gate.tasks;
    match l
    case CommandEnds(i, ok, stillOpen) =>
      assert forall j :: 0 <= j < |t| && j != i ==> !InCommand(t[j]) by { OnlyOne(t, i); }
      assert t'[i].status == Settled(ok);
    case FinishBody(i) =>
      assert forall j :: 0 <= j < |t| && j != i ==> !InCommand(t[j]) by { OnlyOne(t, i); }
      assert t[i].body.CloseBody? && t[i].status.ok ==> CloseJustSucceeded(t);
    case _ =>
      TasksSameSettled(cfg, w, l);
  }

  /** At most one body is in its command. */
  lemma OnlyOne(tasks: seq<Task>, i: nat)
    requires InOrder(tasks) && i < |tasks| && InCommand(tasks[i])
    ensures forall j :: 0 <= j < |tasks| && j != i ==> !InCommand(tasks[j])
  {
    forall j | 0 <= j < |tasks| && j != i ensures !InCommand(tasks[j]) {
      if j < i { assert tasks[j].status.Done?; }
    }
  }

  lemma TasksSameSettled(cfg: Config, w: World, l: Label)
    requires Next(cfg, w, l).Some? && !l.Restart? && !l.CommandEnds? && !l.FinishBody?
    ensures var g, g' := w.gate, Next(cfg, w, l).value.gate;
            && g'.state == g.state
            && (OpenJustSucceeded(g.tasks) <==> OpenJustSucceeded(g'.tasks))
            && (CloseJustSucceeded(g.tasks) <==> CloseJustSucceeded(g'.tasks))
  {
    var t, t' := w.gate.tasks, Next(cfg, w, l).value.gate.tasks;
    assert |t| <= |t'|;
    assert forall i :: |t| <= i < |t'| ==> t'[i].status.Waiting?;
    assert forall i :: 0 <= i < |t| ==> t'[i] == t[i] || (t[i].status.Waiting? && t'[i].status.Running? && t'[i].body == t[i].body);
    SettledKept(t, t');
  }

  lemma SettledKept(t: seq<Task>, t': seq<Task>)
    requires |t| <= |t'|
    requires forall i :: |t| <= i < |t'| ==> t'[i].status.Waiting?
    requires forall i :: 0 <= i < |t| ==> t'[i] == t[i] || (t[i].status.Waiting? && t'[i].status.Running? && t'[i].body == t[i].body)
    ensures OpenJustSucceeded(t) <==> OpenJustSucceeded(t')
    ensures CloseJustSucceeded(t) <==> CloseJustSucceeded(t')
  {
    if OpenJustSucceeded(t) {
      var i :| 0 <= i < |t| && t[i].body.OpenBody? && t[i].status == Settled(true);
      assert t'[i] == t[i];
    }
    if CloseJustSucceeded(t) {
      var i :| 0 <= i < |t| && t[i].body.CloseBody? && t[i].status == Settled(true);
      assert t'[i] == t[i];
    }
    if OpenJustSucceeded(t') {
      var i :| 0 <= i < |t'| && t'[i].body.OpenBody? && t'[i].status == Settled(true);
      assert t[i] == t'[i];
    }
    if CloseJustSucceeded(t') {
      var i :| 0 <= i < |t'| && t'[i].body.CloseBody? && t'[i].status == Settled(true);
      assert t[i] == t'[i];
    }
  }

  lemma NextKeeps(cfg: Config, w: World, l: Label)
    requires Inv(cfg, w) && Next(cfg, w, l).Some?
    ensures Inv(cfg, Next(cfg, w, l).value)
  {
    hide InOrder;
    hide Chained;
    hide Recloses;
    hide DeadlineNear;
    hide Next;
    LockKept(cfg, w, l);
    ReclosesKept(cfg, w, l);
    DeadlineKept(cfg, w, l);
    ReplayKept(cfg, w, l);
  }

  lemma {:induction false} RunKeeps(cfg: Config, clock: int, script: seq<Label>)
    requires Run(cfg, Boot(clock), script).Some?
    ensures Inv(cfg, Run(cfg, Boot(clock), script).value)
  {
    hide Next;
    if |script| > 0 {
      var before := script[..|script| - 1];
      RunKeeps(cfg, clock, before);
      hide Inv;
      NextKeeps(cfg, Run(cfg, Boot(clock), before).value, script[|script| - 1]);
    }
  }

  lemma {:induction false} RunKeepsEgress(cfg: Config, clock: int, script: seq<Label>)
    requires Run(cfg, Boot(clock), script).Some?
    requires forall i :: 0 <= i < |script| ==> !script[i].Restart?
    ensures EgressOk(Run(cfg, Boot(clock), script).value)
  {
    hide Next;
    if |script| > 0 {
      var before := script[..|script| - 1];
      RunKeepsEgress(cfg, clock, before);
      RunKeeps(cfg, clock, before);
      hide EgressOk;
      EgressKept(cfg, Run(cfg, Boot(clock), before).value, script[|script| - 1]);
    }
  }

  // ---- the results ----

  /** In every run, a gate in state `internet` has a reclose timer armed, or a close queued
      or in its command, or an open in its command; and no armed deadline is further away
      than the larger of the window and one minute. */
  lemma NeverLeftOpen(cfg: Config, clock: int, script: seq<Label>, w: World)
    requires Run(cfg, Boot(clock), script) == Some(w)
    ensures w.gate.state.Internet? ==> w.gate.timer.Some? || CloseComing(w.gate.tasks) || OpenInCommand(w.gate.tasks)
    ensures w.gate.timer.Some? ==> w.gate.timer.value <= w.clock + MaxDelay(cfg)
  {
    hide Run;
    hide CloseComing;
    hide OpenInCommand;
    RunKeeps(cfg, clock, script);
  }

  /** The lock: at most one gate command at a time, in call order, and a body can start as
      soon as every earlier one has ended, even if that one was rejected. */
  lemma LockIsFifo(cfg: Config, clock: int, script: seq<Label>, w: World, i: nat, j: nat)
    requires Run(cfg, Boot(clock), script) == Some(w)
    requires i < j < |w.gate.tasks|
    ensures !w.gate.tasks[j].status.Waiting? ==> w.gate.tasks[i].status.Done?
    ensures !(InCommand(w.gate.tasks[i]) && InCommand(w.gate.tasks[j]))
    ensures i == j - 1 && w.gate.tasks[i].status.Done? && w.gate.tasks[j].status.Waiting? ==> Startable(w.gate.tasks, j)
  {
    hide Run;
    hide Recloses;
    RunKeeps(cfg, clock, script);
  }

  /** The state is what the audit log says, window and all. */
  lemma StateIsTheLogs(cfg: Config, clock: int, script: seq<Label>, w: World)
    requires Run(cfg, Boot(clock), script) == Some(w)
    ensures w.gate.state == Replay(cfg.ttlMs, w.gate.log)
  {
    hide Run;
    hide Recloses;
    RunKeeps(cfg, clock, script);
  }

  /** As long as the process lives: when no gate command is running, egress that is really
      open is known to be. */
  lemma EgressIsKnown(cfg: Config, clock: int, script: seq<Label>, w: World)
    requires Run(cfg, Boot(clock), script) == Some(w)
    requires forall i :: 0 <= i < |script| ==> !script[i].Restart?
    requires forall i :: 0 <= i < |w.gate.tasks| ==> !InCommand(w.gate.tasks[i])
    ensures w.egress ==> w.gate.state.Internet?
  {
    hide Run;
    RunKeepsEgress(cfg, clock, script);
  }
}
