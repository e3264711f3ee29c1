/** The way back: whatever has happened to this process, the gate can end closed. */
module GateRecovers {
  import opened Wrappers
  import opened InternetGate
  import opened GateWorld
  import opened GateSafety
  import GateScripts

  /** Steps that take no new request and let every command succeed. */
  predicate Quiet(l: Label) {
    l.Advance? || l.TimerFires? || l.StartBody? || (l.CommandEnds? && l.ok) || l.FinishBody?
  }

  ghost predicate AllQuiet(script: seq<Label>) {
    forall i :: 0 <= i < |script| ==> Quiet(script[i])
  }

  ghost predicate AllDone(tasks: seq<Task>) {
    forall i :: 0 <= i < |tasks| ==> tasks[i].status.Done?
  }

  ghost predicate Safe(cfg: Config, w: World) {
    Inv(cfg, w) && EgressOk(w)
  }

  /** Steps a task still needs. */
  function Rank(s: Status): nat {
    match s
    case Waiting => 3
    case Running => 2
    case Settled(_) => 1
    case Done(_) => 0
  }

  function Work(tasks: seq<Task>): nat {
    if |tasks| == 0 then 0 else Work(tasks[..|tasks| - 1]) + Rank(tasks[|tasks| - 1].status)
  }

  lemma {:induction false} WorkFalls(tasks: seq<Task>, i: nat, s: Status)
    requires i < |tasks| && Rank(s) < Rank(tasks[i].status)
    ensures Work(SetStatus(tasks, i, s)) < Work(tasks)
  {
    var m := |tasks| - 1;
    if i < m {
      WorkFalls(tasks[..m], i, s);
      assert SetStatus(tasks, i, s)[..m] == SetStatus(tasks[..m], i, s);
    } else {
      assert SetStatus(tasks, i, s)[..m] == tasks[..m];
    }
  }

  lemma SafeStep(cfg: Config, w: World, l: Label)
    requires Safe(cfg, w) && Next(cfg, w, l).Some? && !l.Restart?
    ensures Safe(cfg, Next(cfg, w, l).value)
  {
    hide Next, Recloses, DeadlineNear, EgressOk, InOrder, Chained;
    NextKeeps(cfg, w, l);
    EgressKept(cfg, w, l);
  }

  lemma {:induction false} Prepend(cfg: Config, w: World, l: Label, script: seq<Label>)
    requires Next(cfg, w, l).Some?
    ensures Run(cfg, w, [l] + script) == Run(cfg, Next(cfg, w, l).value, script)
  {
    hide Next;
    if |script| == 0 {
      assert [l] + script == [l] && [l][..0] == [];
    } else {
      var m := |script| - 1;
      assert ([l] + script)[..m + 1] == [l] + script[..m];
      Prepend(cfg, w, l, script[..m]);
    }
  }

  lemma FirstUndone(tasks: seq<Task>) returns (i: nat)
    requires !AllDone(tasks)
    ensures i < |tasks| && !tasks[i].status.Done? && forall j :: 0 <= j < i ==> tasks[j].status.Done?
  {
    i := 0;
    while tasks[i].status.Done?
      invariant i < |tasks| && forall j :: 0 <= j < i ==> tasks[j].status.Done?
      decreases |tasks| - i
    {
      i := i + 1;
      assert i < |tasks| by {
        if i == |tasks| { assert AllDone(tasks); }
      }
    }
  }

  lemma CanStart(g: Mem, i: nat)
    requires Chained(g) && i < |g.tasks| && g.tasks[i].status.Waiting?
    requires forall j :: 0 <= j < i ==> g.tasks[j].status.Done?
    ensures Startable(g.tasks, i)
  {}

  lemma StartStep(cfg: Config, w: World, i: nat)
    requires i < |w.gate.tasks| && Startable(w.gate.tasks, i)
    ensures var n := Next(cfg, w, StartBody(i)); n.Some? && n.value.gate.tasks == SetStatus(w.gate.tasks, i, Running)
  {
    hide SetStatus, Startable;
  }

  lemma EndStep(cfg: Config, w: World, i: nat)
    requires i < |w.gate.tasks| && w.gate.tasks[i].status.Running?
    ensures var n := Next(cfg, w, CommandEnds(i, true, false));
            n.Some? && n.value.gate.tasks == SetStatus(w.gate.tasks, i, Settled(true))
  {
    hide SetStatus, Effect;
  }

  lemma FinishStep(cfg: Config, w: World, i: nat)
    requires i < |w.gate.tasks| && w.gate.tasks[i].status.Settled?
    ensures var n := Next(cfg, w, FinishBody(i));
            n.Some? && n.value.gate.tasks == SetStatus(w.gate.tasks, i, Done(w.gate.tasks[i].status.ok))
  {
    hide SetStatus, Backoff;
  }

  /** The first body that has not ended can take its next step. */
  lemma NextStep(cfg: Config, w: World, i: nat) returns (l: Label)
    requires Safe(cfg, w) && i < |w.gate.tasks| && !w.gate.tasks[i].status.Done?
    requires forall j :: 0 <= j < i ==> w.gate.tasks[j].status.Done?
    ensures Quiet(l) && Next(cfg, w, l).Some? && Work(Next(cfg, w, l).value.gate.tasks) < Work(w.gate.tasks)
  {
    hide Next, InOrder, Chained, Recloses, DeadlineNear, EgressOk, Startable, SetStatus, Work, Replay;
    var t := w.gate.tasks;
    if t[i].status.Waiting? {
      CanStart(w.gate, i);
      StartStep(cfg, w, i);
      l := StartBody(i);
      WorkFalls(t, i, Running);
    } else if t[i].status.Running? {
      EndStep(cfg, w, i);
      l := CommandEnds(i, true, false);
      WorkFalls(t, i, Settled(true));
    } else {
      FinishStep(cfg, w, i);
      l := FinishBody(i);
      WorkFalls(t, i, Done(t[i].status.ok));
    }
  }

  /** Every queued body can be brought to its end. */
  lemma {:induction false} Drain(cfg: Config, w: World) returns (script: seq<Label>, v: World)
    requires Safe(cfg, w)
    ensures AllQuiet(script) && Run(cfg, w, script) == Some(v) && Safe(cfg, v) && AllDone(v.gate.tasks)
    decreases Work(w.gate.tasks)
  {
    hide Next, Safe, Run, Work;
    if AllDone(w.gate.tasks) {
      script, v := [], w;
      GateScripts.RunNothing(cfg, w);
    } else {
      var i := FirstUndone(w.gate.tasks);
      var l := NextStep(cfg, w, i);
      SafeStep(cfg, w, l);
      script, v := Drain(cfg, Next(cfg, w, l).value);
      Prepend(cfg, w, l, script);
      script := [l] + script;
    }
  }

  lemma IdleGate(cfg: Config, w: World)
    requires Safe(cfg, w) && AllDone(w.gate.tasks)
    ensures w.gate.state.Internet? ==> w.gate.timer.Some?
    ensures w.gate.state.Island? ==> !w.egress
    ensures w.gate.lock == if |w.gate.tasks| == 0 then None else Some(|w.gate.tasks| - 1)
  {
    hide InOrder, DeadlineNear;
  }

  /** A queued close whose turn has come runs to its end. */
  lemma CloseRuns(cfg: Config, w: World, n: nat) returns (script: seq<Label>, v: World)
    requires n < |w.gate.tasks| && w.gate.tasks[n].body.CloseBody? && Startable(w.gate.tasks, n)
    ensures AllQuiet(script) && Run(cfg, w, script) == Some(v) && v.gate.state.Island? && !v.egress
  {
    hide Run, Backoff;
    v, script := w, [];
    assert Run(cfg, w, []) == Some(w) by { GateScripts.RunNothing(cfg, w); }
    v, script := GateScripts.Step(cfg, w, script, v, StartBody(n));
    v, script := GateScripts.Step(cfg, w, script, v, CommandEnds(n, true, false));
    v, script := GateScripts.Step(cfg, w, script, v, FinishBody(n));
  }

  lemma TimerComes(cfg: Config, w: World, late: nat) returns (script: seq<Label>, v: World)
    requires w.gate.timer.Some? && w.clock + late >= w.gate.timer.value
    ensures AllQuiet(script) && Run(cfg, w, script) == Some(v)
    ensures v.gate.tasks == w.gate.tasks + [Task(CloseBody(v.clock), w.gate.lock, Waiting)]
  {
    hide Run, Next;
    var soon := w.(clock := w.clock + late);
    GateScripts.RunNothing(cfg, w);
    TwoSteps(cfg, w, late);
    v, script := GateScripts.Step(cfg, w, [], w, Advance(late));
    v, script := GateScripts.Step(cfg, w, script, soon, TimerFires);
    assert script == [Advance(late), TimerFires];
  }

  lemma TwoSteps(cfg: Config, w: World, late: nat)
    requires w.gate.timer.Some? && w.clock + late >= w.gate.timer.value
    ensures var soon := w.(clock := w.clock + late);
            && Next(cfg, w, Advance(late)) == Some(soon) && Next(cfg, soon, TimerFires).Some?
            && Next(cfg, soon, TimerFires).value.gate.tasks == w.gate.tasks + [Task(CloseBody(soon.clock), w.gate.lock, Waiting)]
            && Next(cfg, soon, TimerFires).value.clock == soon.clock
  {}

  /** With nothing queued: wait for the timer, and let its close run. */
  lemma CloseByTimer(cfg: Config, w: World) returns (script: seq<Label>, v: World)
    requires Safe(cfg, w) && AllDone(w.gate.tasks) && w.gate.state.Internet?
    ensures AllQuiet(script) && Run(cfg, w, script) == Some(v) && v.gate.state.Island? && !v.egress
  {
    hide Run, Safe;
    IdleGate(cfg, w);
    var u, rest;
    script, u := TimerComes(cfg, w, if w.gate.timer.value > w.clock then w.gate.timer.value - w.clock else 0);
    rest, v := CloseRuns(cfg, u, |w.gate.tasks|);
    Append(cfg, w, script, u, rest);
    script := script + rest;
  }

  lemma {:induction false} Append(cfg: Config, w: World, a: seq<Label>, u: World, b: seq<Label>)
    requires Run(cfg, w, a) == Some(u)
    ensures Run(cfg, w, a + b) == Run(cfg, u, b)
  {
    hide Next;
    if |b| == 0 {
      assert a + b == a;
    } else {
      var m := |b| - 1;
      assert (a + b)[..|a| + m] == a + b[..m];
      Append(cfg, w, a, u, b[..m]);
    }
  }

  /** From every state a process can reach, some continuation that takes no request and has no
      failing command ends in state `island` with the egress really closed. */
  lemma CanAlwaysClose(cfg: Config, clock: int, script: seq<Label>, w: World) returns (more: seq<Label>)
    requires Run(cfg, Boot(clock), script) == Some(w) && Restart !in script
    ensures AllQuiet(more) && Run(cfg, w, more).Some?
    ensures var v := Run(cfg, w, more).value; v.gate.state.Island? && !v.egress
  {
    hide Run, Inv, EgressOk;
    forall i | 0 <= i < |script| ensures !script[i].Restart? {
      assert script[i] in script;
    }
    RunKeeps(cfg, clock, script);
    RunKeepsEgress(cfg, clock, script);
    var u;
    more, u := Drain(cfg, w);
    if u.gate.state.Internet? {
      var rest, v := CloseByTimer(cfg, u);
      Append(cfg, w, more, u, rest);
      more := more + rest;
    } else {
      IdleGate(cfg, u);
    }
  }
}
