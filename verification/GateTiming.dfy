/** What the gate promises about time and about its audit log: the retry schedule of a failing
    close, the length of an open window, and one entry for every decision and command. */
module GateTiming {
  import opened Wrappers
  import opened InternetGate
  import opened GateWorld
  import opened GateSafety

  // ---- what has ended ----

  /** The bodies that have ended, in call order. */
  function Finished(tasks: seq<Task>): seq<Task> {
    if |tasks| == 0 then []
    else
      var t := tasks[|tasks| - 1];
      Finished(tasks[..|tasks| - 1]) + if t.status.Done? then [t] else []
  }

  lemma {:induction false} UnendedIrrelevant(tasks: seq<Task>, i: nat)
    requires i <= |tasks| && forall j :: i <= j < |tasks| ==> !tasks[j].status.Done?
    ensures Finished(tasks) == Finished(tasks[..i])
  {
    if i == |tasks| {
      assert tasks[..i] == tasks;
    } else {
      UnendedIrrelevant(tasks[..|tasks| - 1], i);
      assert tasks[..|tasks| - 1][..i] == tasks[..i];
    }
  }

  lemma {:induction false} MovingIrrelevant(tasks: seq<Task>, i: nat, s: Status)
    requires i < |tasks| && !tasks[i].status.Done? && !s.Done?
    ensures Finished(SetStatus(tasks, i, s)) == Finished(tasks)
  {
    var m := |tasks| - 1;
    if i < m {
      MovingIrrelevant(tasks[..m], i, s);
      assert SetStatus(tasks, i, s)[..m] == SetStatus(tasks[..m], i, s);
    } else {
      assert SetStatus(tasks, i, s)[..m] == tasks[..m];
    }
  }

  lemma QueuedIrrelevant(tasks: seq<Task>, t: Task)
    requires !t.status.Done?
    ensures Finished(tasks + [t]) == Finished(tasks)
  {
    assert (tasks + [t])[..|tasks|] == tasks;
  }

  /** A body that ends is the next of those that have ended. */
  lemma EndAppends(tasks: seq<Task>, i: nat, ok: bool)
    requires InOrder(tasks) && i < |tasks| && InCommand(tasks[i])
    ensures Finished(SetStatus(tasks, i, Done(ok))) == Finished(tasks) + [tasks[i].(status := Done(ok))]
  {
    hide SetStatus;
    var tasks' := SetStatus(tasks, i, Done(ok));
    EndedShape(tasks, i, Done(ok));
    UnendedIrrelevant(tasks, i);
    UnendedIrrelevant(tasks', i + 1);
    assert tasks'[..i + 1][..i] == tasks[..i];
  }

  lemma EndedShape(tasks: seq<Task>, i: nat, s: Status)
    requires InOrder(tasks) && i < |tasks| && InCommand(tasks[i])
    ensures var tasks' := SetStatus(tasks, i, s);
            && |tasks'| == |tasks| && tasks'[i] == tasks[i].(status := s) && tasks'[..i] == tasks[..i]
            && (forall j :: i < j < |tasks| ==> tasks'[j] == tasks[j] && tasks[j].status.Waiting?)
  {
    assert !tasks[i].status.Done?;
  }

  // ---- the retry count and the log, read off what has ended ----

  /** Closes that have failed since the last body that succeeded. */
  function FailedCloses(ended: seq<Task>): nat {
    if |ended| == 0 then 0
    else
      var before, t := ended[..|ended| - 1], ended[|ended| - 1];
      if t.status == Done(true) then 0
      else if t.body.CloseBody? then FailedCloses(before) + 1
      else FailedCloses(before)
  }

  /** One entry, under the time of its call, for each body that succeeded. */
  function Entries(ended: seq<Task>): seq<LogEntry> {
    if |ended| == 0 then []
    else
      var t := ended[|ended| - 1];
      Entries(ended[..|ended| - 1]) +
      if t.status == Done(true) then [LogEntry(t.body.now, if t.body.OpenBody? then OpenAction else CloseAction)] else []
  }

  /** The log without the denials. */
  function Commands(log: seq<LogEntry>): seq<LogEntry> {
    if |log| == 0 then []
    else
      var e := log[|log| - 1];
      Commands(log[..|log| - 1]) + if e.action.DenyAction? then [] else [e]
  }

  /** The times of the denials in the log. */
  function DenyTimes(log: seq<LogEntry>): seq<int> {
    if |log| == 0 then []
    else
      var e := log[|log| - 1];
      DenyTimes(log[..|log| - 1]) + if e.action.DenyAction? then [e.at] else []
  }

  // ---- the calls of a process, read off the script ----

  /** The clock at each call of `open` this process let in, by request id. */
  function OpenCalls(cfg: Config, clock: int, script: seq<Label>): seq<int>
    requires Run(cfg, Boot(clock), script).Some?
  {
    if |script| == 0 then []
    else
      var before, l := script[..|script| - 1], script[|script| - 1];
      var v, w := Run(cfg, Boot(clock), before).value, Run(cfg, Boot(clock), script).value;
      if l.Restart? then []
      else OpenCalls(cfg, clock, before) + if l.CallOpen? && |w.admitted| > |v.admitted| then [v.clock] else []
  }

  /** The clock at each call of `close`, the timer's included. */
  function CloseCalls(cfg: Config, clock: int, script: seq<Label>): seq<int>
    requires Run(cfg, Boot(clock), script).Some?
  {
    if |script| == 0 then []
    else
      var before, l := script[..|script| - 1], script[|script| - 1];
      if l.Restart? then []
      else CloseCalls(cfg, clock, before) + if l.CallClose? || l.TimerFires? then [Run(cfg, Boot(clock), before).value.clock] else []
  }

  /** The clock at the call of each request that was denied. */
  function DeniedCalls(cfg: Config, clock: int, script: seq<Label>): seq<int>
    requires Run(cfg, Boot(clock), script).Some?
  {
    if |script| == 0 then []
    else
      var before, l := script[..|script| - 1], script[|script| - 1];
      var calls := OpenCalls(cfg, clock, before);
      if l.Restart? then []
      else DeniedCalls(cfg, clock, before) + if l.Reply? && l.verdict.Deny? && l.id < |calls| then [calls[l.id]] else []
  }

  function CloseTimes(tasks: seq<Task>): seq<int> {
    if |tasks| == 0 then []
    else
      var t := tasks[|tasks| - 1];
      CloseTimes(tasks[..|tasks| - 1]) + if t.body.CloseBody? then [t.body.now] else []
  }

  /** Every request and every body carries the clock of its call. */
  ghost predicate Timed(g: Mem, opens: seq<int>, closes: seq<int>) {
    && g.nextId == |opens| && CloseTimes(g.tasks) == closes
    && (forall id :: id in g.asking ==> id < |opens| && g.asking[id].now == opens[id])
    && (forall i :: 0 <= i < |g.tasks| && g.tasks[i].body.OpenBody? ==>
          g.tasks[i].body.id < |opens| && g.tasks[i].body.now == opens[g.tasks[i].body.id])
  }

  lemma CloseTimesPush(tasks: seq<Task>, t: Task)
    ensures CloseTimes(tasks + [t]) == CloseTimes(tasks) + if t.body.CloseBody? then [t.body.now] else []
  {
    assert (tasks + [t])[..|tasks|] == tasks;
  }

  lemma {:induction false} CloseTimesMove(tasks: seq<Task>, i: nat, s: Status)
    requires i < |tasks|
    ensures CloseTimes(SetStatus(tasks, i, s)) == CloseTimes(tasks)
  {
    var m := |tasks| - 1;
    if i < m {
      CloseTimesMove(tasks[..m], i, s);
      assert SetStatus(tasks, i, s)[..m] == SetStatus(tasks[..m], i, s);
    } else {
      assert SetStatus(tasks, i, s)[..m] == tasks[..m];
    }
  }

  lemma TimedQueue(cfg: Config, w: World, l: Label, opens: seq<int>, closes: seq<int>)
    requires Timed(w.gate, opens, closes) && Next(cfg, w, l).Some? && (l.Reply? || l.CallClose? || l.TimerFires?)
    ensures Timed(Next(cfg, w, l).value.gate, opens, closes + if l.Reply? then [] else [w.clock])
  {
    hide CloseTimes;
    var t, t' := w.gate.tasks, Next(cfg, w, l).value.gate.tasks;
    if |t'| == |t| + 1 { CloseTimesPush(t, t'[|t|]); }
  }

  lemma TimedMove(cfg: Config, w: World, l: Label, opens: seq<int>, closes: seq<int>)
    requires Timed(w.gate, opens, closes) && Next(cfg, w, l).Some? && (l.StartBody? || l.CommandEnds? || l.FinishBody?)
    ensures Timed(Next(cfg, w, l).value.gate, opens, closes)
  {
    hide CloseTimes, Backoff, Effect;
    var t, t' := w.gate.tasks, Next(cfg, w, l).value.gate.tasks;
    CloseTimesMove(t, l.i, t'[l.i].status);
    assert t' == SetStatus(t, l.i, t'[l.i].status);
  }

  lemma TimedOpen(cfg: Config, w: World, n: nat, opens: seq<int>, closes: seq<int>)
    requires Timed(w.gate, opens, closes) && Next(cfg, w, CallOpen(n)).Some?
    ensures var v := Next(cfg, w, CallOpen(n)).value;
            Timed(v.gate, opens + if |v.admitted| > |w.admitted| then [w.clock] else [], closes)
  {
    hide CloseTimes, Prune;
  }

  lemma TimedRest(cfg: Config, w: World, l: Label, opens: seq<int>, closes: seq<int>)
    requires Timed(w.gate, opens, closes) && Next(cfg, w, l).Some?
    requires l.Advance? || l.VerifyCanary? || l.Answer? || l.Save? || l.Restart?
    ensures var v := Next(cfg, w, l).value;
            Timed(v.gate, if l.Restart? then [] else opens, if l.Restart? then [] else closes)
  {
    hide IsFresh;
  }

  lemma {:induction false} RunTimed(cfg: Config, clock: int, script: seq<Label>)
    requires Run(cfg, Boot(clock), script).Some?
    ensures Timed(Run(cfg, Boot(clock), script).value.gate, OpenCalls(cfg, clock, script), CloseCalls(cfg, clock, script))
  {
    hide Next, Timed;
    if |script| == 0 {
      BootTimed(clock);
    } else {
      var before, l := script[..|script| - 1], script[|script| - 1];
      var w := Run(cfg, Boot(clock), before).value;
      var opens, closes := OpenCalls(cfg, clock, before), CloseCalls(cfg, clock, before);
      RunTimed(cfg, clock, before);
      assert opens + [] == opens && closes + [] == closes;
      if l.Reply? || l.CallClose? || l.TimerFires? {
        TimedQueue(cfg, w, l, opens, closes);
      } else if l.StartBody? || l.CommandEnds? || l.FinishBody? {
        TimedMove(cfg, w, l, opens, closes);
      } else if l.CallOpen? {
        TimedOpen(cfg, w, l.check, opens, closes);
      } else {
        TimedRest(cfg, w, l, opens, closes);
      }
    }
  }

  lemma BootTimed(clock: int)
    ensures Timed(Boot(clock).gate, [], [])
  {}

  /** In every run, each queued open carries the clock of the call it stems from, and the queued
      closes carry those of the calls of `close`, in order. */
  lemma BodiesAreTimed(cfg: Config, clock: int, script: seq<Label>, w: World)
    requires Run(cfg, Boot(clock), script) == Some(w)
    ensures CloseTimes(w.gate.tasks) == CloseCalls(cfg, clock, script)
    ensures forall i :: 0 <= i < |w.gate.tasks| && w.gate.tasks[i].body.OpenBody? ==>
              var b := w.gate.tasks[i].body;
              b.id < |OpenCalls(cfg, clock, script)| && b.now == OpenCalls(cfg, clock, script)[b.id]
  {
    RunTimed(cfg, clock, script);
  }

  lemma EndedCounts(ended: seq<Task>, t: Task)
    ensures FailedCloses(ended + [t]) ==
            if t.status == Done(true) then 0 else FailedCloses(ended) + if t.body.CloseBody? then 1 else 0
    ensures Entries(ended + [t]) == Entries(ended) +
            if t.status == Done(true) then [LogEntry(t.body.now, if t.body.OpenBody? then OpenAction else CloseAction)] else []
  {
    assert (ended + [t])[..|ended|] == ended;
  }

  lemma LoggedCounts(log: seq<LogEntry>, e: LogEntry)
    ensures Commands(log + [e]) == Commands(log) + if e.action.DenyAction? then [] else [e]
    ensures DenyTimes(log + [e]) == DenyTimes(log) + if e.action.DenyAction? then [e.at] else []
  {
    assert (log + [e])[..|log|] == log;
  }

  ghost predicate Accounted(w: World, denials: seq<int>) {
    && w.gate.attempts == FailedCloses(Finished(w.gate.tasks))
    && Commands(w.gate.log) == Entries(Finished(w.gate.tasks))
    && DenyTimes(w.gate.log) == denials
  }

  lemma AccountQueue(cfg: Config, w: World, l: Label, denials: seq<int>)
    requires Accounted(w, denials) && Next(cfg, w, l).Some? && (l.Reply? || l.CallClose? || l.TimerFires?)
    ensures l.Reply? ==> l.id in w.gate.asking
    ensures Accounted(Next(cfg, w, l).value, denials + if l.Reply? && l.verdict.Deny? then [w.gate.asking[l.id].now] else [])
  {
    hide FailedCloses, Finished, Entries, Commands, DenyTimes;
    var g, g' := w.gate, Next(cfg, w, l).value.gate;
    if |g'.tasks| == |g.tasks| + 1 { QueuedIrrelevant(g.tasks, g'.tasks[|g.tasks|]); }
    if |g'.log| == |g.log| + 1 { LoggedCounts(g.log, g'.log[|g.log|]); }
  }

  lemma AccountEnd(cfg: Config, w: World, i: nat, denials: seq<int>)
    requires Accounted(w, denials) && InOrder(w.gate.tasks) && Next(cfg, w, FinishBody(i)).Some?
    ensures Accounted(Next(cfg, w, FinishBody(i)).value, denials)
  {
    hide FailedCloses, Finished, Entries, Commands, DenyTimes, InOrder, Backoff, SetStatus;
    var g, g' := w.gate, Next(cfg, w, FinishBody(i)).value.gate;
    var ok := g.tasks[i].status.ok;
    EndAppends(g.tasks, i, ok);
    EndedCounts(Finished(g.tasks), g.tasks[i].(status := Done(ok)));
    if |g'.log| == |g.log| + 1 { LoggedCounts(g.log, g'.log[|g.log|]); }
  }

  lemma AccountMove(cfg: Config, w: World, l: Label, denials: seq<int>)
    requires Accounted(w, denials) && Next(cfg, w, l).Some? && (l.StartBody? || l.CommandEnds?)
    ensures Accounted(Next(cfg, w, l).value, denials)
  {
    hide FailedCloses, Finished, Entries, Commands, DenyTimes, SetStatus, Effect;
    MovingIrrelevant(w.gate.tasks, l.i, if l.StartBody? then Running else Settled(l.ok));
  }

  lemma AccountRest(cfg: Config, w: World, l: Label, denials: seq<int>)
    requires Accounted(w, denials) && Next(cfg, w, l).Some?
    requires l.Advance? || l.VerifyCanary? || l.CallOpen? || l.Answer? || l.Save? || l.Restart?
    ensures Accounted(Next(cfg, w, l).value, if l.Restart? then [] else denials)
  {
    hide Prune, IsFresh;
  }

  lemma {:induction false} RunAccounted(cfg: Config, clock: int, script: seq<Label>)
    requires Run(cfg, Boot(clock), script).Some?
    ensures Accounted(Run(cfg, Boot(clock), script).value, DeniedCalls(cfg, clock, script))
  {
    hide Next;
    if |script| > 0 {
      var before, l := script[..|script| - 1], script[|script| - 1];
      RunAccounted(cfg, clock, before);
      RunKeeps(cfg, clock, before);
      RunTimed(cfg, clock, before);
      var w, denied := Run(cfg, Boot(clock), before).value, DeniedCalls(cfg, clock, before);
      assert InOrder(w.gate.tasks);
      assert denied + [] == denied;
      hide Accounted, Inv;
      if l.Reply? || l.CallClose? || l.TimerFires? {
        AccountQueue(cfg, w, l, denied);
      } else if l.FinishBody? {
        AccountEnd(cfg, w, l.i, denied);
      } else if l.StartBody? || l.CommandEnds? {
        AccountMove(cfg, w, l, denied);
      } else {
        AccountRest(cfg, w, l, denied);
      }
    }
  }

  /** In every run the audit log holds one entry for each body that succeeded, in call order, and
      one for each denial, each under the time of its call, and nothing else. */
  lemma LogIsComplete(cfg: Config, clock: int, script: seq<Label>, w: World)
    requires Run(cfg, Boot(clock), script) == Some(w)
    ensures Commands(w.gate.log) == Entries(Finished(w.gate.tasks))
    ensures DenyTimes(w.gate.log) == DeniedCalls(cfg, clock, script)
  {
    RunAccounted(cfg, clock, script);
  }

  // ---- retries ----

  /** Milliseconds to the next try after the k-th failure in a row. */
  function RetryDelay(k: nat): int {
    if k >= 6 then 60_000 else [1_000, 2_000, 4_000, 8_000, 16_000, 32_000][k]
  }

  lemma {:induction false} PowGrows(k: nat)
    requires k >= 6
    ensures Pow2(k) >= 64
  {
    if k == 6 { assert Pow2(3) == 8; } else { PowGrows(k - 1); }
  }

  lemma BackoffIs(k: nat)
    ensures Backoff(k) == RetryDelay(k)
  {
    if k >= 6 { PowGrows(k); } else { assert Pow2(2) == 4 && Pow2(4) == 16; }
  }

  /** In every run, the close that fails as the k-th in a row is tried again after 2, 4, 8, 16
      and 32 seconds, and after a minute from the sixth on. */
  lemma RetrySchedule(cfg: Config, clock: int, script: seq<Label>, w: World, i: nat)
    requires Run(cfg, Boot(clock), script) == Some(w)
    requires i < |w.gate.tasks| && w.gate.tasks[i].body.CloseBody? && w.gate.tasks[i].status == Settled(false)
    ensures Next(cfg, w, FinishBody(i)).Some?
    ensures var g := Next(cfg, w, FinishBody(i)).value.gate;
            var k := FailedCloses(Finished(g.tasks));
            && k == FailedCloses(Finished(w.gate.tasks)) + 1
            && g.timer == Some(w.clock + RetryDelay(k)) && g.state == w.gate.state
  {
    hide Run, FailedCloses, Finished, Entries, Commands, Backoff, RetryDelay, InOrder, SetStatus;
    RunAccounted(cfg, clock, script);
    RunKeeps(cfg, clock, script);
    BackoffIs(w.gate.attempts + 1);
    EndAppends(w.gate.tasks, i, false);
    EndedCounts(Finished(w.gate.tasks), w.gate.tasks[i].(status := Done(false)));
  }

  /** In every run, when an open fails while the state is internet, the reclose is due at once:
      the timer can fire in the next step, and then a close is queued. */
  lemma FailedReopenCloses(cfg: Config, clock: int, script: seq<Label>, w: World, i: nat)
    requires Run(cfg, Boot(clock), script) == Some(w) && w.gate.state.Internet?
    requires i < |w.gate.tasks| && w.gate.tasks[i].body.OpenBody? && w.gate.tasks[i].status == Settled(false)
    ensures Run(cfg, Boot(clock), script + [FinishBody(i), TimerFires]).Some?
    ensures var v := Run(cfg, Boot(clock), script + [FinishBody(i), TimerFires]).value;
            v.clock == w.clock && v.gate.state == w.gate.state && CloseComing(v.gate.tasks)
  {
    var u := Next(cfg, w, FinishBody(i)).value;
    var all := script + [FinishBody(i), TimerFires];
    assert all[..|all| - 1] == script + [FinishBody(i)];
    assert (script + [FinishBody(i)])[..|script|] == script;
    assert Run(cfg, Boot(clock), script + [FinishBody(i)]) == Some(u);
    var v := Next(cfg, u, TimerFires).value;
    var m := |u.gate.tasks|;
    assert v.gate.tasks[m].body.CloseBody? && !v.gate.tasks[m].status.Done?;
  }

  ghost predicate Quiet(g: Mem) {
    g.state.Island? && g.timer.Some? ==> g.attempts > 0
  }

  lemma QuietStep(cfg: Config, w: World, l: Label)
    requires Quiet(w.gate) && Next(cfg, w, l).Some?
    ensures Quiet(Next(cfg, w, l).value.gate)
  {
    hide Backoff, SetStatus, Prune, IsFresh, Effect, Startable;
  }

  lemma {:induction false} RunQuiet(cfg: Config, clock: int, script: seq<Label>)
    requires Run(cfg, Boot(clock), script).Some?
    ensures Quiet(Run(cfg, Boot(clock), script).value.gate)
  {
    hide Next, Quiet;
    if |script| == 0 {
      BootQuiet(clock);
    } else {
      var before := script[..|script| - 1];
      RunQuiet(cfg, clock, before);
      QuietStep(cfg, Run(cfg, Boot(clock), before).value, script[|script| - 1]);
    }
  }

  lemma BootQuiet(clock: int)
    ensures Quiet(Boot(clock).gate)
  {}

  /** In every run, a timer is armed in island only after a close that failed since the last
      command that succeeded: nothing is left to fire once a close has worked. */
  lemma IslandIsQuiet(cfg: Config, clock: int, script: seq<Label>, w: World)
    requires Run(cfg, Boot(clock), script) == Some(w)
    ensures w.gate.state.Island? && FailedCloses(Finished(w.gate.tasks)) == 0 ==> w.gate.timer.None?
  {
    hide Run, FailedCloses, Finished, Entries, Commands;
    RunAccounted(cfg, clock, script);
    RunQuiet(cfg, clock, script);
  }

  // ---- the open window ----

  /** Steps that close nothing on demand and let every command succeed. */
  predicate Calm(l: Label) {
    !l.CallClose? && !l.Restart? && (l.CommandEnds? ==> l.ok)
  }

  /** Open, with nothing that could close it before `until`. */
  ghost predicate HoldsOpen(w: World, ttlMs: nat, until: int) {
    && w.gate.state.Internet? && until <= w.clock + ttlMs
    && (w.gate.timer.Some? ==> w.gate.timer.value >= until)
    && (forall i :: 0 <= i < |w.gate.tasks| ==>
          && (w.gate.tasks[i].body.CloseBody? ==> w.gate.tasks[i].status.Done?)
          && w.gate.tasks[i].status != Settled(false))
  }

  lemma HoldsMove(cfg: Config, w: World, l: Label, until: int)
    requires HoldsOpen(w, cfg.ttlMs, until) && Next(cfg, w, l).Some? && Calm(l)
    requires l.StartBody? || l.CommandEnds? || l.FinishBody?
    ensures HoldsOpen(Next(cfg, w, l).value, cfg.ttlMs, until)
  {
    hide Backoff, Effect;
    var t, t' := w.gate.tasks, Next(cfg, w, l).value.gate.tasks;
    assert |t'| == |t| && forall j :: 0 <= j < |t| && j != l.i ==> t'[j] == t[j];
    assert t'[l.i].body == t[l.i].body && t[l.i].body.OpenBody?;
  }

  lemma HoldsRest(cfg: Config, w: World, l: Label, until: int)
    requires HoldsOpen(w, cfg.ttlMs, until) && Next(cfg, w, l).Some? && Calm(l) && w.clock < until
    requires !l.StartBody? && !l.CommandEnds? && !l.FinishBody?
    ensures HoldsOpen(Next(cfg, w, l).value, cfg.ttlMs, until)
  {
    hide Prune, IsFresh;
  }

  lemma ClockForward(cfg: Config, w: World, l: Label)
    requires Next(cfg, w, l).Some?
    ensures w.clock <= Next(cfg, w, l).value.clock
  {
    hide Prune, IsFresh, Backoff;
  }

  lemma {:induction false} HoldsThrough(cfg: Config, w: World, more: seq<Label>, until: int)
    requires HoldsOpen(w, cfg.ttlMs, until) && Run(cfg, w, more).Some? && Run(cfg, w, more).value.clock < until
    requires forall i :: 0 <= i < |more| ==> Calm(more[i])
    ensures HoldsOpen(Run(cfg, w, more).value, cfg.ttlMs, until)
  {
    hide Next, HoldsOpen, Calm;
    if |more| > 0 {
      var before, l := more[..|more| - 1], more[|more| - 1];
      var u := Run(cfg, w, before).value;
      ClockForward(cfg, u, l);
      HoldsThrough(cfg, w, before, until);
      if l.StartBody? || l.CommandEnds? || l.FinishBody? {
        HoldsMove(cfg, u, l, until);
      } else {
        HoldsRest(cfg, u, l, until);
      }
    }
  }

  /** A window that has opened, with no close queued, stays open for its whole length in every
      continuation without a close on demand, a failing command or a restart. */
  lemma WindowLasts(cfg: Config, clock: int, script: seq<Label>, w: World, i: nat, more: seq<Label>)
    requires Run(cfg, Boot(clock), script) == Some(w)
    requires i < |w.gate.tasks| && w.gate.tasks[i].body.OpenBody? && w.gate.tasks[i].status == Settled(true)
    requires !CloseComing(w.gate.tasks)
    requires Next(cfg, w, FinishBody(i)).Some? && Run(cfg, Next(cfg, w, FinishBody(i)).value, more).Some?
    requires Run(cfg, Next(cfg, w, FinishBody(i)).value, more).value.clock < w.clock + cfg.ttlMs
    requires forall j :: 0 <= j < |more| ==> Calm(more[j])
    ensures Run(cfg, Next(cfg, w, FinishBody(i)).value, more).value.gate.state.Internet?
  {
    hide Run, Recloses, Backoff;
    RunKeeps(cfg, clock, script);
    OnlyOne(w.gate.tasks, i);
    var v := Next(cfg, w, FinishBody(i)).value;
    var t, t' := w.gate.tasks, v.gate.tasks;
    assert forall j :: 0 <= j < |t| && j != i ==> t'[j] == t[j] && t[j].status != Settled(false);
    assert HoldsOpen(v, cfg.ttlMs, w.clock + cfg.ttlMs);
    HoldsThrough(cfg, v, more, w.clock + cfg.ttlMs);
  }
}
