/** When a canary that has opened the gate can open it again, over restarts. */
module GateReopen {
  import opened Wrappers
  import opened InternetGate
  import opened GateWorld
  import opened GateCanary
  import opened GateScripts

  /** The last moment at which a call of `open` can still act on the canary. */
  function LastUse(cfg: Config, c: Canary): int {
    c.issued + cfg.freshMs + cfg.delayMs
  }

  /** These nonces refuse the canary as long as it can be used. */
  predicate Shields(cfg: Config, nonces: map<string, int>, clock: int, c: Canary) {
    clock > LastUse(cfg, c) || (c.nonce in nonces && nonces[c.nonce] + cfg.pruneMs >= LastUse(cfg, c))
  }

  /** No request that could still reach `exec.open` carries the canary. */
  ghost predicate NoneQueued(w: World, c: Canary) {
    && (forall id :: id in w.gate.asking ==> w.gate.asking[id].canary != c)
    && (forall i :: 0 <= i < |w.gate.tasks| && w.gate.tasks[i].body.OpenBody? && w.gate.tasks[i].body.canary == c ==>
          !w.gate.tasks[i].status.Waiting?)
  }

  ghost predicate NoCheck(w: World, c: Canary) {
    forall n :: n in w.checked ==> w.checked[n].canary != c
  }

  /** Shut for good: the live and the saved nonces refuse the canary; or it is too old to be
      verified once more, and what was verified before is refused or gone. */
  ghost predicate Shut(cfg: Config, w: World, c: Canary) {
    && NoneQueued(w, c) && ChecksOk(cfg, w)
    && ((Shields(cfg, w.gate.consumed, w.clock, c) && Shields(cfg, w.disk, w.clock, c))
        || (w.clock > c.issued + cfg.freshMs && (Shields(cfg, w.gate.consumed, w.clock, c) || NoCheck(w, c))))
  }

  ghost predicate OpensOther(w: World, w': World, c: Canary) {
    && |w.opens| <= |w'.opens| && w'.opens[..|w.opens|] == w.opens
    && forall j :: |w.opens| <= j < |w'.opens| ==> w'.opens[j].canary != c
  }

  lemma RefusedWhileShielded(cfg: Config, w: World, n: nat, c: Canary)
    requires Next(cfg, w, CallOpen(n)).Some? && ChecksOk(cfg, w) && Shields(cfg, w.gate.consumed, w.clock, c)
    ensures w.checked[n].canary == c ==> c.nonce in Prune(w.gate.consumed, w.clock - cfg.pruneMs)
    ensures Shields(cfg, Next(cfg, w, CallOpen(n)).value.gate.consumed, w.clock, c)
  {}

  lemma ChecksSame(cfg: Config, w: World, w': World, c: Canary)
    requires w'.checked == w.checked && w'.nextCheck == w.nextCheck && w'.clock == w.clock
    ensures ChecksOk(cfg, w) ==> ChecksOk(cfg, w')
    ensures NoCheck(w, c) ==> NoCheck(w', c)
  {}

  lemma CallStaysShut(cfg: Config, w: World, n: nat, c: Canary)
    requires Shut(cfg, w, c) && Next(cfg, w, CallOpen(n)).Some?
    ensures var w' := Next(cfg, w, CallOpen(n)).value; Shut(cfg, w', c) && OpensOther(w, w', c)
  {
    if Shields(cfg, w.gate.consumed, w.clock, c) { RefusedWhileShielded(cfg, w, n, c); }
    ChecksFewer(cfg, w, Next(cfg, w, CallOpen(n)).value, n, c);
    assert NoCheck(w, c) ==> w.checked[n].canary != c;
    hide Shields, Prune, ChecksOk, NoCheck;
  }

  lemma ChecksFewer(cfg: Config, w: World, w': World, n: nat, c: Canary)
    requires w'.checked == w.checked - {n} && w'.nextCheck == w.nextCheck && w'.clock == w.clock
    ensures ChecksOk(cfg, w) ==> ChecksOk(cfg, w')
    ensures NoCheck(w, c) ==> NoCheck(w', c)
  {}

  lemma QueueStaysShut(cfg: Config, w: World, l: Label, c: Canary)
    requires Shut(cfg, w, c) && Next(cfg, w, l).Some? && (l.Reply? || l.CallClose? || l.TimerFires?)
    ensures var w' := Next(cfg, w, l).value; Shut(cfg, w', c) && OpensOther(w, w', c)
  {
    hide Shields, Prune;
  }

  lemma TaskStaysShut(cfg: Config, w: World, l: Label, c: Canary)
    requires Shut(cfg, w, c) && Next(cfg, w, l).Some? && (l.StartBody? || l.CommandEnds? || l.FinishBody?)
    ensures var w' := Next(cfg, w, l).value; Shut(cfg, w', c) && OpensOther(w, w', c)
  {
    hide Shields, Prune, Backoff, ChecksOk, NoCheck;
    ChecksSame(cfg, w, Next(cfg, w, l).value, c);
    var i, t, t' := l.i, w.gate.tasks, Next(cfg, w, l).value.gate.tasks;
    assert |t'| == |t| && t'[i].body == t[i].body && !t'[i].status.Waiting?;
    assert forall j :: 0 <= j < |t| && j != i ==> t'[j] == t[j];
  }

  lemma TimeStaysShut(cfg: Config, w: World, l: Label, c: Canary)
    requires Shut(cfg, w, c) && Next(cfg, w, l).Some? && (l.Advance? || l.VerifyCanary?)
    ensures var w' := Next(cfg, w, l).value; Shut(cfg, w', c) && OpensOther(w, w', c)
  {}

  lemma FileStaysShut(cfg: Config, w: World, l: Label, c: Canary)
    requires Shut(cfg, w, c) && Next(cfg, w, l).Some? && (l.Answer? || l.Save? || l.Restart?)
    ensures var w' := Next(cfg, w, l).value; Shut(cfg, w', c) && OpensOther(w, w', c)
  {
    hide Shields;
  }

  lemma StaysShut(cfg: Config, w: World, l: Label, c: Canary)
    requires Shut(cfg, w, c) && Next(cfg, w, l).Some?
    ensures var w' := Next(cfg, w, l).value; Shut(cfg, w', c) && OpensOther(w, w', c)
  {
    hide Shut, OpensOther, Next;
    if l.CallOpen? {
      CallStaysShut(cfg, w, l.check, c);
    } else if l.Reply? || l.CallClose? || l.TimerFires? {
      QueueStaysShut(cfg, w, l, c);
    } else if l.StartBody? || l.CommandEnds? || l.FinishBody? {
      TaskStaysShut(cfg, w, l, c);
    } else if l.Advance? || l.VerifyCanary? {
      TimeStaysShut(cfg, w, l, c);
    } else {
      FileStaysShut(cfg, w, l, c);
    }
  }

  lemma {:induction false} ShutForGood(cfg: Config, w: World, more: seq<Label>, c: Canary)
    requires Shut(cfg, w, c) && Run(cfg, w, more).Some?
    ensures var v := Run(cfg, w, more).value; Shut(cfg, v, c) && OpensOther(w, v, c)
  {
    hide Shut, Next;
    if |more| > 0 {
      var before := more[..|more| - 1];
      ShutForGood(cfg, w, before, c);
      var u := Run(cfg, w, before).value;
      StaysShut(cfg, u, more[|more| - 1], c);
      OpensChain(w, u, Run(cfg, w, more).value, c);
    }
  }

  lemma OpensChain(w: World, u: World, v: World, c: Canary)
    requires OpensOther(w, u, c) && OpensOther(u, v, c)
    ensures OpensOther(w, v, c)
  {
    var n, k := |w.opens|, |u.opens|;
    forall j | n <= j < |v.opens| ensures v.opens[j].canary != c {
      if j < k { assert v.opens[j] == v.opens[..k][j] == u.opens[j]; }
    }
    forall j | 0 <= j < n ensures v.opens[j] == w.opens[j] {
      assert v.opens[j] == v.opens[..k][j] == u.opens[j] && u.opens[j] == u.opens[..n][j];
    }
  }

  // ---- a canary this process has opened ----

  ghost predicate OpenedHere(w: World, c: Canary) {
    exists i :: 0 <= i < |w.opens| && w.opens[i].life == w.life && w.opens[i].canary == c
  }

  lemma OpenedIsSpent(cfg: Config, w: World, c: Canary)
    requires PruneOutlasts(cfg) && Inv(cfg, w) && OpenedHere(w, c)
    ensures NoneQueued(w, c) && Shields(cfg, w.gate.consumed, w.clock, c) && ChecksOk(cfg, w)
    ensures w.clock >= c.issued - cfg.freshMs
  {
    hide ReturnsOk, AnswersOk;
    var i :| 0 <= i < |w.opens| && w.opens[i].life == w.life && w.opens[i].canary == c;
    var id := w.opens[i].id;
    assert Past(w, id) && w.admitted[id] == c;
    assert Spent(cfg, w.gate.consumed, w.clock, w.admitted[id]);
  }

  /** The canary is still fresh, and its nonce was not saved or will be pruned in time. */
  predicate CanReopen(cfg: Config, w: World, c: Canary) {
    w.clock <= c.issued + cfg.freshMs && (c.nonce !in w.disk || w.disk[c.nonce] + cfg.pruneMs < LastUse(cfg, c))
  }

  ghost predicate Reopens(w: World, v: World, c: Canary) {
    exists j :: |w.opens| <= j < |v.opens| && v.opens[j].canary == c
  }

  lemma Restarted(cfg: Config, w: World, c: Canary) returns (script: seq<Label>, v: World)
    requires CanReopen(cfg, w, c)
    ensures Run(cfg, w, script) == Some(v) && v.clock == LastUse(cfg, c) && v.opens == w.opens
    ensures v.gate == FRESH.(consumed := w.disk) && w.nextCheck in v.checked
    ensures v.checked[w.nextCheck] == Checked(c, c.issued + cfg.freshMs)
  {
    hide Run;
    v, script := w, [];
    assert Run(cfg, w, []) == Some(w) by { RunNothing(cfg, w); }
    v, script := Step(cfg, w, script, v, Restart);
    v, script := Step(cfg, w, script, v, Advance(c.issued + cfg.freshMs - w.clock));
    v, script := Step(cfg, w, script, v, VerifyCanary(c));
    v, script := Step(cfg, w, script, v, Advance(cfg.delayMs));
  }

  lemma ReopenScript(cfg: Config, w: World, c: Canary) returns (script: seq<Label>)
    requires CanReopen(cfg, w, c)
    ensures Run(cfg, w, script).Some? && Reopens(w, Run(cfg, w, script).value, c)
  {
    hide Run;
    var v;
    script, v := Restarted(cfg, w, c);
    assert c.nonce !in Prune(v.gate.consumed, v.clock - cfg.pruneMs);
    v, script := Step(cfg, w, script, v, CallOpen(w.nextCheck));
    v, script := Step(cfg, w, script, v, Reply(0, Approve));
    v, script := Step(cfg, w, script, v, StartBody(0));
    assert v.opens == w.opens + [ExecOpen(c, 0, v.life)];
    assert v.opens[|w.opens|].canary == c;
  }

  /** Such a state is within reach of every fresh canary: its open command fails, the request
      ends in an error, and nothing saves its nonce. */
  lemma FailedOpenCanReopen(cfg: Config, c: Canary) returns (script: seq<Label>, w: World)
    requires IsFresh(cfg, c, 0)
    ensures Run(cfg, Boot(0), script) == Some(w) && OpenedHere(w, c) && CanReopen(cfg, w, c)
    ensures w.gate.state.Island? && !w.egress && w.returned == map[]
  {
    hide Run;
    script := OpenStarts(cfg, c);
    w := Opening(c);
    w, script := Step(cfg, Boot(0), script, w, CommandEnds(0, false, false));
    w, script := Step(cfg, Boot(0), script, w, FinishBody(0));
    assert w.opens[0] == ExecOpen(c, 0, 0);
  }

  /** A canary this process has opened opens the gate again in some continuation, restarts
      included, if and only if it is still fresh now and its nonce is missing from the file,
      or saved so early that it is pruned before the canary's last use. */
  lemma ReopensIff(cfg: Config, clock: int, script: seq<Label>, w: World, c: Canary)
    requires PruneOutlasts(cfg) && Run(cfg, Boot(clock), script) == Some(w) && OpenedHere(w, c)
    ensures (exists more :: Run(cfg, w, more).Some? && Reopens(w, Run(cfg, w, more).value, c)) <==> CanReopen(cfg, w, c)
  {
    hide Run, Inv, OpenedHere;
    RunKeeps(cfg, clock, script);
    OpenedIsSpent(cfg, w, c);
    if CanReopen(cfg, w, c) {
      var more := ReopenScript(cfg, w, c);
    } else {
      assert Shut(cfg, w, c);
      forall more | Run(cfg, w, more).Some? ensures !Reopens(w, Run(cfg, w, more).value, c) {
        ShutForGood(cfg, w, more, c);
      }
    }
  }
}
