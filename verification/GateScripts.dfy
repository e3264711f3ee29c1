/** Runs of the gate that show the conditions of GateCanary cannot be weakened. */
module GateScripts {
  import opened Wrappers
  import opened InternetGate
  import opened GateWorld
  import opened GateCanary

  lemma Extend(cfg: Config, w: World, script: seq<Label>, v: World, l: Label)
    requires Run(cfg, w, script) == Some(v) && Next(cfg, v, l).Some?
    ensures Run(cfg, w, script + [l]) == Next(cfg, v, l)
  {
    assert (script + [l])[..|script + [l]| - 1] == script;
  }

  /** Two requests for one canary both reached `exec.open` in one process. */
  ghost predicate OpenedTwice(w: World) {
    exists i, j :: 0 <= i < j < |w.opens| && w.opens[i].life == w.opens[j].life && w.opens[i].canary == w.opens[j].canary
  }

  /** The gate after one canary, verified at `from`, has opened it. */
  function OpenedOnce(cfg: Config, w: World, c: Canary): World {
    w.(gate := Mem(Internet(w.clock + cfg.ttlMs), [LogEntry(w.clock, OpenAction)], map[c.nonce := w.clock],
                   Some(w.clock + cfg.ttlMs), Some(0), 0, [Task(OpenBody(0, c, w.clock), None, Done(true))], map[], 1),
       egress := true, nextCheck := 1, returned := map[0 := c], admitted := [c],
       opens := [ExecOpen(c, 0, 0)])
  }

  /** The gate with one approved open at its command. */
  function Opening(c: Canary): World {
    Boot(0).(gate := FRESH.(consumed := map[c.nonce := 0], lock := Some(0), tasks := [Task(OpenBody(0, c, 0), None, Running)], nextId := 1),
             nextCheck := 1, admitted := [c], opens := [ExecOpen(c, 0, 0)])
  }

  lemma OpenStarts(cfg: Config, c: Canary) returns (script: seq<Label>)
    requires IsFresh(cfg, c, 0)
    ensures Run(cfg, Boot(0), script) == Some(Opening(c))
  {
    hide Run;
    var w := Boot(0);
    script := [];
    assert Run(cfg, Boot(0), []) == Some(w) by { RunNothing(cfg, w); }
    w, script := Step(cfg, Boot(0), script, w, VerifyCanary(c));
    w, script := Step(cfg, Boot(0), script, w, CallOpen(0));
    assert w.gate.asking == map[0 := Question(c, 0)];
    w, script := Step(cfg, Boot(0), script, w, Reply(0, Approve));
    w, script := Step(cfg, Boot(0), script, w, StartBody(0));
    assert w.gate.consumed == map[c.nonce := 0] && w.gate.asking == map[] && w.checked == map[];
    assert w.gate.tasks == Opening(c).gate.tasks;
    assert w.opens == [ExecOpen(c, 0, 0)] && w.admitted == [c];
  }

  lemma FirstOpen(cfg: Config, c: Canary) returns (script: seq<Label>)
    requires IsFresh(cfg, c, 0)
    ensures Run(cfg, Boot(0), script) == Some(OpenedOnce(cfg, Boot(0), c))
  {
    hide Run;
    script := OpenStarts(cfg, c);
    var w := Opening(c);
    w, script := Step(cfg, Boot(0), script, w, CommandEnds(0, true, false));
    w, script := Step(cfg, Boot(0), script, w, FinishBody(0));
    assert w.gate.tasks == OpenedOnce(cfg, Boot(0), c).gate.tasks;
    assert w.gate.log == [LogEntry(0, OpenAction)];
    assert w.returned == map[0 := c];
  }

  lemma RunNothing(cfg: Config, w: World)
    ensures Run(cfg, w, []) == Some(w)
  {}

  lemma Step(cfg: Config, start: World, script: seq<Label>, v: World, l: Label) returns (w: World, longer: seq<Label>)
    requires Run(cfg, start, script) == Some(v) && Next(cfg, v, l).Some?
    ensures longer == script + [l] && Some(w) == Next(cfg, v, l) == Run(cfg, start, longer)
  {
    hide Next;
    Extend(cfg, start, script, v, l);
    w, longer := Next(cfg, v, l).value, script + [l];
  }

  /** When the prune period is any shorter, some run opens the gate twice with one canary:
      issued one window ahead, used at once, and again two windows and one delay later. */
  lemma ShorterPruneReopens(cfg: Config) returns (script: seq<Label>)
    requires !PruneOutlasts(cfg)
    ensures Run(cfg, Boot(0), script).Some? && OpenedTwice(Run(cfg, Boot(0), script).value)
  {
    hide Run;
    var c := Canary("", "", "", cfg.freshMs);
    script := FirstOpen(cfg, c);
    var w := OpenedOnce(cfg, Boot(0), c);
    w, script := Step(cfg, Boot(0), script, w, Advance(2 * cfg.freshMs));
    w, script := Step(cfg, Boot(0), script, w, VerifyCanary(c));
    w, script := Step(cfg, Boot(0), script, w, Advance(cfg.delayMs));
    assert c.nonce !in Prune(w.gate.consumed, w.clock - cfg.pruneMs);
    w, script := Step(cfg, Boot(0), script, w, CallOpen(1));
    assert 1 in w.gate.asking && w.gate.asking[1].canary == c;
    w, script := Step(cfg, Boot(0), script, w, Reply(1, Approve));
    assert Startable(w.gate.tasks, 1);
    w, script := Step(cfg, Boot(0), script, w, StartBody(1));
    assert w.opens[0].canary == c && w.opens[1].canary == c;
  }

  /** A canary opens the gate at most once in every run if and only if the prune period is
      at least two freshness windows plus the delay from verifying to opening. */
  lemma OnceIffPruneOutlasts(cfg: Config)
    ensures PruneOutlasts(cfg) <==>
            forall clock, script :: Run(cfg, Boot(clock), script).Some? ==> !OpenedTwice(Run(cfg, Boot(clock), script).value)
  {
    hide Run;
    if PruneOutlasts(cfg) {
      forall clock, script | Run(cfg, Boot(clock), script).Some?
        ensures !OpenedTwice(Run(cfg, Boot(clock), script).value)
      {
        var w := Run(cfg, Boot(clock), script).value;
        if OpenedTwice(w) {
          var i, j :| 0 <= i < j < |w.opens| && w.opens[i].life == w.opens[j].life && w.opens[i].canary == w.opens[j].canary;
          OpensAtMostOnce(cfg, clock, script, w, i, j);
        }
      }
    } else {
      var script := ShorterPruneReopens(cfg);
    }
  }
}
