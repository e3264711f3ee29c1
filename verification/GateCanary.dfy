/** A canary opens the gate at most once: consumed nonces may be pruned, because a nonce is
    only dropped when the freshness check already refuses the canary that carried it. */
module GateCanary {
  import opened Wrappers
  import opened InternetGate
  import opened GateWorld

  /** Pruning outlasts every use of a canary: freshness is two-sided, so two uses can lie
      two windows apart, plus the delay between verifying and opening. */
  predicate PruneOutlasts(cfg: Config) {
    cfg.pruneMs >= 2 * cfg.freshMs + cfg.delayMs
  }

  /** `c` can not get past the nonce check any more: its nonce is remembered from a time
      inside its window, or no call of `open` can still act on it. */
  ghost predicate Spent(cfg: Config, consumed: map<string, int>, clock: int, c: Canary) {
    && clock >= c.issued - cfg.freshMs
    && ((c.nonce in consumed && consumed[c.nonce] >= c.issued - cfg.freshMs)
        || clock > c.issued + cfg.freshMs + cfg.delayMs)
  }

  ghost predicate ChecksOk(cfg: Config, w: World) {
    && (forall n :: n in w.checked ==> n < w.nextCheck)
    && (forall n :: n in w.checked ==>
          w.checked[n].at <= w.clock && IsFresh(cfg, w.checked[n].canary, w.checked[n].at))
  }

  /** Requests of this process: each was admitted once, with its own canary. */
  ghost predicate RequestsOk(w: World) {
    && |w.admitted| == w.gate.nextId
    && (forall i, j :: 0 <= i < j < |w.admitted| ==> w.admitted[i] != w.admitted[j])
    && (forall id :: id in w.gate.asking ==> id < |w.admitted| && w.gate.asking[id].canary == w.admitted[id])
    && (forall i :: 0 <= i < |w.gate.tasks| && w.gate.tasks[i].body.OpenBody? ==>
          var b := w.gate.tasks[i].body;
          b.id < |w.admitted| && b.canary == w.admitted[b.id] && b.id !in w.gate.asking)
    && (forall i, j :: 0 <= i < j < |w.gate.tasks| && w.gate.tasks[i].body.OpenBody? && w.gate.tasks[j].body.OpenBody? ==>
          w.gate.tasks[i].body.id != w.gate.tasks[j].body.id)
  }

  /** Request `id` will not reach `exec.open` any more. */
  ghost predicate Past(w: World, id: nat) {
    && id < |w.admitted| && id !in w.gate.asking
    && forall i :: 0 <= i < |w.gate.tasks| && w.gate.tasks[i].body.OpenBody? && w.gate.tasks[i].body.id == id ==>
         !w.gate.tasks[i].status.Waiting?
  }

  ghost predicate OpensOk(w: World) {
    && (forall i :: 0 <= i < |w.opens| ==> w.opens[i].life <= w.life)
    && (forall i :: 0 <= i < |w.opens| && w.opens[i].life == w.life ==>
          Past(w, w.opens[i].id) && w.opens[i].canary == w.admitted[w.opens[i].id])
    && (forall i, j :: 0 <= i < j < |w.opens| && w.opens[i].life == w.opens[j].life ==> w.opens[i].canary != w.opens[j].canary)
  }

  ghost predicate ReturnsOk(w: World) {
    forall id :: id in w.returned ==> Past(w, id) && w.returned[id] == w.admitted[id]
  }

  /** No request that could still reach `exec.open` carries an answered canary. */
  ghost predicate AnswersOk(w: World) {
    forall id :: 0 <= id < |w.admitted| && w.admitted[id] in w.answered ==> Past(w, id)
  }

  ghost predicate SpentOk(cfg: Config, w: World) {
    && (forall i :: 0 <= i < |w.admitted| ==> Spent(cfg, w.gate.consumed, w.clock, w.admitted[i]))
    && (forall c :: c in w.answered ==> Spent(cfg, w.gate.consumed, w.clock, c) && Spent(cfg, w.disk, w.clock, c))
  }

  ghost predicate Inv(cfg: Config, w: World) {
    ChecksOk(cfg, w) && RequestsOk(w) && OpensOk(w) && ReturnsOk(w) && AnswersOk(w) && SpentOk(cfg, w)
  }

  // ---- spent nonces ----

  lemma SpentSurvivesPruning(cfg: Config, consumed: map<string, int>, clock: int, c: Canary)
    requires PruneOutlasts(cfg) && Spent(cfg, consumed, clock, c)
    ensures Spent(cfg, Prune(consumed, clock - cfg.pruneMs), clock, c)
  {}

  lemma SpentIsRefused(cfg: Config, consumed: map<string, int>, clock: int, k: Checked)
    requires PruneOutlasts(cfg) && Spent(cfg, consumed, clock, k.canary)
    requires IsFresh(cfg, k.canary, k.at) && clock <= k.at + cfg.delayMs
    ensures k.canary.nonce in Prune(consumed, clock - cfg.pruneMs)
  {}

  lemma SpentSurvivesConsuming(cfg: Config, consumed: map<string, int>, clock: int, c: Canary, nonce: string)
    requires Spent(cfg, consumed, clock, c)
    ensures Spent(cfg, consumed[nonce := clock], clock, c)
  {}

  lemma SpentLater(cfg: Config, consumed: map<string, int>, clock: int, later: int, c: Canary)
    requires Spent(cfg, consumed, clock, c) && clock <= later
    ensures Spent(cfg, consumed, later, c)
  {}

  // ---- steps ----

  /** A step that admits nothing, queues nothing and leaves nonces and clock alone. */
  lemma AdvanceKeeps(cfg: Config, w: World, ms: nat)
    requires Inv(cfg, w)
    ensures Inv(cfg, w.(clock := w.clock + ms))
  {
    var w' := w.(clock := w.clock + ms);
    forall id | 0 <= id < |w.admitted| ensures Past(w, id) ==> Past(w', id) {}
    forall c | Spent(cfg, w.gate.consumed, w.clock, c) ensures Spent(cfg, w.gate.consumed, w'.clock, c) {
      SpentLater(cfg, w.gate.consumed, w.clock, w'.clock, c);
    }
    forall c | Spent(cfg, w.disk, w.clock, c) ensures Spent(cfg, w.disk, w'.clock, c) {
      SpentLater(cfg, w.disk, w.clock, w'.clock, c);
    }
    hide Spent;
  }

  /** Requests, tasks and opens look the same in both worlds. */
  ghost predicate SameRequests(w: World, v: World) {
    && v.admitted == w.admitted && v.gate.nextId == w.gate.nextId && v.gate.asking == w.gate.asking
    && v.gate.tasks == w.gate.tasks && v.opens == w.opens && v.life == w.life
  }

  lemma SameRequestsKeep(cfg: Config, w: World, v: World)
    requires Inv(cfg, w) && SameRequests(w, v)
    requires v.returned == w.returned && v.answered == w.answered
    ensures RequestsOk(v) && OpensOk(v) && ReturnsOk(v) && AnswersOk(v)
  {
    hide ChecksOk;
    hide SpentOk;
    forall id ensures Past(v, id) == Past(w, id) {}
  }

  lemma OpenKeeps(cfg: Config, w: World, n: nat)
    requires PruneOutlasts(cfg) && Inv(cfg, w) && Next(cfg, w, CallOpen(n)).Some?
    ensures Inv(cfg, Next(cfg, w, CallOpen(n)).value)
  {
    hide RequestsOk, OpensOk, ReturnsOk, AnswersOk, Spent, Prune;
    var w' := Next(cfg, w, CallOpen(n)).value;
    var k := w.checked[n];
    var kept := Prune(w.gate.consumed, w.clock - cfg.pruneMs);
    PrunedSpent(cfg, w);
    if k.canary.nonce in kept {
      SameRequestsKeep(cfg, w, w');
    } else {
      NotSpentYet(cfg, w, n);
      KnownRequests(w);
      AdmitKeeps(cfg, w, w', k.canary);
      AdmitSpent(cfg, w, n);
    }
  }

  lemma KnownRequests(w: World)
    requires RequestsOk(w)
    ensures w.gate.nextId !in w.gate.asking
  {}

  lemma PrunedSpent(cfg: Config, w: World)
    requires PruneOutlasts(cfg) && SpentOk(cfg, w)
    ensures SpentOk(cfg, w.(gate := w.gate.(consumed := Prune(w.gate.consumed, w.clock - cfg.pruneMs))))
  {
    forall c | Spent(cfg, w.gate.consumed, w.clock, c)
      ensures Spent(cfg, Prune(w.gate.consumed, w.clock - cfg.pruneMs), w.clock, c)
    {
      SpentSurvivesPruning(cfg, w.gate.consumed, w.clock, c);
    }
    hide Spent;
  }

  /** A canary that passes the nonce check has neither been admitted nor answered. */
  lemma NotSpentYet(cfg: Config, w: World, n: nat)
    requires PruneOutlasts(cfg) && ChecksOk(cfg, w) && SpentOk(cfg, w) && n in w.checked
    requires w.clock <= w.checked[n].at + cfg.delayMs
    requires w.checked[n].canary.nonce !in Prune(w.gate.consumed, w.clock - cfg.pruneMs)
    ensures w.checked[n].canary !in w.answered && w.checked[n].canary !in w.admitted
  {
    var c := w.checked[n].canary;
    if Spent(cfg, w.gate.consumed, w.clock, c) { SpentIsRefused(cfg, w.gate.consumed, w.clock, w.checked[n]); }
    hide Spent;
  }

  lemma AdmitKeeps(cfg: Config, w: World, w': World, c: Canary)
    requires RequestsOk(w) && OpensOk(w) && ReturnsOk(w) && AnswersOk(w)
    requires c !in w.answered && c !in w.admitted
    requires w'.admitted == w.admitted + [c] && w'.gate.nextId == w.gate.nextId + 1
    requires w'.gate.tasks == w.gate.tasks && w'.opens == w.opens && w'.life == w.life
    requires w'.returned == w.returned && w'.answered == w.answered
    requires w'.gate.asking.Keys == w.gate.asking.Keys + {w.gate.nextId} && w'.gate.asking[w.gate.nextId].canary == c
    requires forall id :: id in w.gate.asking ==> w'.gate.asking[id] == w.gate.asking[id]
    ensures RequestsOk(w') && OpensOk(w') && ReturnsOk(w') && AnswersOk(w')
  {
    AdmitPast(w, w');
    AdmitRequests(w, w', c);
    hide RequestsOk, Past;
  }

  lemma AdmitPast(w: World, w': World)
    requires RequestsOk(w) && w'.gate.tasks == w.gate.tasks && |w'.admitted| == |w.admitted| + 1
    requires w'.gate.asking.Keys == w.gate.asking.Keys + {w.gate.nextId}
    ensures forall id: nat :: Past(w, id) ==> Past(w', id)
    ensures forall id: nat :: Past(w, id) ==> id < |w.admitted|
  {}

  lemma AdmitRequests(w: World, w': World, c: Canary)
    requires RequestsOk(w) && c !in w.admitted
    requires w'.admitted == w.admitted + [c] && w'.gate.nextId == w.gate.nextId + 1 && w'.gate.tasks == w.gate.tasks
    requires w'.gate.asking.Keys == w.gate.asking.Keys + {w.gate.nextId} && w'.gate.asking[w.gate.nextId].canary == c
    requires forall id :: id in w.gate.asking ==> w'.gate.asking[id] == w.gate.asking[id]
    ensures RequestsOk(w')
  {}

  lemma AdmitSpent(cfg: Config, w: World, n: nat)
    requires ChecksOk(cfg, w) && SpentOk(cfg, w) && n in w.checked
    requires SpentOk(cfg, w.(gate := w.gate.(consumed := Prune(w.gate.consumed, w.clock - cfg.pruneMs))))
    ensures var c := w.checked[n].canary;
            var consumed := Prune(w.gate.consumed, w.clock - cfg.pruneMs)[c.nonce := w.clock];
            && Spent(cfg, consumed, w.clock, c)
            && (forall i :: 0 <= i < |w.admitted| ==> Spent(cfg, consumed, w.clock, w.admitted[i]))
            && (forall d :: d in w.answered ==> Spent(cfg, consumed, w.clock, d))
  {
    var kept := Prune(w.gate.consumed, w.clock - cfg.pruneMs);
    var c := w.checked[n].canary;
    assert Spent(cfg, kept[c.nonce := w.clock], w.clock, c);
    forall d | Spent(cfg, kept, w.clock, d) ensures Spent(cfg, kept[c.nonce := w.clock], w.clock, d) {
      SpentSurvivesConsuming(cfg, kept, w.clock, d, c.nonce);
    }
    hide Spent;
  }

  // ---- steps that move requests along ----

  /** Checks, nonces, clock and answers look the same in both worlds. */
  lemma NoncesSame(cfg: Config, w: World, w': World)
    requires ChecksOk(cfg, w) && SpentOk(cfg, w)
    requires w'.checked == w.checked && w'.nextCheck == w.nextCheck && w'.clock == w.clock && w'.disk == w.disk
    requires w'.gate.consumed == w.gate.consumed && w'.admitted == w.admitted && w'.answered == w.answered
    ensures ChecksOk(cfg, w') && SpentOk(cfg, w')
  {
    hide Spent, IsFresh;
  }

  /** What is past stays past: so do the clauses that only ask for that. */
  lemma PastKeepsRest(w: World, w': World)
    requires OpensOk(w) && ReturnsOk(w) && AnswersOk(w)
    requires w'.opens == w.opens && w'.life == w.life && w'.admitted == w.admitted && w'.answered == w.answered
    requires forall x :: Past(w, x) ==> Past(w', x)
    requires forall id :: id in w'.returned ==> id < |w.admitted|
    requires forall id :: id in w'.returned ==>
               (id in w.returned && w'.returned[id] == w.returned[id])
               || (Past(w', id) && w'.returned[id] == w'.admitted[id])
    ensures OpensOk(w') && ReturnsOk(w') && AnswersOk(w')
  {
    hide Past;
  }

  lemma ReturnedKnown(w: World)
    requires ReturnsOk(w)
    ensures forall id :: id in w.returned ==> id < |w.admitted|
  {}

  lemma ApproveRequests(w: World, w': World, id: nat)
    requires RequestsOk(w) && id in w.gate.asking && w'.gate == Decide(w.gate, id, Approve) && w'.admitted == w.admitted
    ensures RequestsOk(w') && forall x :: Past(w, x) ==> Past(w', x)
  {
    var t := w'.gate.tasks;
    assert t[|t| - 1].body.id == id && t[..|t| - 1] == w.gate.tasks;
    forall x | Past(w, x) ensures Past(w', x) {}
  }

  lemma ApproveKeeps(cfg: Config, w: World, id: nat)
    requires Inv(cfg, w) && Next(cfg, w, Reply(id, Approve)).Some?
    ensures Inv(cfg, Next(cfg, w, Reply(id, Approve)).value)
  {
    hide ChecksOk, SpentOk, RequestsOk, OpensOk, ReturnsOk, AnswersOk, Past;
    var w' := Next(cfg, w, Reply(id, Approve)).value;
    NoncesSame(cfg, w, w');
    ReturnedKnown(w);
    ApproveRequests(w, w', id);
    PastKeepsRest(w, w');
  }

  lemma RefuseRequests(w: World, w': World, id: nat, v: Verdict)
    requires RequestsOk(w) && id in w.gate.asking && !v.Approve? && w'.gate == Decide(w.gate, id, v) && w'.admitted == w.admitted
    ensures RequestsOk(w') && Past(w', id) && id < |w'.admitted| && w.gate.asking[id].canary == w'.admitted[id]
    ensures forall x :: Past(w, x) ==> Past(w', x)
  {}

  lemma RefuseKeeps(cfg: Config, w: World, id: nat, verdict: Verdict)
    requires Inv(cfg, w) && !verdict.Approve? && Next(cfg, w, Reply(id, verdict)).Some?
    ensures Inv(cfg, Next(cfg, w, Reply(id, verdict)).value)
  {
    hide ChecksOk, SpentOk, RequestsOk, OpensOk, ReturnsOk, AnswersOk, Past;
    var w' := Next(cfg, w, Reply(id, verdict)).value;
    NoncesSame(cfg, w, w');
    ReturnedKnown(w);
    RefuseRequests(w, w', id, verdict);
    PastKeepsRest(w, w');
  }

  lemma QueueCloseRequests(w: World, w': World, now: int)
    requires RequestsOk(w) && w'.admitted == w.admitted && w'.gate.asking == w.gate.asking && w'.gate.nextId == w.gate.nextId
    requires w'.gate.tasks == w.gate.tasks + [Task(CloseBody(now), w.gate.lock, Waiting)]
    ensures RequestsOk(w') && forall x :: Past(w, x) ==> Past(w', x)
  {}

  lemma QueueCloseKeeps(cfg: Config, w: World, l: Label)
    requires Inv(cfg, w) && Next(cfg, w, l).Some? && (l.CallClose? || l.TimerFires?)
    ensures Inv(cfg, Next(cfg, w, l).value)
  {
    hide ChecksOk, SpentOk, RequestsOk, OpensOk, ReturnsOk, AnswersOk, Past;
    var w' := Next(cfg, w, l).value;
    NoncesSame(cfg, w, w');
    ReturnedKnown(w);
    QueueCloseRequests(w, w', w.clock);
    PastSame(w);
    PastKeepsRest(w, w');
  }

  lemma PastSame(w: World)
    requires ReturnsOk(w)
    ensures forall id :: id in w.returned ==> Past(w, id)
  {}

  /** A task's status moves forward, never back to waiting. */
  lemma StatusKeeps(cfg: Config, w: World, w': World, i: nat, s: Status)
    requires Inv(cfg, w) && i < |w.gate.tasks| && !s.Waiting?
    requires w'.gate.tasks == SetStatus(w.gate.tasks, i, s)
    requires w'.admitted == w.admitted && w'.gate.nextId == w.gate.nextId && w'.gate.asking == w.gate.asking
    requires w'.life == w.life && w'.answered == w.answered
    ensures RequestsOk(w') && AnswersOk(w')
    ensures forall x :: Past(w, x) ==> Past(w', x)
    ensures w.gate.tasks[i].body.OpenBody? ==> Past(w', w.gate.tasks[i].body.id)
  {
    hide Spent;
    hide ChecksOk;
    forall x | Past(w, x) ensures Past(w', x) {}
    var t, t' := w.gate.tasks, w'.gate.tasks;
    assert forall j :: 0 <= j < |t| ==> t'[j].body == t[j].body;
  }

  lemma StartKeeps(cfg: Config, w: World, i: nat)
    requires Inv(cfg, w) && Next(cfg, w, StartBody(i)).Some?
    ensures Inv(cfg, Next(cfg, w, StartBody(i)).value)
  {
    hide Spent;
    hide RequestsOk;
    hide AnswersOk;
    var w' := Next(cfg, w, StartBody(i)).value;
    StatusKeeps(cfg, w, w', i, Running);
    var b := w.gate.tasks[i].body;
    if b.OpenBody? {
      NewOpen(w, i);
    }
    hide Past;
  }

  /** The command about to start is this process's first for its canary. */
  lemma NewOpen(w: World, i: nat)
    requires RequestsOk(w) && OpensOk(w) && i < |w.gate.tasks| && w.gate.tasks[i].body.OpenBody? && w.gate.tasks[i].status.Waiting?
    ensures var b := w.gate.tasks[i].body;
            && b.id < |w.admitted| && b.canary == w.admitted[b.id]
            && forall j :: 0 <= j < |w.opens| && w.opens[j].life == w.life ==> w.opens[j].canary != b.canary
  {}

  lemma CommandKeeps(cfg: Config, w: World, l: Label, i: nat)
    requires Inv(cfg, w) && Next(cfg, w, l).Some?
    requires l == FinishBody(i) || (l.CommandEnds? && l.i == i)
    ensures Inv(cfg, Next(cfg, w, l).value)
  {
    hide ChecksOk, SpentOk, RequestsOk, OpensOk, ReturnsOk, AnswersOk, Past, Backoff;
    var w' := Next(cfg, w, l).value;
    NoncesSame(cfg, w, w');
    StatusKeeps(cfg, w, w', i, w'.gate.tasks[i].status);
    ReturnedKnown(w);
    PastSame(w);
    if w.gate.tasks[i].body.OpenBody? { TaskCanary(w, i); }
    PastKeepsRest(w, w');
  }

  lemma TaskCanary(w: World, i: nat)
    requires RequestsOk(w) && i < |w.gate.tasks| && w.gate.tasks[i].body.OpenBody?
    ensures w.gate.tasks[i].body.id < |w.admitted| && w.gate.tasks[i].body.canary == w.admitted[w.gate.tasks[i].body.id]
  {}

  /** The answered canary is that of a request that is past, and of no other. */
  lemma AnswersGrow(w: World, w': World, id: nat)
    requires RequestsOk(w) && ReturnsOk(w) && AnswersOk(w) && id in w.returned
    requires w'.admitted == w.admitted && w'.answered == w.answered + {w.returned[id]}
    requires forall x: nat :: Past(w', x) == Past(w, x)
    ensures AnswersOk(w')
  {
    forall x | 0 <= x < |w'.admitted| && w'.admitted[x] in w'.answered ensures Past(w', x) {
      if w.admitted[x] !in w.answered { assert w.admitted[x] == w.admitted[id] && x == id; }
    }
  }

  lemma PastDepends(w: World, w': World)
    requires w'.admitted == w.admitted && w'.gate.asking == w.gate.asking && w'.gate.tasks == w.gate.tasks
    ensures forall x: nat :: Past(w', x) == Past(w, x)
  {}

  lemma AnswerSpent(cfg: Config, w: World, w': World, id: nat)
    requires SpentOk(cfg, w) && ReturnsOk(w) && id in w.returned
    requires w'.disk == w.gate.consumed && w'.gate == w.gate && w'.clock == w.clock && w'.admitted == w.admitted
    requires w'.answered == w.answered + {w.returned[id]}
    ensures SpentOk(cfg, w')
  {
    hide Spent;
    assert Past(w, id) && w.returned[id] == w.admitted[id];
  }

  lemma AnswerKeeps(cfg: Config, w: World, id: nat)
    requires Inv(cfg, w) && Next(cfg, w, Answer(id)).Some?
    ensures Inv(cfg, Next(cfg, w, Answer(id)).value)
  {
    hide Spent, IsFresh;
    var w' := Next(cfg, w, Answer(id)).value;
    PastDepends(w, w');
    AnswerSpent(cfg, w, w', id);
    AnswersGrow(w, w', id);
    hide Past, SpentOk, AnswersOk;
  }

  lemma RestartKeeps(cfg: Config, w: World)
    requires Inv(cfg, w)
    ensures Inv(cfg, Next(cfg, w, Restart).value)
  {
    hide Spent;
    hide Past;
  }

  lemma VerifyKeeps(cfg: Config, w: World, c: Canary)
    requires Inv(cfg, w) && Next(cfg, w, VerifyCanary(c)).Some?
    ensures Inv(cfg, Next(cfg, w, VerifyCanary(c)).value)
  {
    hide Spent, RequestsOk, OpensOk, ReturnsOk, AnswersOk;
    SameRequestsKeep(cfg, w, Next(cfg, w, VerifyCanary(c)).value);
  }

  lemma SaveKeeps(cfg: Config, w: World)
    requires Inv(cfg, w)
    ensures Inv(cfg, Next(cfg, w, Save).value)
  {
    hide Spent, RequestsOk, OpensOk, ReturnsOk, AnswersOk;
    SameRequestsKeep(cfg, w, Next(cfg, w, Save).value);
  }

  lemma NextKeeps(cfg: Config, w: World, l: Label)
    requires PruneOutlasts(cfg) && Inv(cfg, w) && Next(cfg, w, l).Some?
    ensures Inv(cfg, Next(cfg, w, l).value)
  {
    hide Inv;
    match l
    case Advance(ms) => AdvanceKeeps(cfg, w, ms);
    case VerifyCanary(c) => VerifyKeeps(cfg, w, c);
    case CallOpen(n) => OpenKeeps(cfg, w, n);
    case Reply(id, verdict) => if verdict.Approve? { ApproveKeeps(cfg, w, id); } else { RefuseKeeps(cfg, w, id, verdict); }
    case CallClose => QueueCloseKeeps(cfg, w, l);
    case TimerFires => QueueCloseKeeps(cfg, w, l);
    case StartBody(i) => StartKeeps(cfg, w, i);
    case CommandEnds(i, _, _) => CommandKeeps(cfg, w, l, i);
    case FinishBody(i) => CommandKeeps(cfg, w, l, i);
    case Answer(id) => AnswerKeeps(cfg, w, id);
    case Save => SaveKeeps(cfg, w);
    case Restart => RestartKeeps(cfg, w);
  }

  lemma {:induction false} RunKeeps(cfg: Config, clock: int, script: seq<Label>)
    requires PruneOutlasts(cfg) && Run(cfg, Boot(clock), script).Some?
    ensures Inv(cfg, Run(cfg, Boot(clock), script).value)
  {
    hide Next;
    if |script| > 0 {
      var before := script[..|script| - 1];
      RunKeeps(cfg, clock, before);
      hide Inv;
      NextKeeps(cfg, Run(cfg, Boot(clock), before).value, script[|script| - 1]);
    }
  }

  // ---- the results ----

  /** Within one process, over every run of overlapping requests, no canary reaches
      `exec.open` twice. */
  lemma OpensAtMostOnce(cfg: Config, clock: int, script: seq<Label>, w: World, i: nat, j: nat)
    requires PruneOutlasts(cfg) && Run(cfg, Boot(clock), script) == Some(w)
    requires i < j < |w.opens| && w.opens[i].life == w.opens[j].life
    ensures w.opens[i].canary != w.opens[j].canary
  {
    hide Run;
    hide ChecksOk;
    hide SpentOk;
    hide Past;
    RunKeeps(cfg, clock, script);
  }

  lemma AnsweredStaysShut(cfg: Config, w: World, l: Label, c: Canary)
    requires Inv(cfg, w) && c in w.answered && Next(cfg, w, l).Some?
    ensures var w' := Next(cfg, w, l).value;
            && c in w'.answered && |w.opens| <= |w'.opens| && w'.opens[..|w.opens|] == w.opens
            && forall i :: |w.opens| <= i < |w'.opens| ==> w'.opens[i].canary != c
  {
    hide ChecksOk;
    hide SpentOk;
    if l.StartBody? && w.gate.tasks[l.i].body.OpenBody? {
      TaskCanary(w, l.i);
    }
  }

  /** Once the request that carried a canary has been answered, no later step of the run,
      before or after any number of restarts, reaches `exec.open` with it again. */
  lemma {:induction false} AnsweredNeverReopens(cfg: Config, clock: int, script: seq<Label>, more: seq<Label>, c: Canary)
    requires PruneOutlasts(cfg) && Run(cfg, Boot(clock), script).Some? && Run(cfg, Boot(clock), script + more).Some?
    requires c in Run(cfg, Boot(clock), script).value.answered
    ensures var w, v := Run(cfg, Boot(clock), script).value, Run(cfg, Boot(clock), script + more).value;
            && c in v.answered && |w.opens| <= |v.opens| && v.opens[..|w.opens|] == w.opens
            && forall i :: |w.opens| <= i < |v.opens| ==> v.opens[i].canary != c
    decreases |more|
  {
    hide Next;
    hide Inv;
    if |more| == 0 {
      assert script + more == script;
    } else {
      var m := |more| - 1;
      var before := script + more[..m];
      assert (script + more)[..|script + more| - 1] == before;
      assert (script + more)[|script + more| - 1] == more[m];
      AnsweredNeverReopens(cfg, clock, script, more[..m], c);
      RunKeeps(cfg, clock, before);
      AnsweredStaysShut(cfg, Run(cfg, Boot(clock), before).value, more[m], c);
    }
  }
}
