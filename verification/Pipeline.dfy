/** Shippers, hub and master together, over a lossy network. */
module Pipeline {
  import opened Wrappers
  import opened Shipper
  import opened Relay
  import opened Mesh

  /** A sensor node: its journal, its shipper, its signing key. */
  datatype Feed = Feed(src: seq<Event>, ship: Shipper, key: string)

  /** `registry` names each node's key at the master. Honest nodes are those in `feeds`. */
  datatype Config = Config(window: nat, relayCap: nat, meshCap: nat, registry: map<string, string>)

  datatype World = World(
    feeds: map<string, Feed>,
    table: Table,
    mesh: Mesh,
    ever: seq<Row>,        // every row the hub ever took
    taken: seq<Row>,       // rows this master process has been handed
    missed: set<Row>)      // rows its cursor passed over

  datatype Label =
    | Happen(node: string, event: Event)
    | BeginCycle(node: string)
    | PostOne(node: string, outcome: Outcome)
    | EndCycle(node: string, saved: bool)
    | CrashNode(node: string)
    | Intrude(node: string, seqNo: nat, ct: Cipher)
    | Pull(works: bool, limit: nat)
    | RestartMaster

  ghost predicate Init(cfg: Config, w: World) {
    && w.table == Table([], 0) && w.mesh == NEW_MESH && w.ever == [] && w.taken == [] && w.missed == {}
    && (forall n :: n in w.feeds ==> w.feeds[n].src == [] && w.feeds[n].ship == NEW_SHIPPER)
    && (forall n :: n in w.feeds ==> n in cfg.registry && cfg.registry[n] == w.feeds[n].key)
  }

  function Drop(cfg: Config, w: World, node: string, seqNo: nat, ct: Cipher): World {
    w.(table := Deposit(cfg.relayCap, w.table, node, seqNo, ct),
       ever := w.ever + [Row(w.table.lastId + 1, node, seqNo, ct)])
  }

  /** What an intruder can put into a ciphertext: nothing an honest key would have to sign,
      unless it copies a row. */
  predicate Forgeable(w: World, ct: Cipher) {
    || ct.Junk?
    || (exists r :: r in w.ever && r.ct == ct)
    || (forall n :: n in w.feeds ==> w.feeds[n].key != ct.signer)
  }

  function Next(cfg: Config, w: World, l: Label): Option<World> {
    match l
    case Happen(n, e) =>
      if n !in w.feeds then None
      else
        var f := w.feeds[n];
        if (|f.src| > 0 && f.src[|f.src| - 1].at > e.at) || (exists x :: x in f.src && x.id == e.id) then None
        else Some(w.(feeds := w.feeds[n := f.(src := f.src + [e])]))
    case BeginCycle(n) =>
      if n !in w.feeds then None
      else
        var f := w.feeds[n];
        // the assumption: the unshipped backlog fits the window
        if f.ship.mem.seqNo > |f.src| || !Fits(f.src, f.ship.mem.seqNo, cfg.window) then None
        else Some(w.(feeds := w.feeds[n := f.(ship := Begin(f.ship, Recent(f.src, cfg.window)))]))
    case PostOne(n, o) =>
      if n !in w.feeds || |w.feeds[n].ship.todo| == 0 then None
      else
        var f := w.feeds[n];
        var k := f.ship.mem.seqNo + 1;
        var sent := if o.Lost? then w else Drop(cfg, w, n, k, Alert(f.key, n, k, f.ship.todo[0]));
        Some(sent.(feeds := w.feeds[n := f.(ship := Post(f.ship, o))]))
    case EndCycle(n, saved) =>
      if n !in w.feeds then None
      else Some(w.(feeds := w.feeds[n := w.feeds[n].(ship := End(w.feeds[n].ship, cfg.window, saved))]))
    case CrashNode(n) =>
      if n !in w.feeds then None
      else Some(w.(feeds := w.feeds[n := w.feeds[n].(ship := Reload(w.feeds[n].ship))]))
    case Intrude(n, k, ct) =>
      if Forgeable(w, ct) then Some(Drop(cfg, w, n, k, ct)) else None
    case Pull(works, limit) =>
      if !works then Some(w.(mesh := Merge(cfg.registry, cfg.meshCap, w.mesh, None)))
      else
        var b := Drain(w.table, w.mesh.cursor, limit);
        Some(w.(mesh := Merge(cfg.registry, cfg.meshCap, w.mesh, Some(b)),
                taken := w.taken + b.rows,
                missed := w.missed + (set r | r in w.ever && w.mesh.cursor < r.id <= b.cursor - |b.rows|)))
    case RestartMaster => Some(w.(mesh := NEW_MESH, taken := [], missed := {}))
  }

  function Run(cfg: Config, w: World, script: seq<Label>): Option<World> {
    if |script| == 0 then Some(w)
    else
      var before := Run(cfg, w, script[..|script| - 1]);
      if before.None? then None else Next(cfg, before.value, script[|script| - 1])
  }
}
