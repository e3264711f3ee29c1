/** Many books and a hostile network. Every call on a book is one step; what a call
    returns leaves the node only after the book has been saved, as the routes of
    island/src/main.ts do. The network keeps everything it has seen and may deliver any
    of it, any number of times, in any order, or never; besides that it may send whatever
    it can build from signatures it has seen and from the keys in `evil`. */
module FriendNet {
  import opened Wrappers
  import opened Canonical
  import opened Signables
  import opened Friends

  datatype Wire = TokenWire(token: Token) | AcceptWire(blob: Blob) | RevokeWire(notice: Revoke)

  function SigOf(w: Wire): Signature {
    match w
    case TokenWire(token) => token.sig
    case AcceptWire(blob) => if blob.Sealed? then blob.accept.sig else NoSig
    case RevokeWire(notice) => notice.sig
  }

  /** What a node did, oldest first. A call lost in a crash leaves no event behind. */
  datatype Event =
    | Issued(token: Token)
    | Accepted(token: Token, accept: Accept, rec: FriendRecord)
    | Confirmed(offer: Token, accept: Accept, rec: FriendRecord)
    | RevokeSigned(notice: Revoke)
    | RevokeObeyed(notice: Revoke, rec: FriendRecord)

  datatype Node = Node(
    id: Identity,
    mem: Book, memLog: seq<Event>,
    disk: Book, diskLog: seq<Event>,
    outbox: set<Wire>)

  datatype World = World(nodes: map<Text, Node>, net: set<Wire>, used: set<Text>)

  datatype Call =
    | DoIssue(nonce: Text, ttlMs: int, now: Instant)
    | DoReceive(token: Token, now: Instant)
    | DoAccept(giver: Text, now: Instant)
    | DoConfirm(blob: Blob, now: Instant)
    | DoForget(peer: Text)
    | DoRevoke(peer: Text, nonce: Text, now: Instant)
    | DoObey(notice: Revoke)

  datatype Label =
    | OnNode(node: Text, call: Call)
    | Persist(node: Text)
    | Restart(node: Text)
    | Inject(wire: Wire)

  ghost predicate Init(w: World) {
    && w.net == {} && w.used == {}
    && forall k :: k in w.nodes ==>
         w.nodes[k] == Node(w.nodes[k].id, EMPTY_BOOK, [], EMPTY_BOOK, [], {}) && w.nodes[k].id.ed25519 == k
  }

  function Did(n: Node, b: Book, e: Event): Node {
    n.(mem := b, memLog := n.memLog + [e])
  }

  function Perform(n: Node, c: Call): Node {
    match c
    case DoIssue(nonce, ttlMs, now) =>
      var o := IssueToken(n.id, n.mem, nonce, ttlMs, now);
      if o.result.Err? then n
      else Did(n, o.book, Issued(o.result.value)).(outbox := n.outbox + {TokenWire(o.result.value)})
    case DoReceive(token, now) => n.(mem := Receive(n.id, n.mem, token, now).book)
    case DoAccept(giver, now) =>
      var o := AcceptPending(n.id, n.mem, giver, now);
      if o.result.Err? then n
      else
        Did(n, o.book, Accepted(n.mem.pending[giver].token, o.result.value.accept, o.book.friends[giver]))
        .(outbox := n.outbox + {AcceptWire(o.result.value)})
    case DoConfirm(blob, now) =>
      var o := Confirm(n.id, n.mem, blob, now);
      if o.result.Err? then n
      else Did(n, o.book, Confirmed(n.mem.offered[blob.accept.ref], blob.accept, o.result.value))
    case DoForget(peer) => n.(mem := n.mem.(friends := n.mem.friends - {peer}))
    case DoRevoke(peer, nonce, now) =>
      var (b, notice) := IssueRevoke(n.id, n.mem, peer, nonce, now);
      if notice.None? then n
      else Did(n, b, RevokeSigned(notice.value)).(outbox := n.outbox + {RevokeWire(notice.value)})
    case DoObey(notice) =>
      var o := ReceiveRevoke(n.id, n.mem, notice);
      if o.result.Err? then n else Did(n, o.book, RevokeObeyed(notice, o.result.value))
  }

  /** Random nonces are fresh; arguments from outside come off the network. */
  predicate Enabled(w: World, c: Call) {
    match c
    case DoIssue(nonce, _, _) => nonce !in w.used
    case DoReceive(token, _) => TokenWire(token) in w.net
    case DoConfirm(blob, _) => AcceptWire(blob) in w.net
    case DoRevoke(_, nonce, _) => nonce !in w.used
    case DoObey(notice) => RevokeWire(notice) in w.net
    case _ => true
  }

  function Fresh(c: Call): set<Text> {
    match c
    case DoIssue(nonce, _, _) => {nonce}
    case DoRevoke(_, nonce, _) => {nonce}
    case _ => {}
  }

  predicate Sendable(evil: set<Text>, net: set<Wire>, wire: Wire) {
    var s := SigOf(wire);
    s.NoSig? || s.key in evil || exists seen :: seen in net && SigOf(seen) == s
  }

  function Next(evil: set<Text>, w: World, l: Label): Option<World> {
    match l
    case OnNode(k, c) =>
      if k !in w.nodes || !Enabled(w, c) then None
      else Some(w.(nodes := w.nodes[k := Perform(w.nodes[k], c)], used := w.used + Fresh(c)))
    case Persist(k) =>
      if k !in w.nodes then None
      else
        var n := w.nodes[k];
        Some(w.(nodes := w.nodes[k := n.(disk := n.mem, diskLog := n.memLog, outbox := {})], net := w.net + n.outbox))
    case Restart(k) =>
      if k !in w.nodes then None
      else
        var n := w.nodes[k];
        Some(w.(nodes := w.nodes[k := n.(mem := n.disk, memLog := n.diskLog, outbox := {})]))
    case Inject(wire) =>
      if Sendable(evil, w.net, wire) then Some(w.(net := w.net + {wire})) else None
  }

  /** The world after a script of steps, if every step of it can be taken. */
  function Run(evil: set<Text>, w: World, script: seq<Label>): Option<World> {
    if |script| == 0 then Some(w)
    else
      var before := Run(evil, w, script[..|script| - 1]);
      if before.None? then None else Next(evil, before.value, script[|script| - 1])
  }
}
