/** The one way agreement fails: an attacker copies a nonce. Eve signs a token of her own with
    the nonce of Alice's; Bob accepts it, and Eve passes his accept on to Alice. */
module FriendAttack {
  import opened Wrappers
  import opened Canonical
  import opened Signables
  import opened Friends
  import opened FriendNet
  import opened FriendInvariant
  import opened FriendSteps
  import opened FriendTheorems

  /** Who takes part: two honest identities, and the attacker's public one. */
  datatype Cast = Cast(alice: Identity, bob: Identity, eve: PeerPub, nonce: Text)

  ghost predicate Fit(c: Cast) {
    c.alice.ed25519 != c.bob.ed25519 && c.eve.ed25519 != c.alice.ed25519 && c.eve.ed25519 != c.bob.ed25519
  }

  function Newborn(id: Identity): Node {
    Node(id, EMPTY_BOOK, [], EMPTY_BOOK, [], {})
  }

  function Offer(c: Cast): Token {
    var t := Token(1, PubOf(c.alice), c.nonce, At(0), At(0), NoSig);
    t.(sig := Sig(c.alice.ed25519, SignedText(TokenView(t))))
  }

  function Copy(c: Cast): Token {
    var t := Token(1, c.eve, c.nonce, At(0), At(0), NoSig);
    t.(sig := Sig(c.eve.ed25519, SignedText(TokenView(t))))
  }

  function BobsAccept(c: Cast): Accept {
    var a := Accept(1, PubOf(c.bob), c.nonce, At(0), NoSig);
    a.(sig := Sig(c.bob.ed25519, SignedText(AcceptView(a))))
  }

  function World0(c: Cast, alice: Node, bob: Node, net: set<Wire>, used: set<Text>): World {
    World(map[c.alice.ed25519 := alice, c.bob.ed25519 := bob], net, used)
  }

  // ---- what each node does ----

  function Offered(c: Cast): Book {
    Book(map[c.nonce := Offer(c)], map[], map[], {})
  }

  lemma AliceOffers(c: Cast)
    ensures Perform(Newborn(c.alice), DoIssue(c.nonce, 0, 0)) ==
            Node(c.alice, Offered(c), [Issued(Offer(c))], EMPTY_BOOK, [], {TokenWire(Offer(c))})
  {
    hide SignedText;
  }

  function Asked(c: Cast): Node {
    Newborn(c.bob).(mem := Book(map[], map[c.eve.ed25519 := Pending(Copy(c), 0)], map[], {}))
  }

  lemma BobReceives(c: Cast)
    requires Fit(c)
    ensures Perform(Newborn(c.bob), DoReceive(Copy(c), 0)) == Asked(c)
  {
    hide SignedText;
  }

  function Fooled(c: Cast): Book {
    Book(map[], map[], map[c.eve.ed25519 := FriendRecord(c.eve, c.nonce, 0)], {c.nonce})
  }

  function BobsLog(c: Cast): seq<Event> {
    [Accepted(Copy(c), BobsAccept(c), FriendRecord(c.eve, c.nonce, 0))]
  }

  lemma BobAccepts(c: Cast)
    ensures Perform(Asked(c), DoAccept(c.eve.ed25519, 0)) ==
            Node(c.bob, Fooled(c), BobsLog(c), EMPTY_BOOK, [], {AcceptWire(Sealed(c.eve.x25519, BobsAccept(c)))})
  {
    hide SignedText;
    var o := AcceptPending(c.bob, Asked(c).mem, c.eve.ed25519, 0);
    assert o.book.pending == map[] && o.book.friends == Fooled(c).friends;
    assert o.result == Ok(Sealed(c.eve.x25519, BobsAccept(c)));
  }

  function Saved(id: Identity, b: Book, log: seq<Event>): Node {
    Node(id, b, log, b, log, {})
  }

  function Passed(c: Cast): Blob {
    Sealed(c.alice.x25519, BobsAccept(c))
  }

  function AlicesEnd(c: Cast): Node {
    var rec := FriendRecord(PubOf(c.bob), c.nonce, 0);
    Saved(c.alice, Offered(c), [Issued(Offer(c))])
    .(mem := Book(map[], map[], map[c.bob.ed25519 := rec], {c.nonce}), memLog := [Issued(Offer(c)), Confirmed(Offer(c), BobsAccept(c), rec)])
  }

  lemma AliceConfirms(c: Cast)
    ensures Perform(Saved(c.alice, Offered(c), [Issued(Offer(c))]), DoConfirm(Passed(c), 0)) == AlicesEnd(c)
  {
    hide SignedText;
    var o := Confirm(c.alice, Offered(c), Passed(c), 0);
    assert o.result == Ok(FriendRecord(PubOf(c.bob), c.nonce, 0));
    assert o.book == AlicesEnd(c).mem;
  }

  // ---- the run ----

  lemma AliceDoes(c: Cast, evil: set<Text>, a: Node, b: Node, net: set<Wire>, used: set<Text>, call: Call)
    requires Fit(c) && Enabled(World0(c, a, b, net, used), call)
    ensures Next(evil, World0(c, a, b, net, used), OnNode(c.alice.ed25519, call)) == Some(World0(c, Perform(a, call), b, net, used + Fresh(call)))
  {
    hide Perform, Enabled;
    assert World0(c, a, b, net, used).nodes[c.alice.ed25519 := Perform(a, call)] == World0(c, Perform(a, call), b, net, used).nodes;
  }

  lemma BobDoes(c: Cast, evil: set<Text>, a: Node, b: Node, net: set<Wire>, used: set<Text>, call: Call)
    requires Fit(c) && Enabled(World0(c, a, b, net, used), call)
    ensures Next(evil, World0(c, a, b, net, used), OnNode(c.bob.ed25519, call)) == Some(World0(c, a, Perform(b, call), net, used + Fresh(call)))
  {
    hide Perform, Enabled;
    assert World0(c, a, b, net, used).nodes[c.bob.ed25519 := Perform(b, call)] == World0(c, a, Perform(b, call), net, used).nodes;
  }

  lemma AliceSaves(c: Cast, evil: set<Text>, a: Node, b: Node, net: set<Wire>, used: set<Text>)
    requires Fit(c)
    ensures Next(evil, World0(c, a, b, net, used), Persist(c.alice.ed25519)) ==
            Some(World0(c, Saved(a.id, a.mem, a.memLog), b, net + a.outbox, used))
  {
    assert World0(c, a, b, net, used).nodes[c.alice.ed25519 := Saved(a.id, a.mem, a.memLog)]
        == World0(c, Saved(a.id, a.mem, a.memLog), b, net, used).nodes;
  }

  lemma BobSaves(c: Cast, evil: set<Text>, a: Node, b: Node, net: set<Wire>, used: set<Text>)
    requires Fit(c)
    ensures Next(evil, World0(c, a, b, net, used), Persist(c.bob.ed25519)) ==
            Some(World0(c, a, Saved(b.id, b.mem, b.memLog), net + b.outbox, used))
  {
    assert World0(c, a, b, net, used).nodes[c.bob.ed25519 := Saved(b.id, b.mem, b.memLog)]
        == World0(c, a, Saved(b.id, b.mem, b.memLog), net, used).nodes;
  }

  lemma EveSends(c: Cast, evil: set<Text>, a: Node, b: Node, net: set<Wire>, used: set<Text>, wire: Wire)
    requires Sendable(evil, net, wire)
    ensures Next(evil, World0(c, a, b, net, used), Inject(wire)) == Some(World0(c, a, b, net + {wire}, used))
  {
    hide Sendable;
  }

  lemma NoSteps(evil: set<Text>, w: World)
    ensures Run(evil, w, []) == Some(w)
  {}

  lemma Then(evil: set<Text>, start: World, script: seq<Label>, w: World, l: Label)
    requires Run(evil, start, script) == Some(w) && Next(evil, w, l).Some?
    ensures Run(evil, start, script + [l]) == Next(evil, w, l)
  {
    hide Next;
    assert (script + [l])[..|script|] == script;
  }

  /** Up to Eve's copy on the network. */
  lemma CopySent(c: Cast) returns (script: seq<Label>, net: set<Wire>, used: set<Text>)
    requires Fit(c)
    ensures Run({c.eve.ed25519}, World0(c, Newborn(c.alice), Newborn(c.bob), {}, {}), script) ==
            Some(World0(c, Saved(c.alice, Offered(c), [Issued(Offer(c))]), Newborn(c.bob), net, used))
    ensures TokenWire(Copy(c)) in net
  {
    hide Run, Next, Perform, SignedText;
    var evil, a, b := {c.eve.ed25519}, c.alice.ed25519, Newborn(c.bob);
    var start := World0(c, Newborn(c.alice), b, {}, {});
    var issue := DoIssue(c.nonce, 0, 0);
    NoSteps(evil, start);
    AliceDoes(c, evil, Newborn(c.alice), b, {}, {}, issue);
    AliceOffers(c);
    var n1 := Perform(Newborn(c.alice), issue);
    used := {} + Fresh(issue);
    Then(evil, start, [], start, OnNode(a, issue));
    script := [] + [OnNode(a, issue)];
    AliceSaves(c, evil, n1, b, {}, used);
    Then(evil, start, script, World0(c, n1, b, {}, used), Persist(a));
    script := script + [Persist(a)];
    net := {} + n1.outbox;
    var n2 := Saved(n1.id, n1.mem, n1.memLog);
    EveSends(c, evil, n2, b, net, used, TokenWire(Copy(c)));
    Then(evil, start, script, World0(c, n2, b, net, used), Inject(TokenWire(Copy(c))));
    script, net := script + [Inject(TokenWire(Copy(c)))], net + {TokenWire(Copy(c))};
  }

  /** Up to Bob's accept, passed on to Alice. */
  lemma AcceptPassedOn(c: Cast) returns (script: seq<Label>, net: set<Wire>, used: set<Text>)
    requires Fit(c)
    ensures Run({c.eve.ed25519}, World0(c, Newborn(c.alice), Newborn(c.bob), {}, {}), script) ==
            Some(World0(c, Saved(c.alice, Offered(c), [Issued(Offer(c))]), Saved(c.bob, Fooled(c), BobsLog(c)), net, used))
    ensures AcceptWire(Passed(c)) in net
  {
    hide Run, Next, Perform, SignedText;
    script, net, used := CopySent(c);
    var evil, k, a := {c.eve.ed25519}, c.bob.ed25519, Saved(c.alice, Offered(c), [Issued(Offer(c))]);
    var start := World0(c, Newborn(c.alice), Newborn(c.bob), {}, {});
    var receive, accept := DoReceive(Copy(c), 0), DoAccept(c.eve.ed25519, 0);
    BobDoes(c, evil, a, Newborn(c.bob), net, used, receive);
    BobReceives(c);
    Then(evil, start, script, World0(c, a, Newborn(c.bob), net, used), OnNode(k, receive));
    script, used := script + [OnNode(k, receive)], used + Fresh(receive);
    BobDoes(c, evil, a, Asked(c), net, used, accept);
    BobAccepts(c);
    var n := Perform(Asked(c), accept);
    Then(evil, start, script, World0(c, a, Asked(c), net, used), OnNode(k, accept));
    script, used := script + [OnNode(k, accept)], used + Fresh(accept);
    BobSaves(c, evil, a, n, net, used);
    Then(evil, start, script, World0(c, a, n, net, used), Persist(k));
    script, net := script + [Persist(k)], net + n.outbox;
    assert AcceptWire(Sealed(c.eve.x25519, BobsAccept(c))) in net;
    EveSends(c, evil, a, Saved(c.bob, Fooled(c), BobsLog(c)), net, used, AcceptWire(Passed(c)));
    Then(evil, start, script, World0(c, a, Saved(c.bob, Fooled(c), BobsLog(c)), net, used), Inject(AcceptWire(Passed(c))));
    script, net := script + [Inject(AcceptWire(Passed(c)))], net + {AcceptWire(Passed(c))};
  }

  /** Whoever the three are: a run in which Alice has confirmed Bob, Bob lists Eve and not
      Alice, and Bob never answered Alice's offer. */
  lemma CopiedNonceDisagrees(c: Cast) returns (start: World, script: seq<Label>, w: World)
    requires Fit(c)
    ensures Reached({c.eve.ed25519}, start, script, w) && w.nodes.Keys == {c.alice.ed25519, c.bob.ed25519}
    ensures var alice, bob := w.nodes[c.alice.ed25519], w.nodes[c.bob.ed25519];
            && Confirmed(Offer(c), BobsAccept(c), FriendRecord(PubOf(c.bob), c.nonce, 0)) in alice.memLog
            && c.bob.ed25519 in alice.mem.friends && c.alice.ed25519 !in bob.mem.friends && c.eve.ed25519 in bob.mem.friends
            && !Answered(bob.diskLog, Offer(c), PubOf(c.alice))
  {
    hide Run, Next, Perform, SignedText, Answered;
    var net, used;
    script, net, used := AcceptPassedOn(c);
    var evil, k, b := {c.eve.ed25519}, c.alice.ed25519, Saved(c.bob, Fooled(c), BobsLog(c));
    var a := Saved(c.alice, Offered(c), [Issued(Offer(c))]);
    start := World0(c, Newborn(c.alice), Newborn(c.bob), {}, {});
    var confirm := DoConfirm(Passed(c), 0);
    AliceDoes(c, evil, a, b, net, used, confirm);
    AliceConfirms(c);
    Then(evil, start, script, World0(c, a, b, net, used), OnNode(k, confirm));
    script := script + [OnNode(k, confirm)];
    w := World0(c, AlicesEnd(c), b, net, used + Fresh(confirm));
    NotAnswered(c);
    assert AlicesEnd(c).memLog[1] == Confirmed(Offer(c), BobsAccept(c), FriendRecord(PubOf(c.bob), c.nonce, 0));
  }

  lemma NotAnswered(c: Cast)
    requires Fit(c)
    ensures !Answered(BobsLog(c), Offer(c), PubOf(c.alice))
  {
    hide SignedText;
  }
}
