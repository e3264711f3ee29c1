/** What the handshake guarantees, over every run of the friending world. */
module FriendTheorems {
  import opened Wrappers
  import opened Canonical
  import opened Signables
  import opened Friends
  import opened FriendNet
  import opened FriendInvariant
  import opened FriendSteps

  ghost predicate Reached(evil: set<Text>, start: World, script: seq<Label>, w: World) {
    Init(start) && start.nodes.Keys !! evil && Run(evil, start, script) == Some(w)
  }

  /** The owner of `log` signed a token naming exactly `peer`, with this nonce. */
  ghost predicate GaveToken(log: seq<Event>, nonce: Text, peer: PeerPub) {
    exists t :: Issued(t) in log && t.nonce == nonce && t.from == peer
  }

  /** The owner of `log` signed an accept naming exactly `peer`, of a token with this nonce. */
  ghost predicate GaveAccept(log: seq<Event>, nonce: Text, peer: PeerPub) {
    exists t, a, r :: Accepted(t, a, r) in log && a.ref == nonce && a.from == peer
  }

  ghost predicate Offered(log: seq<Event>, nonce: Text) {
    exists t :: Issued(t) in log && t.nonce == nonce
  }

  lemma ReachedOk(evil: set<Text>, start: World, script: seq<Label>, w: World, k: Text)
    requires Reached(evil, start, script, w) && k in w.nodes
    ensures Inv(evil, w) && NodeOk(evil, LedgerOf(w), k, w.nodes[k]) && w.nodes.Keys !! evil
  {
    hide NodeOk;
    hide Next;
    RunKeeps(evil, start, script);
  }

  lemma EventIn(evil: set<Text>, led: Ledger, k: Text, n: Node, e: Event)
    requires NodeOk(evil, led, k, n) && e in n.memLog
    ensures EventOk(evil, led, n.id, n.mem.consumed, n.memLog, e)
  {
    hide EventOk;
    hide BookOk;
    hide OutboxOk;
    var i :| 0 <= i < |n.memLog| && n.memLog[i] == e;
  }

  lemma DiskEventIn(evil: set<Text>, led: Ledger, k: Text, n: Node, e: Event)
    requires NodeOk(evil, led, k, n) && e in n.diskLog
    ensures EventOk(evil, led, n.id, n.disk.consumed, n.diskLog, e)
  {
    hide EventOk;
    hide BookOk;
    hide OutboxOk;
    var i :| 0 <= i < |n.diskLog| && n.diskLog[i] == e;
  }

  lemma TokenLeadsBack(evil: set<Text>, led: Ledger, p: Text, n: Node, t: Token)
    requires NodeOk(evil, led, p, n) && p in led && led[p] == n.diskLog && p !in evil
    requires Origin(evil, led, p, TokenView(t))
    ensures GaveToken(n.diskLog, t.nonce, t.from) && t.from == PubOf(n.id)
    ensures exists u :: Issued(u) in n.diskLog && TokenView(u) == TokenView(t)
  {
    hide NodeOk;
    var e :| e in n.diskLog && SignedBy(e) == Some(TokenView(t));
    assert e.Issued?;
    DiskEventIn(evil, led, p, n, e);
    assert Issued(e.token) in n.diskLog;
  }

  lemma AcceptLeadsBack(evil: set<Text>, led: Ledger, p: Text, n: Node, a: Accept)
    requires NodeOk(evil, led, p, n) && p in led && led[p] == n.diskLog && p !in evil
    requires Origin(evil, led, p, AcceptView(a))
    ensures GaveAccept(n.diskLog, a.ref, a.from) && a.from == PubOf(n.id)
    ensures exists t, b, r :: Accepted(t, b, r) in n.diskLog && AcceptView(b) == AcceptView(a)
  {
    hide NodeOk;
    var e :| e in n.diskLog && SignedBy(e) == Some(AcceptView(a));
    assert e.Accepted?;
    DiskEventIn(evil, led, p, n, e);
    assert Accepted(e.token, e.accept, e.rec) in n.diskLog;
  }

  // ---- no forged friendship ----

  /** Whatever an attacker replays or signs with its own keys: a record for an honest key
      holds exactly the identity that key's owner put into a token or an accept with that
      nonce, and in the second case the book itself had offered that nonce. */
  lemma NoForgedFriendship(evil: set<Text>, start: World, script: seq<Label>, w: World, k: Text, p: Text)
    requires Reached(evil, start, script, w)
    requires k in w.nodes && p in w.nodes && p in w.nodes[k].mem.friends
    ensures var rec, owner := w.nodes[k].mem.friends[p], w.nodes[p];
            && rec.peer == PubOf(owner.id)
            && (GaveToken(owner.diskLog, rec.nonce, rec.peer)
                || (GaveAccept(owner.diskLog, rec.nonce, rec.peer) && Offered(w.nodes[k].memLog, rec.nonce)))
  {
    hide Run;
    hide NodeOk;
    hide Origin;
    ReachedOk(evil, start, script, w, k);
    ReachedOk(evil, start, script, w, p);
    var n, led := w.nodes[k], LedgerOf(w);
    var rec := n.mem.friends[p];
    RecordIn(evil, led, k, n, p);
    var e :| e in n.memLog && (e.Accepted? || e.Confirmed?) && e.rec == rec;
    EventIn(evil, led, k, n, e);
    if e.Accepted? {
      TokenLeadsBack(evil, led, p, w.nodes[p], e.token);
    } else {
      AcceptLeadsBack(evil, led, p, w.nodes[p], e.accept);
      assert Issued(e.offer) in n.memLog;
    }
  }

  /** `e` brought `rec` into the book: a version-1 token of that peer under that nonce, accepted
      in time, or a version-1 accept of that peer for an offer of this node under that nonce,
      confirmed in time; signed by the peer's key. */
  ghost predicate Backs(evil: set<Text>, led: Ledger, id: Identity, log: seq<Event>, rec: FriendRecord, e: Event) {
    match e
    case Accepted(t, _, r) =>
      && r == rec && t.v == 1 && t.from == rec.peer && t.nonce == rec.nonce && !Past(t.expires, rec.since)
      && Origin(evil, led, rec.peer.ed25519, TokenView(t))
    case Confirmed(o, a, r) =>
      && r == rec && a.v == 1 && a.from == rec.peer && a.ref == o.nonce == rec.nonce && !Past(o.expires, rec.since)
      && Issued(o) in log && o.from == PubOf(id) && Origin(evil, led, rec.peer.ed25519, AcceptView(a))
    case _ => false
  }

  /** Every record of every book, an attacker's too, is of another node and backed by its log. */
  lemma RecordsAreSigned(evil: set<Text>, start: World, script: seq<Label>, w: World, k: Text, p: Text)
    requires Reached(evil, start, script, w) && k in w.nodes && p in w.nodes[k].mem.friends
    ensures var n := w.nodes[k];
            && n.mem.friends[p].peer.ed25519 == p && p != k
            && exists e :: e in n.memLog && Backs(evil, LedgerOf(w), n.id, n.memLog, n.mem.friends[p], e)
  {
    hide Run, NodeOk, Origin;
    ReachedOk(evil, start, script, w, k);
    var n, led := w.nodes[k], LedgerOf(w);
    NodeId(evil, led, k, n);
    RecordIn(evil, led, k, n, p);
    var e :| e in n.memLog && (e.Accepted? || e.Confirmed?) && e.rec == n.mem.friends[p];
    EventIn(evil, led, k, n, e);
    if e.Confirmed? { EventIn(evil, led, k, n, Issued(e.offer)); }
    assert Backs(evil, led, n.id, n.memLog, n.mem.friends[p], e);
  }

  lemma RecordIn(evil: set<Text>, led: Ledger, k: Text, n: Node, p: Text)
    requires NodeOk(evil, led, k, n) && p in n.mem.friends
    ensures RecordOk(n.memLog, p, n.mem.friends[p])
  {
    hide RecordOk;
    hide LogOk;
    hide OutboxOk;
  }

  // ---- no friendship with oneself ----

  /** A book never lists its own key. */
  lemma NeverOwnFriend(evil: set<Text>, start: World, script: seq<Label>, w: World, k: Text)
    requires Reached(evil, start, script, w) && k in w.nodes
    ensures k !in w.nodes[k].mem.friends && k !in w.nodes[k].disk.friends
  {
    hide Run;
    hide NodeOk;
    hide Origin;
    ReachedOk(evil, start, script, w, k);
    var n, led := w.nodes[k], LedgerOf(w);
    assert n.id.ed25519 == k by { NodeId(evil, led, k, n); }
    if k in n.mem.friends {
      RecordIn(evil, led, k, n, k);
      var e :| e in n.memLog && (e.Accepted? || e.Confirmed?) && e.rec == n.mem.friends[k];
      EventIn(evil, led, k, n, e);
    }
    if k in n.disk.friends {
      DiskRecordIn(evil, led, k, n, k);
      var e :| e in n.diskLog && (e.Accepted? || e.Confirmed?) && e.rec == n.disk.friends[k];
      DiskEventIn(evil, led, k, n, e);
    }
  }

  lemma NodeId(evil: set<Text>, led: Ledger, k: Text, n: Node)
    requires NodeOk(evil, led, k, n)
    ensures n.id.ed25519 == k
  {}

  lemma DiskRecordIn(evil: set<Text>, led: Ledger, k: Text, n: Node, p: Text)
    requires NodeOk(evil, led, k, n) && p in n.disk.friends
    ensures RecordOk(n.diskLog, p, n.disk.friends[p])
  {
    hide RecordOk;
    hide LogOk;
    hide OutboxOk;
  }

  // ---- agreement ----

  /** `q` answered the token `offer` of the node whose public identity is `giver`: it
      recorded the giver under the offer's nonce, no later than the offer's expiry. */
  ghost predicate Answered(log: seq<Event>, offer: Token, giver: PeerPub) {
    exists t, a, r :: Accepted(t, a, r) in log && TokenView(t) == TokenView(offer)
      && r.peer == giver && r.nonce == offer.nonce && offer.expires.At? && r.since <= offer.expires.ms
  }

  /** The token `q` answered under this nonce came from a key the attacker holds. */
  ghost predicate AnsweredStranger(evil: set<Text>, log: seq<Event>, nonce: Text) {
    exists t, a, r :: Accepted(t, a, r) in log && t.nonce == nonce && t.from.ed25519 in evil
  }

  lemma AnswerIsFor(evil: set<Text>, led: Ledger, id: Identity, used: set<Text>, log: seq<Event>, offer: Token,
                    t: Token, a: Accept, r: FriendRecord)
    requires Accepted(t, a, r) in log && EventOk(evil, led, id, used, log, Accepted(t, a, r))
    requires a.ref == offer.nonce && offer.expires.At?
    requires t.from.ed25519 !in evil ==> TokenView(t) == TokenView(offer)
    ensures Answered(log, offer, offer.from) || AnsweredStranger(evil, log, offer.nonce)
  {
    hide Origin;
  }

  /** A token with an honest signer and an offer with the same nonce are one token. */
  lemma HonestGiver(evil: set<Text>, w: World, k: Text, offer: Token, t: Token, led: Ledger)
    requires NoncesOk(w) && led == LedgerOf(w) && k in w.nodes && Issued(offer) in w.nodes[k].memLog
    requires forall g :: g in w.nodes ==> w.nodes[g].diskLog <= w.nodes[g].memLog
    requires t.from.ed25519 !in evil && Origin(evil, led, t.from.ed25519, TokenView(t)) && t.nonce == offer.nonce
    ensures TokenView(t) == TokenView(offer)
  {
    hide NoncesOk;
    var g := t.from.ed25519;
    var giver := w.nodes[g];
    var u :| u in led[g] && SignedBy(u) == Some(TokenView(t));
    InPrefix(giver.diskLog, giver.memLog, u);
    assert u == Issued(u.token) && u.token.nonce == offer.nonce;
    OneOffer(w, g, k, u.token, offer);
  }

  lemma OneOffer(w: World, g: Text, k: Text, t: Token, u: Token)
    requires NoncesOk(w) && g in w.nodes && k in w.nodes
    requires Issued(t) in w.nodes[g].memLog && Issued(u) in w.nodes[k].memLog && t.nonce == u.nonce
    ensures t == u
  {}

  /** The acceptance behind a confirmed accept. */
  ghost predicate Behind(log: seq<Event>, x: Event, accept: Accept) {
    x in log && x.Accepted? && AcceptView(x.accept) == AcceptView(accept)
  }

  /** Exactly when a confirm agrees: the peer's acceptance behind the confirmed accept is of
      this very offer if and only if its token was not signed with an attacker's key. */
  lemma ConfirmAgreesIff(evil: set<Text>, start: World, script: seq<Label>, w: World, k: Text, e: Event)
    requires Reached(evil, start, script, w) && k in w.nodes && e in w.nodes[k].memLog && e.Confirmed?
    requires e.accept.from.ed25519 in w.nodes
    ensures var log := w.nodes[e.accept.from.ed25519].diskLog;
            && (exists x :: Behind(log, x, e.accept))
            && (forall x :: Behind(log, x, e.accept) ==> (TokenView(x.token) == TokenView(e.offer) <==> x.token.from.ed25519 !in evil))
  {
    hide Run;
    hide NodeOk;
    hide Origin;
    var n, led, q := w.nodes[k], LedgerOf(w), e.accept.from.ed25519;
    var peer := w.nodes[q];
    ReachedOk(evil, start, script, w, k);
    ReachedOk(evil, start, script, w, q);
    EventIn(evil, led, k, n, e);
    EventIn(evil, led, k, n, Issued(e.offer));
    NodeId(evil, led, k, n);
    AcceptLeadsBack(evil, led, q, peer, e.accept);
    var t, a, r :| Accepted(t, a, r) in peer.diskLog && AcceptView(a) == AcceptView(e.accept);
    assert Behind(peer.diskLog, Accepted(t, a, r), e.accept);
    forall g | g in w.nodes ensures w.nodes[g].diskLog <= w.nodes[g].memLog {
      NodePrefix(evil, led, g, w.nodes[g]);
    }
    forall x | Behind(peer.diskLog, x, e.accept) ensures TokenView(x.token) == TokenView(e.offer) <==> x.token.from.ed25519 !in evil {
      DiskEventIn(evil, led, q, peer, x);
      if x.token.from.ed25519 !in evil { HonestGiver(evil, w, k, e.offer, x.token, led); }
    }
  }

  /** If a confirm recorded an honest peer, the record holds that peer's true keys, was made
      no later than the offer's expiry, and the peer had earlier answered either this very
      offer, recording the true keys of its giver, or an attacker's token with its nonce. */
  lemma ConfirmAgrees(evil: set<Text>, start: World, script: seq<Label>, w: World, k: Text, e: Event)
    requires Reached(evil, start, script, w) && k in w.nodes && e in w.nodes[k].memLog && e.Confirmed?
    requires e.accept.from.ed25519 in w.nodes
    ensures var peer := w.nodes[e.accept.from.ed25519];
            && e.rec.peer == PubOf(peer.id) && e.rec.nonce == e.offer.nonce
            && e.offer.expires.At? && e.rec.since <= e.offer.expires.ms
            && (Answered(peer.diskLog, e.offer, PubOf(w.nodes[k].id))
                || AnsweredStranger(evil, peer.diskLog, e.offer.nonce))
  {
    hide Run, NodeOk, Origin, Answered, AnsweredStranger, GaveAccept;
    var n, led, q := w.nodes[k], LedgerOf(w), e.accept.from.ed25519;
    var peer := w.nodes[q];
    ReachedOk(evil, start, script, w, k);
    ReachedOk(evil, start, script, w, q);
    EventIn(evil, led, k, n, e);
    EventIn(evil, led, k, n, Issued(e.offer));
    AcceptLeadsBack(evil, led, q, peer, e.accept);
    ConfirmAgreesIff(evil, start, script, w, k, e);
    var x :| Behind(peer.diskLog, x, e.accept);
    DiskEventIn(evil, led, q, peer, x);
    AnswerIsFor(evil, led, peer.id, peer.disk.consumed, peer.diskLog, e.offer, x.token, x.accept, x.rec);
  }

  /** With no attacker keys, over a network that drops, repeats and reorders: both sides
      hold each other's true keys under the offer's nonce, in time. */
  lemma HonestAgreement(start: World, script: seq<Label>, w: World, k: Text, e: Event)
    requires Reached({}, start, script, w) && k in w.nodes && e in w.nodes[k].memLog && e.Confirmed?
    ensures e.accept.from.ed25519 in w.nodes && e.accept.from.ed25519 != k
    ensures var peer := w.nodes[e.accept.from.ed25519];
            && e.rec.peer == PubOf(peer.id) && e.offer.expires.At? && e.rec.since <= e.offer.expires.ms
            && Answered(peer.diskLog, e.offer, PubOf(w.nodes[k].id))
  {
    hide Run;
    hide NodeOk;
    hide Answered;
    ReachedOk({}, start, script, w, k);
    EventIn({}, LedgerOf(w), k, w.nodes[k], e);
    NodeId({}, LedgerOf(w), k, w.nodes[k]);
    ConfirmAgrees({}, start, script, w, k, e);
  }

  /** No nonce is spent twice: an offer is confirmed at most once and a revoke notice
      obeyed at most once, restarts included. */
  lemma SingleUse(evil: set<Text>, start: World, script: seq<Label>, w: World, k: Text, i: nat, j: nat)
    requires Reached(evil, start, script, w) && k in w.nodes && i < j < |w.nodes[k].memLog|
    ensures var e, f := w.nodes[k].memLog[i], w.nodes[k].memLog[j];
            && (e.Confirmed? && f.Confirmed? ==> e.offer.nonce != f.offer.nonce)
            && (e.RevokeObeyed? && f.RevokeObeyed? ==> e.notice.nonce != f.notice.nonce)
  {
    hide Run;
    hide EventOk;
    hide BookOk;
    hide OutboxOk;
    ReachedOk(evil, start, script, w, k);
    assert !Clash(w.nodes[k].memLog[i], w.nodes[k].memLog[j]);
  }

  // ---- revoking ----

  /** A revoke notice ends only its signer's own friendship, and not one that began more
      than 120 seconds after the notice was made. */
  lemma RevokeIsOwners(evil: set<Text>, start: World, script: seq<Label>, w: World, k: Text, e: Event)
    requires Reached(evil, start, script, w) && k in w.nodes && e in w.nodes[k].memLog && e.RevokeObeyed?
    ensures e.rec.peer.ed25519 == e.notice.from && e.notice.target == k
    ensures e.notice.at.At? && e.rec.since <= e.notice.at.ms + 120_000
    ensures e.notice.from in evil
            || (e.notice.from in w.nodes
                && exists n :: RevokeSigned(n) in w.nodes[e.notice.from].diskLog && RevokeView(n) == RevokeView(e.notice))
  {
    hide Run;
    hide NodeOk;
    ReachedOk(evil, start, script, w, k);
    EventIn(evil, LedgerOf(w), k, w.nodes[k], e);
    NodeId(evil, LedgerOf(w), k, w.nodes[k]);
    if e.notice.from !in evil {
      var x :| x in LedgerOf(w)[e.notice.from] && SignedBy(x) == Some(RevokeView(e.notice));
      assert RevokeSigned(x.notice) in w.nodes[e.notice.from].diskLog;
    }
  }

  /** One delivery of a notice removes its signer's record and nothing else, or nothing. */
  lemma ObeyRemovesOne(n: Node, notice: Revoke)
    ensures var n' := Perform(n, DoObey(notice));
            if n'.mem.friends == n.mem.friends then n' == n
            else && notice.from in n.mem.friends && n'.mem.friends == n.mem.friends - {notice.from}
                 && n'.mem.pending == n.mem.pending && n'.mem.offered == n.mem.offered
                 && n'.memLog == n.memLog + [RevokeObeyed(notice, n.mem.friends[notice.from])]
  {
    hide SignedText;
    if ReceiveRevoke(n.id, n.mem, notice).result.Ok? {
      assert notice.from in n.mem.friends && notice.from !in n.mem.friends - {notice.from};
    }
  }

  /** Only accepting a request and confirming an accept put a record into a book; a restart
      brings back what was saved. */
  lemma OnlyHandshakesAdd(evil: set<Text>, w: World, l: Label, k: Text, p: Text)
    requires Next(evil, w, l).Some? && k in w.nodes
    requires var b, b' := w.nodes[k].mem.friends, Next(evil, w, l).value.nodes[k].mem.friends;
             p in b' && !(p in b && b[p] == b'[p])
    ensures || (l.OnNode? && l.node == k && l.call.DoAccept? && l.call.giver == p)
            || (l.OnNode? && l.node == k && l.call.DoConfirm? && l.call.blob.Sealed? && l.call.blob.accept.from.ed25519 == p)
            || (l == Restart(k) && p in w.nodes[k].disk.friends)
  {
    hide SignedText;
    if l.OnNode? && l.node == k { PerformAdds(w.nodes[k], l.call, p); }
  }

  lemma PerformAdds(n: Node, c: Call, p: Text)
    requires var b, b' := n.mem.friends, Perform(n, c).mem.friends; p in b' && !(p in b && b[p] == b'[p])
    ensures (c.DoAccept? && c.giver == p) || (c.DoConfirm? && c.blob.Sealed? && c.blob.accept.from.ed25519 == p)
  {
    hide SignedText;
  }

  // ---- and the handshake works ----

  /** Offered, received, accepted and confirmed before the token expires, with a fresh
      nonce: both books hold the other's public identity under it, the offer is spent, and
      neither the request nor the offer is left. */
  lemma HandshakeCompletes(alice: Identity, bob: Identity, a: Book, b: Book, nonce: Text, ttlMs: nat,
                           t0: Instant, t1: Instant, t2: Instant, t3: Instant)
    requires alice.ed25519 != bob.ed25519 && nonce !in a.consumed && nonce !in b.consumed
    requires t1 <= t0 + ttlMs && t2 <= t0 + ttlMs && t3 <= t0 + ttlMs <= MAX_DATE
    ensures var issued := IssueToken(alice, a, nonce, ttlMs, t0);
            && issued.result.Ok?
            && var received := Receive(bob, b, issued.result.value, t1);
            && received.result == Ok(PubOf(alice))
            && var accepted := AcceptPending(bob, received.book, alice.ed25519, t2);
            && accepted.result.Ok?
            && var confirmed := Confirm(alice, issued.book, accepted.result.value, t3);
            && confirmed.result == Ok(FriendRecord(PubOf(bob), nonce, t3))
            && accepted.book.friends == b.friends[alice.ed25519 := FriendRecord(PubOf(alice), nonce, t2)]
            && confirmed.book.friends == a.friends[bob.ed25519 := FriendRecord(PubOf(bob), nonce, t3)]
            && accepted.book.pending == b.pending - {alice.ed25519} && nonce in accepted.book.consumed
            && confirmed.book.offered == a.offered - {nonce} && nonce in confirmed.book.consumed
  {
    hide SignedText;
  }

  /** And no sooner or later: with a fresh nonce each of the three answers to a token succeeds
      exactly when it comes no later than the token's expiry. */
  lemma HandshakeIffInTime(alice: Identity, bob: Identity, a: Book, b: Book, nonce: Text, ttlMs: int,
                           t0: Instant, t1: Instant, t2: Instant, t3: Instant)
    requires alice.ed25519 != bob.ed25519 && nonce !in a.consumed && nonce !in b.consumed
    requires -MAX_DATE <= t0 + ttlMs <= MAX_DATE
    ensures var issued := IssueToken(alice, a, nonce, ttlMs, t0);
            && issued.result.Ok?
            && var received := Receive(bob, b, issued.result.value, t1);
            && (received.result.Ok? <==> t1 <= t0 + ttlMs)
            && (received.result.Ok? ==>
                  var accepted := AcceptPending(bob, received.book, alice.ed25519, t2);
                  && (accepted.result.Ok? <==> t2 <= t0 + ttlMs)
                  && (accepted.result.Ok? ==> (Confirm(alice, issued.book, accepted.result.value, t3).result.Ok? <==> t3 <= t0 + ttlMs)))
  {
    hide SignedText;
  }

  /** A token whose nonce a node has answered, confirmed or obeyed is refused there from then
      on, and leaves the book as it is. */
  lemma UsedTokenRefused(evil: set<Text>, start: World, script: seq<Label>, w: World, k: Text, e: Event, t: Token, now: Instant)
    requires Reached(evil, start, script, w) && k in w.nodes && e in w.nodes[k].memLog
    requires (e.Accepted? && e.token.nonce == t.nonce) || (e.Confirmed? && e.offer.nonce == t.nonce)
    ensures var o := Receive(w.nodes[k].id, w.nodes[k].mem, t, now); o.result.Err? && o.book == w.nodes[k].mem
  {
    hide Run, NodeOk, Origin, SignedText, Verify;
    ReachedOk(evil, start, script, w, k);
    EventIn(evil, LedgerOf(w), k, w.nodes[k], e);
  }

  /** Alice ends her friendship with Bob, who holds her true identity: her notice takes her off
      his book, so that neither lists the other, if and only if it was made no more than
      120 seconds before his record; otherwise his book stays as it is. */
  lemma RevokeCompletesIff(alice: Identity, bob: Identity, a: Book, b: Book, nonce: Text, now: Instant)
    requires bob.ed25519 in a.friends && alice.ed25519 in b.friends && b.friends[alice.ed25519].peer == PubOf(alice)
    requires nonce !in b.consumed
    ensures var (a', notice) := IssueRevoke(alice, a, bob.ed25519, nonce, now);
            && notice.Some? && a'.friends == a.friends - {bob.ed25519}
            && var o := ReceiveRevoke(bob, b, notice.value);
            && (o.result == Ok(b.friends[alice.ed25519]) <==> now >= b.friends[alice.ed25519].since - 120_000)
            && (o.result.Ok? ==> o.book.friends == b.friends - {alice.ed25519} && nonce in o.book.consumed)
            && (o.result.Err? ==> o.result == Err(StaleRevoke) && o.book == b)
  {
    hide SignedText;
  }
}
