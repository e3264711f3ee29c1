/** The invariant of the friending world is kept by every step. */
module FriendSteps {
  import opened Wrappers
  import opened Canonical
  import opened Signables
  import opened Friends
  import opened FriendNet
  import opened FriendInvariant

  // ---- one call on one node ----

  /** An event joined the log and its book entries are in order: the node is in order. */
  lemma NodeExtends(evil: set<Text>, led: Ledger, k: Text, n: Node, b: Book, e: Event, sent: set<Wire>)
    requires NodeOk(evil, led, k, n) && n.mem.consumed <= b.consumed
    requires EventOk(evil, led, n.id, b.consumed, n.memLog + [e], e)
    requires forall i :: 0 <= i < |n.memLog| ==> !Clash(n.memLog[i], e)
    requires BookOk(evil, led, n.id.ed25519, b, n.memLog + [e])
    requires OutboxOk(k, n.memLog + [e], sent)
    ensures NodeOk(evil, led, k, Did(n, b, e).(outbox := n.outbox + sent))
  {
    hide EventOk;
    hide BookOk;
    hide SignsIn;
    hide Clash;
    LogExtends(evil, led, n.id, n.mem.consumed, b.consumed, n.memLog, e);
    forall o | o in n.outbox ensures SignsIn(n.memLog + [e], SigOf(o).bytes) {
      SignsGrows(n.memLog, n.memLog + [e], SigOf(o).bytes);
    }
  }

  /** The book entries that were in order stay so when an event joins the log. */
  lemma BookExtends(evil: set<Text>, led: Ledger, me: Text, b: Book, log: seq<Event>, e: Event)
    requires BookOk(evil, led, me, b, log)
    ensures BookOk(evil, led, me, b, log + [e])
  {
    hide TokenOk;
    hide RecordOk;
    forall n | n in b.offered ensures Issued(b.offered[n]) in log + [e] {
      InPrefix(log, log + [e], Issued(b.offered[n]));
    }
    forall p | p in b.friends ensures RecordOk(log + [e], p, b.friends[p]) {
      RecordGrows(log, log + [e], p, b.friends[p]);
    }
  }

  lemma SentIsSigned(log: seq<Event>, e: Event, wire: Wire, k: Text, body: Signed)
    requires SignedBy(e) == Some(body) && SigOf(wire) == Sig(k, SignedText(body))
    ensures OutboxOk(k, log + [e], {wire})
  {
    hide SignedText;
    var log' := log + [e];
    assert log'[|log|] == e;
    assert e in log';
    assert SignsIn(log', SignedText(body));
  }

  lemma IssueKeeps(evil: set<Text>, led: Ledger, k: Text, n: Node, nonce: Text, ttlMs: int, now: Instant)
    requires NodeOk(evil, led, k, n)
    ensures NodeOk(evil, led, k, Perform(n, DoIssue(nonce, ttlMs, now)))
  {
    hide SignedText;
    hide TokenOk;
    hide RecordOk;
    hide LogOk;
    hide SignsIn;
    var o := IssueToken(n.id, n.mem, nonce, ttlMs, now);
    if o.result.Ok? {
      var t := o.result.value;
      var e := Issued(t);
      BookExtends(evil, led, k, n.mem, n.memLog, e);
      assert (n.memLog + [e])[|n.memLog|] == e;
      SentIsSigned(n.memLog, e, TokenWire(t), k, TokenView(t));
      NodeExtends(evil, led, k, n, o.book, e, {TokenWire(t)});
    }
  }

  lemma ReceiveKeeps(evil: set<Text>, led: Ledger, k: Text, n: Node, net: set<Wire>, token: Token, now: Instant)
    requires NodeOk(evil, led, k, n) && NetOk(evil, led, net) && TokenWire(token) in net
    ensures NodeOk(evil, led, k, Perform(n, DoReceive(token, now)))
  {
    hide SignedText;
    hide Origin;
    hide RecordOk;
    hide LogOk;
    hide SignsIn;
    hide WireOk;
    var o := Receive(n.id, n.mem, token, now);
    if o.result.Ok? {
      VerifiedOrigin(evil, led, net, TokenWire(token), token.from.ed25519, TokenView(token));
    }
  }

  lemma AcceptKeeps(evil: set<Text>, led: Ledger, k: Text, n: Node, giver: Text, now: Instant)
    requires NodeOk(evil, led, k, n)
    ensures NodeOk(evil, led, k, Perform(n, DoAccept(giver, now)))
  {
    hide SignedText;
    hide Origin;
    hide LogOk;
    hide SignsIn;
    var o := AcceptPending(n.id, n.mem, giver, now);
    if o.result.Ok? {
      var t := n.mem.pending[giver].token;
      var a := o.result.value.accept;
      var rec := o.book.friends[giver];
      var e := Accepted(t, a, rec);
      var log' := n.memLog + [e];
      BookExtends(evil, led, k, n.mem, n.memLog, e);
      assert log'[|n.memLog|] == e;
      assert RecordOk(log', giver, rec);
      SentIsSigned(n.memLog, e, AcceptWire(o.result.value), k, AcceptView(a));
      NodeExtends(evil, led, k, n, o.book, e, {AcceptWire(o.result.value)});
    }
  }

  /** An accept that a node released has its nonce consumed there, so the node never
      takes one of its own accepts for an answer to its own offer. */
  lemma OwnAcceptIsSpent(evil: set<Text>, led: Ledger, k: Text, n: Node, a: Accept)
    requires NodeOk(evil, led, k, n) && k !in evil && k in led && led[k] == n.diskLog
    requires Origin(evil, led, k, AcceptView(a))
    ensures a.ref in n.mem.consumed
  {
    hide RecordOk;
    hide BookOk;
    var e :| e in n.diskLog && SignedBy(e) == Some(AcceptView(a));
    var i :| 0 <= i < |n.diskLog| && n.diskLog[i] == e;
    assert EventOk(evil, led, n.id, n.disk.consumed, n.diskLog, n.diskLog[i]);
  }

  lemma ConfirmKeeps(evil: set<Text>, led: Ledger, k: Text, n: Node, net: set<Wire>, blob: Blob, now: Instant)
    requires NodeOk(evil, led, k, n) && k !in evil && k in led && led[k] == n.diskLog
    requires NetOk(evil, led, net) && AcceptWire(blob) in net
    ensures NodeOk(evil, led, k, Perform(n, DoConfirm(blob, now)))
  {
    hide SignedText;
    hide Origin;
    hide SignsIn;
    hide WireOk;
    hide LogOk;
    var o := Confirm(n.id, n.mem, blob, now);
    if o.result.Ok? {
      var a := blob.accept;
      var offer := n.mem.offered[a.ref];
      var e := Confirmed(offer, a, o.result.value);
      var log' := n.memLog + [e];
      VerifiedOrigin(evil, led, net, AcceptWire(blob), a.from.ed25519, AcceptView(a));
      if a.from.ed25519 == k { OwnAcceptIsSpent(evil, led, k, n, a); }
      FreshDoesNotClash(evil, led, n.id, n.mem.consumed, n.memLog, e, a.ref);
      BookExtends(evil, led, k, n.mem, n.memLog, e);
      InPrefix(n.memLog, log', Issued(offer));
      assert log'[|n.memLog|] == e;
      assert RecordOk(log', a.from.ed25519, o.result.value);
      NodeExtends(evil, led, k, n, o.book, e, {});
      assert n.outbox + {} == n.outbox;
    }
  }

  lemma RevokeKeeps(evil: set<Text>, led: Ledger, k: Text, n: Node, peer: Text, nonce: Text, now: Instant)
    requires NodeOk(evil, led, k, n)
    ensures NodeOk(evil, led, k, Perform(n, DoRevoke(peer, nonce, now)))
  {
    hide SignedText;
    hide TokenOk;
    hide RecordOk;
    hide LogOk;
    hide SignsIn;
    var (b, r) := IssueRevoke(n.id, n.mem, peer, nonce, now);
    if r.Some? {
      var e := RevokeSigned(r.value);
      BookExtends(evil, led, k, n.mem, n.memLog, e);
      SentIsSigned(n.memLog, e, RevokeWire(r.value), k, RevokeView(r.value));
      NodeExtends(evil, led, k, n, b, e, {RevokeWire(r.value)});
    }
  }

  lemma ObeyKeeps(evil: set<Text>, led: Ledger, k: Text, n: Node, net: set<Wire>, notice: Revoke)
    requires NodeOk(evil, led, k, n) && NetOk(evil, led, net) && RevokeWire(notice) in net
    ensures NodeOk(evil, led, k, Perform(n, DoObey(notice)))
  {
    hide SignedText;
    hide Origin;
    hide SignsIn;
    hide WireOk;
    hide LogOk;
    hide RecordOk;
    var o := ReceiveRevoke(n.id, n.mem, notice);
    if o.result.Ok? {
      var rec := n.mem.friends[notice.from];
      var e := RevokeObeyed(notice, rec);
      assert rec.peer.ed25519 == notice.from by { RecordKey(n.memLog, notice.from, rec); }
      VerifiedOrigin(evil, led, net, RevokeWire(notice), notice.from, RevokeView(notice));
      FreshDoesNotClash(evil, led, n.id, n.mem.consumed, n.memLog, e, notice.nonce);
      BookExtends(evil, led, k, n.mem, n.memLog, e);
      RecordGrows(n.memLog, n.memLog + [e], notice.from, rec);
      NodeExtends(evil, led, k, n, o.book, e, {});
      assert n.outbox + {} == n.outbox;
    }
  }

  lemma RecordKey(log: seq<Event>, p: Text, rec: FriendRecord)
    requires RecordOk(log, p, rec)
    ensures rec.peer.ed25519 == p
  {}

  lemma ForgetKeeps(evil: set<Text>, led: Ledger, k: Text, n: Node, peer: Text)
    requires NodeOk(evil, led, k, n)
    ensures NodeOk(evil, led, k, Perform(n, DoForget(peer)))
  {
    hide TokenOk;
    hide RecordOk;
    hide LogOk;
    hide SignsIn;
  }

  lemma PerformKeeps(evil: set<Text>, w: World, k: Text, c: Call)
    requires Inv(evil, w) && k in w.nodes && w.nodes.Keys !! evil && Enabled(w, c)
    ensures NodeOk(evil, LedgerOf(w), k, Perform(w.nodes[k], c))
  {
    hide NodeOk;
    hide NetOk;
    hide NoncesOk;
    hide Perform;
    var n, led := w.nodes[k], LedgerOf(w);
    match c
    case DoIssue(nonce, ttlMs, now) => IssueKeeps(evil, led, k, n, nonce, ttlMs, now);
    case DoReceive(token, now) => ReceiveKeeps(evil, led, k, n, w.net, token, now);
    case DoAccept(giver, now) => AcceptKeeps(evil, led, k, n, giver, now);
    case DoConfirm(blob, now) => ConfirmKeeps(evil, led, k, n, w.net, blob, now);
    case DoForget(peer) => ForgetKeeps(evil, led, k, n, peer);
    case DoRevoke(peer, nonce, now) => RevokeKeeps(evil, led, k, n, peer, nonce, now);
    case DoObey(notice) => ObeyKeeps(evil, led, k, n, w.net, notice);
  }

  /** A call appends at most one event, and an issued token carries the fresh nonce. */
  lemma PerformLog(n: Node, c: Call)
    ensures var n' := Perform(n, c);
            && n'.id == n.id && n'.disk == n.disk && n'.diskLog == n.diskLog
            && (n'.memLog == n.memLog || exists e :: n'.memLog == n.memLog + [e] && (e.Issued? ==> e.token.nonce in Fresh(c)))
  {
    hide SignedText;
  }

  /** A token in the log after a call was there before it, or carries the fresh nonce. */
  lemma IssuedBefore(n: Node, c: Call, t: Token)
    requires Issued(t) in Perform(n, c).memLog
    ensures Issued(t) in n.memLog || (t.nonce in Fresh(c) && Perform(n, c).memLog == n.memLog + [Issued(t)])
  {
    hide Perform;
    PerformLog(n, c);
    var n' := Perform(n, c);
    if Issued(t) !in n.memLog {
      var e :| n'.memLog == n.memLog + [e] && (e.Issued? ==> e.token.nonce in Fresh(c));
      assert e == Issued(t);
    }
  }

  lemma NoncesKept(evil: set<Text>, w: World, k: Text, c: Call)
    requires NoncesOk(w) && k in w.nodes && Enabled(w, c)
    ensures NoncesOk(w.(nodes := w.nodes[k := Perform(w.nodes[k], c)], used := w.used + Fresh(c)))
  {
    hide Perform;
    var n := w.nodes[k];
    var n' := Perform(n, c);
    var w' := w.(nodes := w.nodes[k := n'], used := w.used + Fresh(c));
    FreshIsUnused(w, c);
    forall l, t | l in w'.nodes && Issued(t) in w'.nodes[l].memLog
      ensures t.nonce in w'.used
      ensures t.nonce in w.used ==> Issued(t) in w.nodes[l].memLog
      ensures t.nonce !in w.used ==> l == k && n'.memLog == n.memLog + [Issued(t)]
    {
      if l == k { IssuedBefore(n, c, t); }
    }
    NoncesStayApart(w, w', k, n');
  }

  lemma NoncesFrom(w: World)
    requires forall k, t :: k in w.nodes && Issued(t) in w.nodes[k].memLog ==> t.nonce in w.used
    requires forall k, l, t, u :: k in w.nodes && l in w.nodes
               && Issued(t) in w.nodes[k].memLog && Issued(u) in w.nodes[l].memLog && t.nonce == u.nonce
               ==> k == l && t == u
    ensures NoncesOk(w)
  {}

  lemma OldOffers(w: World, l: Text, m: Text, t: Token, u: Token)
    requires NoncesOk(w) && l in w.nodes && m in w.nodes
    requires Issued(t) in w.nodes[l].memLog && Issued(u) in w.nodes[m].memLog && t.nonce == u.nonce
    ensures l == m && t == u
  {}

  /** One new offer at most, and it carries an unused nonce: all nonces stay apart. */
  lemma NoncesStayApart(w: World, w': World, k: Text, n': Node)
    requires NoncesOk(w) && k in w.nodes && w'.nodes == w.nodes[k := n'] && w.used <= w'.used
    requires forall l, t :: l in w'.nodes && Issued(t) in w'.nodes[l].memLog ==>
               && t.nonce in w'.used
               && (t.nonce in w.used ==> Issued(t) in w.nodes[l].memLog)
               && (t.nonce !in w.used ==> l == k && n'.memLog == w.nodes[k].memLog + [Issued(t)])
    ensures NoncesOk(w')
  {
    hide NoncesOk;
    forall l, m, t, u | l in w'.nodes && m in w'.nodes && Issued(t) in w'.nodes[l].memLog
                        && Issued(u) in w'.nodes[m].memLog && t.nonce == u.nonce
      ensures l == m && t == u
    {
      if t.nonce in w.used {
        OldOffers(w, l, m, t, u);
      } else {
        LastIsSame(n'.memLog, w.nodes[k].memLog, Issued(t), Issued(u));
      }
    }
    NoncesFrom(w');
  }

  lemma LastIsSame(log: seq<Event>, before: seq<Event>, e: Event, f: Event)
    requires log == before + [e] && log == before + [f]
    ensures e == f
  {
    assert log[|before|] == e && log[|before|] == f;
  }

  lemma FreshIsUnused(w: World, c: Call)
    requires Enabled(w, c)
    ensures Fresh(c) !! w.used
  {}

  // ---- every step ----

  lemma OnNodeKeeps(evil: set<Text>, w: World, k: Text, c: Call)
    requires Inv(evil, w) && w.nodes.Keys !! evil && Next(evil, w, OnNode(k, c)).Some?
    ensures Inv(evil, Next(evil, w, OnNode(k, c)).value)
  {
    hide NodeOk;
    hide NetOk;
    hide NoncesOk;
    hide Perform;
    PerformKeeps(evil, w, k, c);
    NoncesKept(evil, w, k, c);
    PerformLog(w.nodes[k], c);
    assert LedgerOf(Next(evil, w, OnNode(k, c)).value) == LedgerOf(w);
  }

  lemma PersistNode(evil: set<Text>, led: Ledger, k: Text, n: Node)
    requires NodeOk(evil, led, k, n)
    ensures NodeOk(evil, led, k, n.(disk := n.mem, diskLog := n.memLog, outbox := {}))
  {
    hide SideOk;
  }

  lemma NodeGrows(evil: set<Text>, led: Ledger, led': Ledger, k: Text, n: Node)
    requires Grows(led, led') && NodeOk(evil, led, k, n)
    ensures NodeOk(evil, led', k, n)
  {
    hide SideOk;
    hide OutboxOk;
    SideGrows(evil, led, led', n.id, n.mem, n.memLog);
    SideGrows(evil, led, led', n.id, n.disk, n.diskLog);
  }

  lemma NetGrows(evil: set<Text>, led: Ledger, led': Ledger, net: set<Wire>)
    requires Grows(led, led') && NetOk(evil, led, net)
    ensures NetOk(evil, led', net)
  {
    hide SignsIn;
    forall x | x in net ensures WireOk(evil, led', SigOf(x)) {
      var s := SigOf(x);
      if s.Sig? && s.key !in evil { SignsGrows(led[s.key], led'[s.key], s.bytes); }
    }
  }

  /** Nothing newly issued, nothing newly clashing. */
  lemma NoncesStay(w: World, w': World)
    requires NoncesOk(w) && w'.used == w.used && w'.nodes.Keys == w.nodes.Keys
    requires forall l :: l in w.nodes ==> w'.nodes[l].memLog <= w.nodes[l].memLog
    ensures NoncesOk(w')
  {
    forall l, t | l in w'.nodes && Issued(t) in w'.nodes[l].memLog ensures Issued(t) in w.nodes[l].memLog {
      InPrefix(w'.nodes[l].memLog, w.nodes[l].memLog, Issued(t));
    }
  }

  lemma PersistNodes(evil: set<Text>, w: World, k: Text)
    requires Inv(evil, w) && Next(evil, w, Persist(k)).Some?
    ensures var w' := Next(evil, w, Persist(k)).value;
            && Grows(LedgerOf(w), LedgerOf(w'))
            && forall l :: l in w'.nodes ==> NodeOk(evil, LedgerOf(w'), l, w'.nodes[l])
  {
    hide NodeOk;
    hide NetOk;
    hide NoncesOk;
    var w' := Next(evil, w, Persist(k)).value;
    var n, led, led' := w.nodes[k], LedgerOf(w), LedgerOf(w');
    NodePrefix(evil, led, k, n);
    PersistNode(evil, led, k, n);
    forall l | l in w'.nodes ensures NodeOk(evil, led', l, w'.nodes[l]) {
      NodeGrows(evil, led, led', l, w'.nodes[l]);
    }
  }

  lemma PersistKeeps(evil: set<Text>, w: World, k: Text)
    requires Inv(evil, w) && Next(evil, w, Persist(k)).Some?
    ensures Inv(evil, Next(evil, w, Persist(k)).value)
  {
    hide NodeOk;
    hide NetOk;
    hide NoncesOk;
    hide Grows;
    var w' := Next(evil, w, Persist(k)).value;
    PersistNodes(evil, w, k);
    NetGrows(evil, LedgerOf(w), LedgerOf(w'), w.net);
    OutboxJoins(evil, LedgerOf(w), LedgerOf(w'), k, w.nodes[k], w.net);
    NoncesStay(w, w');
  }

  lemma NodePrefix(evil: set<Text>, led: Ledger, k: Text, n: Node)
    requires NodeOk(evil, led, k, n)
    ensures n.diskLog <= n.memLog
  {}

  lemma OutboxJoins(evil: set<Text>, led: Ledger, led': Ledger, k: Text, n: Node, net: set<Wire>)
    requires NodeOk(evil, led, k, n) && k in led' && led'[k] == n.memLog && NetOk(evil, led', net)
    ensures NetOk(evil, led', net + n.outbox)
  {
    hide SideOk;
    hide SignsIn;
  }

  lemma RestartKeeps(evil: set<Text>, w: World, k: Text)
    requires Inv(evil, w) && Next(evil, w, Restart(k)).Some?
    ensures Inv(evil, Next(evil, w, Restart(k)).value)
  {
    hide NodeOk;
    hide NetOk;
    hide NoncesOk;
    var w' := Next(evil, w, Restart(k)).value;
    assert LedgerOf(w') == LedgerOf(w);
    RestartNode(evil, LedgerOf(w), k, w.nodes[k]);
    NodePrefix(evil, LedgerOf(w), k, w.nodes[k]);
    NoncesStay(w, w');
  }

  lemma RestartNode(evil: set<Text>, led: Ledger, k: Text, n: Node)
    requires NodeOk(evil, led, k, n)
    ensures NodeOk(evil, led, k, n.(mem := n.disk, memLog := n.diskLog, outbox := {}))
  {
    hide SideOk;
  }

  lemma InjectKeeps(evil: set<Text>, w: World, wire: Wire)
    requires Inv(evil, w) && Next(evil, w, Inject(wire)).Some?
    ensures Inv(evil, Next(evil, w, Inject(wire)).value)
  {
    hide NodeOk, WireOk, NoncesOk, SigOf, Perform, NetOk, Sendable;
    var w' := Next(evil, w, Inject(wire)).value;
    assert LedgerOf(w') == LedgerOf(w);
    SendableOk(evil, LedgerOf(w), w.net, wire);
    NetGains(evil, LedgerOf(w), w.net, wire);
    NoncesSame(w, w');
  }

  lemma NetGains(evil: set<Text>, led: Ledger, net: set<Wire>, wire: Wire)
    requires NetOk(evil, led, net) && WireOk(evil, led, SigOf(wire))
    ensures NetOk(evil, led, net + {wire})
  {
    hide WireOk;
  }

  lemma NoncesSame(w: World, w': World)
    requires NoncesOk(w) && w'.nodes == w.nodes && w'.used == w.used
    ensures NoncesOk(w')
  {}

  lemma SendableOk(evil: set<Text>, led: Ledger, net: set<Wire>, wire: Wire)
    requires NetOk(evil, led, net) && Sendable(evil, net, wire)
    ensures WireOk(evil, led, SigOf(wire))
  {
    hide SignsIn;
    var s := SigOf(wire);
    if s.Sig? && s.key !in evil {
      var seen :| seen in net && SigOf(seen) == s;
      assert WireOk(evil, led, SigOf(seen));
    }
  }

  lemma NextKeeps(evil: set<Text>, w: World, l: Label)
    requires Inv(evil, w) && w.nodes.Keys !! evil && Next(evil, w, l).Some?
    ensures Inv(evil, Next(evil, w, l).value) && Next(evil, w, l).value.nodes.Keys == w.nodes.Keys
  {
    hide Inv;
    hide Perform;
    hide Sendable;
    match l
    case OnNode(k, c) => OnNodeKeeps(evil, w, k, c);
    case Persist(k) => PersistKeeps(evil, w, k);
    case Restart(k) => RestartKeeps(evil, w, k);
    case Inject(wire) => InjectKeeps(evil, w, wire);
  }

  lemma InitHolds(evil: set<Text>, w: World)
    requires Init(w)
    ensures Inv(evil, w)
  {
    hide NodeOk;
    forall k | k in w.nodes ensures NodeOk(evil, LedgerOf(w), k, w.nodes[k]) {
      NewbornOk(evil, LedgerOf(w), k, w.nodes[k]);
    }
  }

  lemma NewbornOk(evil: set<Text>, led: Ledger, k: Text, n: Node)
    requires n == Node(n.id, EMPTY_BOOK, [], EMPTY_BOOK, [], {}) && n.id.ed25519 == k
    ensures NodeOk(evil, led, k, n)
  {}

  /** The invariant holds after every run, whatever the attacker's keys. */
  lemma {:induction false} RunKeeps(evil: set<Text>, w: World, script: seq<Label>)
    requires Init(w) && w.nodes.Keys !! evil && Run(evil, w, script).Some?
    ensures Inv(evil, Run(evil, w, script).value) && Run(evil, w, script).value.nodes.Keys == w.nodes.Keys
  {
    hide Inv;
    hide Next;
    if |script| == 0 {
      InitHolds(evil, w);
    } else {
      var before := script[..|script| - 1];
      RunKeeps(evil, w, before);
      NextKeeps(evil, Run(evil, w, before).value, script[|script| - 1]);
    }
  }
}
