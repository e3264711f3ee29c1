/** What every step of the friending world keeps. */
module FriendInvariant {
  import opened Wrappers
  import opened Canonical
  import opened Signables
  import opened Friends
  import opened FriendNet

  /** The saved event logs, by owner: what a released signature can be traced to. */
  type Ledger = map<Text, seq<Event>>

  function LedgerOf(w: World): Ledger {
    map k | k in w.nodes :: w.nodes[k].diskLog
  }

  /** The body an event signed, if it signed one. */
  function SignedBy(e: Event): Option<Signed> {
    match e
    case Issued(t) => Some(TokenView(t))
    case Accepted(_, a, _) => Some(AcceptView(a))
    case RevokeSigned(n) => Some(RevokeView(n))
    case _ => None
  }

  ghost predicate SignsIn(log: seq<Event>, bytes: Text) {
    exists e :: e in log && SignedBy(e).Some? && SignedText(SignedBy(e).value) == bytes
  }

  ghost predicate Signed1(log: seq<Event>, body: Signed) {
    exists e :: e in log && SignedBy(e) == Some(body)
  }

  /** `key` signed `body`: provably so for an honest key, possible for one in `evil`. */
  ghost predicate Origin(evil: set<Text>, led: Ledger, key: Text, body: Signed) {
    key in evil || (key in led && Signed1(led[key], body))
  }

  ghost predicate TokenOk(evil: set<Text>, led: Ledger, me: Text, t: Token) {
    t.v == 1 && t.from.ed25519 != me && Origin(evil, led, t.from.ed25519, TokenView(t))
  }

  ghost predicate AcceptOk(evil: set<Text>, led: Ledger, me: Text, a: Accept) {
    a.v == 1 && a.from.ed25519 != me && Origin(evil, led, a.from.ed25519, AcceptView(a))
  }

  ghost predicate RecordOk(log: seq<Event>, p: Text, rec: FriendRecord) {
    rec.peer.ed25519 == p && exists e :: e in log && (e.Accepted? || e.Confirmed?) && e.rec == rec
  }

  ghost predicate EventOk(evil: set<Text>, led: Ledger, id: Identity, consumed: set<Text>, log: seq<Event>, e: Event) {
    match e
    case Issued(t) => t.v == 1 && t.from == PubOf(id) && t.expires.At?
    case Accepted(t, a, rec) =>
      && TokenOk(evil, led, id.ed25519, t) && t.nonce in consumed && !Past(t.expires, rec.since)
      && a.v == 1 && a.from == PubOf(id) && a.ref == t.nonce
      && rec.peer == t.from && rec.nonce == t.nonce
    case Confirmed(o, a, rec) =>
      && Issued(o) in log && o.nonce in consumed && !Past(o.expires, rec.since)
      && AcceptOk(evil, led, id.ed25519, a) && a.ref == o.nonce
      && rec.peer == a.from && rec.nonce == o.nonce
    case RevokeSigned(n) => n.from == id.ed25519
    case RevokeObeyed(n, rec) =>
      && n.nonce in consumed && n.target == id.ed25519 && RecordOk(log, n.from, rec)
      && Origin(evil, led, n.from, RevokeView(n))
      && n.at.At? && n.at.ms >= rec.since - REVOKE_SKEW_MS
  }

  /** Two events that would spend one single-use nonce twice. */
  predicate Clash(e: Event, f: Event) {
    || (e.Confirmed? && f.Confirmed? && e.offer.nonce == f.offer.nonce)
    || (e.RevokeObeyed? && f.RevokeObeyed? && e.notice.nonce == f.notice.nonce)
  }

  ghost predicate LogOk(evil: set<Text>, led: Ledger, id: Identity, consumed: set<Text>, log: seq<Event>) {
    && (forall i :: 0 <= i < |log| ==> EventOk(evil, led, id, consumed, log, log[i]))
    && (forall i, j :: 0 <= i < j < |log| ==> !Clash(log[i], log[j]))
  }

  ghost predicate BookOk(evil: set<Text>, led: Ledger, me: Text, b: Book, log: seq<Event>) {
    && (forall n :: n in b.offered ==> b.offered[n].nonce == n && Issued(b.offered[n]) in log)
    && (forall p :: p in b.pending ==> b.pending[p].token.from.ed25519 == p && TokenOk(evil, led, me, b.pending[p].token))
    && (forall p :: p in b.friends ==> RecordOk(log, p, b.friends[p]))
  }

  ghost predicate SideOk(evil: set<Text>, led: Ledger, id: Identity, b: Book, log: seq<Event>) {
    BookOk(evil, led, id.ed25519, b, log) && LogOk(evil, led, id, b.consumed, log)
  }

  ghost predicate OutboxOk(k: Text, log: seq<Event>, outbox: set<Wire>) {
    forall o :: o in outbox ==> SigOf(o).Sig? && SigOf(o).key == k && SignsIn(log, SigOf(o).bytes)
  }

  ghost predicate NodeOk(evil: set<Text>, led: Ledger, k: Text, n: Node) {
    && n.id.ed25519 == k
    && n.diskLog <= n.memLog && n.disk.consumed <= n.mem.consumed
    && SideOk(evil, led, n.id, n.mem, n.memLog)
    && SideOk(evil, led, n.id, n.disk, n.diskLog)
    && OutboxOk(k, n.memLog, n.outbox)
  }

  ghost predicate WireOk(evil: set<Text>, led: Ledger, s: Signature) {
    s.NoSig? || s.key in evil || (s.key in led && SignsIn(led[s.key], s.bytes))
  }

  ghost predicate NetOk(evil: set<Text>, led: Ledger, net: set<Wire>) {
    forall w :: w in net ==> WireOk(evil, led, SigOf(w))
  }

  /** No two offers share a nonce, on one node or on two. */
  ghost predicate NoncesOk(w: World) {
    && (forall k, t :: k in w.nodes && Issued(t) in w.nodes[k].memLog ==> t.nonce in w.used)
    && (forall k, l, t, u :: k in w.nodes && l in w.nodes
         && Issued(t) in w.nodes[k].memLog && Issued(u) in w.nodes[l].memLog && t.nonce == u.nonce
         ==> k == l && t == u)
  }

  ghost predicate Inv(evil: set<Text>, w: World) {
    && (forall k :: k in w.nodes ==> NodeOk(evil, LedgerOf(w), k, w.nodes[k]))
    && NetOk(evil, LedgerOf(w), w.net)
    && NoncesOk(w)
  }

  // ---- signatures lead back to events ----

  lemma SignsInIsSigned(log: seq<Event>, body: Signed)
    requires SignsIn(log, SignedText(body))
    ensures Signed1(log, body)
  {
    hide SignedText;
    var e :| e in log && SignedBy(e).Some? && SignedText(SignedBy(e).value) == SignedText(body);
    SignedTextInjective(SignedBy(e).value, body);
  }

  /** A verified signature on something received was made by the key's owner. */
  lemma VerifiedOrigin(evil: set<Text>, led: Ledger, net: set<Wire>, wire: Wire, key: Text, body: Signed)
    requires NetOk(evil, led, net) && wire in net && Verify(body, SigOf(wire), key)
    ensures Origin(evil, led, key, body)
  {
    hide SignedText;
    hide SignsIn;
    assert WireOk(evil, led, SigOf(wire));
    if key !in evil { SignsInIsSigned(led[key], body); }
  }

  // ---- growth ----

  ghost predicate Grows(led: Ledger, led': Ledger) {
    forall k :: k in led ==> k in led' && led[k] <= led'[k]
  }

  lemma OriginGrows(evil: set<Text>, led: Ledger, led': Ledger, key: Text, body: Signed)
    requires Grows(led, led') && Origin(evil, led, key, body)
    ensures Origin(evil, led', key, body)
  {
    if key !in evil {
      var e :| e in led[key] && SignedBy(e) == Some(body);
      InPrefix(led[key], led'[key], e);
    }
  }

  lemma InPrefix(log: seq<Event>, log': seq<Event>, e: Event)
    requires log <= log' && e in log
    ensures e in log'
  {
    var i :| 0 <= i < |log| && log[i] == e;
    assert log'[i] == e;
  }

  lemma RecordGrows(log: seq<Event>, log': seq<Event>, p: Text, rec: FriendRecord)
    requires log <= log' && RecordOk(log, p, rec)
    ensures RecordOk(log', p, rec)
  {
    var e :| e in log && (e.Accepted? || e.Confirmed?) && e.rec == rec;
    InPrefix(log, log', e);
  }

  lemma SignsGrows(log: seq<Event>, log': seq<Event>, bytes: Text)
    requires log <= log' && SignsIn(log, bytes)
    ensures SignsIn(log', bytes)
  {
    hide SignedText;
    var e :| e in log && SignedBy(e).Some? && SignedText(SignedBy(e).value) == bytes;
    InPrefix(log, log', e);
  }

  lemma EventGrows(evil: set<Text>, led: Ledger, led': Ledger, id: Identity,
                   used: set<Text>, used': set<Text>, log: seq<Event>, log': seq<Event>, e: Event)
    requires Grows(led, led') && used <= used' && log <= log'
    requires EventOk(evil, led, id, used, log, e)
    ensures EventOk(evil, led', id, used', log', e)
  {
    hide Origin;
    match e
    case Issued(t) =>
    case Accepted(t, a, rec) => OriginGrows(evil, led, led', t.from.ed25519, TokenView(t));
    case Confirmed(o, a, rec) =>
      InPrefix(log, log', Issued(o));
      OriginGrows(evil, led, led', a.from.ed25519, AcceptView(a));
    case RevokeSigned(n) =>
    case RevokeObeyed(n, rec) =>
      RecordGrows(log, log', n.from, rec);
      OriginGrows(evil, led, led', n.from, RevokeView(n));
  }

  lemma SideGrows(evil: set<Text>, led: Ledger, led': Ledger, id: Identity, b: Book, log: seq<Event>)
    requires Grows(led, led') && SideOk(evil, led, id, b, log)
    ensures SideOk(evil, led', id, b, log)
  {
    hide EventOk;
    hide Origin;
    hide RecordOk;
    forall i | 0 <= i < |log| ensures EventOk(evil, led', id, b.consumed, log, log[i]) {
      EventGrows(evil, led, led', id, b.consumed, b.consumed, log, log, log[i]);
    }
    forall p | p in b.pending ensures TokenOk(evil, led', id.ed25519, b.pending[p].token) {
      var t := b.pending[p].token;
      OriginGrows(evil, led, led', t.from.ed25519, TokenView(t));
    }
  }

  /** One more event in the log, one more nonce spent. */
  lemma LogExtends(evil: set<Text>, led: Ledger, id: Identity, used: set<Text>, used': set<Text>, log: seq<Event>, e: Event)
    requires LogOk(evil, led, id, used, log) && used <= used'
    requires EventOk(evil, led, id, used', log + [e], e)
    requires forall i :: 0 <= i < |log| ==> !Clash(log[i], e)
    ensures LogOk(evil, led, id, used', log + [e])
  {
    hide EventOk;
    hide Clash;
    var log' := log + [e];
    forall i | 0 <= i < |log'| ensures EventOk(evil, led, id, used', log', log'[i]) {
      if i < |log| {
        EventGrows(evil, led, led, id, used, used', log, log', log[i]);
      }
    }
  }

  /** A nonce not yet consumed has not been spent by any event. */
  lemma FreshDoesNotClash(evil: set<Text>, led: Ledger, id: Identity, used: set<Text>, log: seq<Event>, e: Event, nonce: Text)
    requires LogOk(evil, led, id, used, log) && nonce !in used
    requires e.Confirmed? ==> e.offer.nonce == nonce
    requires e.RevokeObeyed? ==> e.notice.nonce == nonce
    ensures forall i :: 0 <= i < |log| ==> !Clash(log[i], e)
  {
    hide Origin;
    hide RecordOk;
    forall i | 0 <= i < |log| ensures !Clash(log[i], e) {
      assert EventOk(evil, led, id, used, log, log[i]);
    }
  }
}
