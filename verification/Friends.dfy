/** Friending (island/src/core/friends.ts): tokens, accepts, revoke notices and the
    per-node book. Signatures are symbolic: a signature is the key that made it and the
    canonical bytes it covers. Times are milliseconds. */
module Friends {
  import opened Wrappers
  import opened Canonical
  import opened Signables

  datatype Signature = Sig(key: Text, bytes: Text) | NoSig

  datatype Token = Token(v: SafeInt, from: PeerPub, nonce: Text, issued: Stamp, expires: Stamp, sig: Signature)
  datatype Accept = Accept(v: SafeInt, from: PeerPub, ref: Text, issued: Stamp, sig: Signature)
  datatype Revoke = Revoke(v: SafeInt, from: Text, target: Text, nonce: Text, at: Stamp, sig: Signature)

  /** An accept sealed to one X25519 key, or bytes that open for nobody. */
  datatype Blob = Sealed(to: Text, accept: Accept) | Noise

  datatype Identity = Identity(ed25519: Text, x25519: Text, name: Text, wg0: Text)
  datatype Pending = Pending(token: Token, received: Instant)
  datatype FriendRecord = FriendRecord(peer: PeerPub, nonce: Text, since: Instant)

  datatype FriendError =
    | UnsupportedVersion | BadSignature | Expired | AlreadyUsed | Yourself | NoPending
    | CannotOpen | NoOffer | MalformedRevoke | WrongTarget | NotAFriend | StaleRevoke | OutOfRange

  /** What a node remembers about friendships: the content of `BookData`. */
  datatype Book = Book(
    offered: map<Text, Token>,
    pending: map<Text, Pending>,
    friends: map<Text, FriendRecord>,
    consumed: set<Text>)

  const EMPTY_BOOK := Book(map[], map[], map[], {})

  const REVOKE_SKEW_MS: int := 120_000

  // ---- signing ----

  function TokenView(t: Token): Signed { TokenBody(t.v, t.from, t.nonce, t.issued, t.expires) }

  function AcceptView(a: Accept): Signed { AcceptBody(a.v, a.from, a.ref, a.issued) }

  function RevokeView(r: Revoke): Signed { RevokeBody(r.v, r.from, r.target, r.nonce, r.at) }

  predicate Verify(body: Signed, sig: Signature, key: Text) { sig == Sig(key, SignedText(body)) }

  function PubOf(id: Identity): PeerPub { PeerPub(id.ed25519, id.x25519, id.name, id.wg0) }

  /** `Date.parse(stamp) < now`: false when the stamp does not parse. */
  predicate Past(stamp: Stamp, now: Instant) { stamp.At? && stamp.ms < now }

  function MakeToken(id: Identity, nonce: Text, ttlMs: int, now: Instant): Result<Token, FriendError> {
    if !(-MAX_DATE <= now + ttlMs <= MAX_DATE) then Err(OutOfRange)
    else
      var t := Token(1, PubOf(id), nonce, At(now), At(now + ttlMs), NoSig);
      Ok(t.(sig := Sig(id.ed25519, SignedText(TokenView(t)))))
  }

  function VerifyToken(t: Token, now: Instant): Result<PeerPub, FriendError> {
    if t.v != 1 then Err(UnsupportedVersion)
    else if !Verify(TokenView(t), t.sig, t.from.ed25519) then Err(BadSignature)
    else if Past(t.expires, now) then Err(Expired)
    else Ok(t.from)
  }

  function MakeAccept(id: Identity, token: Token, now: Instant): Blob {
    var a := Accept(1, PubOf(id), token.nonce, At(now), NoSig);
    Sealed(token.from.x25519, a.(sig := Sig(id.ed25519, SignedText(AcceptView(a)))))
  }

  function OpenAccept(id: Identity, blob: Blob): Result<Accept, FriendError> {
    if blob.Noise? || blob.to != id.x25519 then Err(CannotOpen)
    else if blob.accept.v != 1 then Err(UnsupportedVersion)
    else if !Verify(AcceptView(blob.accept), blob.accept.sig, blob.accept.from.ed25519) then Err(BadSignature)
    else Ok(blob.accept)
  }

  function MakeRevoke(id: Identity, peer: Text, nonce: Text, now: Instant): Revoke {
    var r := Revoke(1, id.ed25519, peer, nonce, At(now), NoSig);
    r.(sig := Sig(id.ed25519, SignedText(RevokeView(r))))
  }

  // ---- the calls on a book: the book after the call, and what the caller gets ----

  datatype Outcome<T> = Outcome(book: Book, result: Result<T, FriendError>)

  function IssueToken(id: Identity, b: Book, nonce: Text, ttlMs: int, now: Instant): Outcome<Token> {
    var t := MakeToken(id, nonce, ttlMs, now);
    if t.Err? then Outcome(b, t) else Outcome(b.(offered := b.offered[nonce := t.value]), t)
  }

  function Receive(id: Identity, b: Book, token: Token, now: Instant): Outcome<PeerPub> {
    var from := VerifyToken(token, now);
    if from.Err? then Outcome(b, from)
    else if token.nonce in b.consumed then Outcome(b, Err(AlreadyUsed))
    else if token.from.ed25519 == id.ed25519 then Outcome(b, Err(Yourself))
    else Outcome(b.(pending := b.pending[token.from.ed25519 := Pending(token, now)]), from)
  }

  function AcceptPending(id: Identity, b: Book, giver: Text, now: Instant): Outcome<Blob> {
    if giver !in b.pending then Outcome(b, Err(NoPending))
    else
      var token := b.pending[giver].token;
      if Past(token.expires, now) then Outcome(b, Err(Expired))
      else
        Outcome(b.(pending := b.pending - {giver},
                   consumed := b.consumed + {token.nonce},
                   friends := b.friends[giver := FriendRecord(token.from, token.nonce, now)]),
                Ok(MakeAccept(id, token, now)))
  }

  function Confirm(id: Identity, b: Book, blob: Blob, now: Instant): Outcome<FriendRecord> {
    var inner := OpenAccept(id, blob);
    if inner.Err? then Outcome(b, Err(inner.error))
    else
      var accept := inner.value;
      if accept.ref !in b.offered then Outcome(b, Err(NoOffer))
      else if accept.ref in b.consumed then Outcome(b, Err(AlreadyUsed))
      else if Past(b.offered[accept.ref].expires, now) then Outcome(b, Err(Expired))
      else
        var rec := FriendRecord(accept.from, accept.ref, now);
        Outcome(b.(offered := b.offered - {accept.ref},
                   consumed := b.consumed + {accept.ref},
                   friends := b.friends[accept.from.ed25519 := rec]),
                Ok(rec))
  }

  function IssueRevoke(id: Identity, b: Book, peer: Text, nonce: Text, now: Instant): (Book, Option<Revoke>) {
    if peer !in b.friends then (b, None)
    else (b.(friends := b.friends - {peer}), Some(MakeRevoke(id, peer, nonce, now)))
  }

  function ReceiveRevoke(id: Identity, b: Book, n: Revoke): Outcome<FriendRecord> {
    if n.v != 1 then Outcome(b, Err(MalformedRevoke))
    else if n.target != id.ed25519 then Outcome(b, Err(WrongTarget))
    else if n.from !in b.friends then Outcome(b, Err(NotAFriend))
    else if n.nonce in b.consumed then Outcome(b, Err(AlreadyUsed))
    else
      var rec := b.friends[n.from];
      if !Verify(RevokeView(n), n.sig, rec.peer.ed25519) then Outcome(b, Err(BadSignature))
      else if n.at.NotADate? then Outcome(b, Err(MalformedRevoke))
      else if n.at.ms < rec.since - REVOKE_SKEW_MS then Outcome(b, Err(StaleRevoke))
      else Outcome(b.(consumed := b.consumed + {n.nonce}, friends := b.friends - {n.from}), Ok(rec))
  }

  // ---- the class that holds a book ----

  class FriendBook {
    const id: Identity
    var offered: map<Text, Token>
    var pending: map<Text, Pending>
    var friends: map<Text, FriendRecord>
    var consumed: set<Text>

    function Data(): Book
      reads this
    {
      Book(offered, pending, friends, consumed)
    }

    constructor (id: Identity)
      ensures this.id == id && Data() == EMPTY_BOOK
    {
      this.id := id;
      offered, pending, friends, consumed := map[], map[], map[], {};
    }

    /** `fromJSON`: a restarted node continues with the book it saved. */
    constructor FromJson(id: Identity, data: Book)
      ensures this.id == id && Data() == data
    {
      this.id := id;
      offered, pending, friends, consumed := data.offered, data.pending, data.friends, data.consumed;
    }

    method Issue(nonce: Text, ttlMs: int, now: Instant) returns (r: Result<Token, FriendError>)
      modifies this
      ensures Outcome(Data(), r) == IssueToken(id, old(Data()), nonce, ttlMs, now)
    {
      r := MakeToken(id, nonce, ttlMs, now);
      if r.Ok? {
        offered := offered[nonce := r.value];
      }
    }

    method ReceiveToken(token: Token, now: Instant) returns (r: Result<PeerPub, FriendError>)
      modifies this
      ensures Outcome(Data(), r) == Receive(id, old(Data()), token, now)
    {
      r := VerifyToken(token, now);
      if r.Err? { return; }
      if token.nonce in consumed { return Err(AlreadyUsed); }
      if r.value.ed25519 == id.ed25519 { return Err(Yourself); }
      pending := pending[r.value.ed25519 := Pending(token, now)];
    }

    method AcceptRequest(giver: Text, now: Instant) returns (r: Result<Blob, FriendError>)
      modifies this
      ensures Outcome(Data(), r) == AcceptPending(id, old(Data()), giver, now)
    {
      if giver !in pending { return Err(NoPending); }
      var token := pending[giver].token;
      if Past(token.expires, now) { return Err(Expired); }
      var blob := MakeAccept(id, token, now);
      pending := pending - {giver};
      consumed := consumed + {token.nonce};
      friends := friends[giver := FriendRecord(token.from, token.nonce, now)];
      return Ok(blob);
    }

    method ConfirmAccept(blob: Blob, now: Instant) returns (r: Result<FriendRecord, FriendError>)
      modifies this
      ensures Outcome(Data(), r) == Confirm(id, old(Data()), blob, now)
    {
      var inner := OpenAccept(id, blob);
      if inner.Err? { return Err(inner.error); }
      var accept := inner.value;
      if accept.ref !in offered { return Err(NoOffer); }
      if accept.ref in consumed { return Err(AlreadyUsed); }
      if Past(offered[accept.ref].expires, now) { return Err(Expired); }
      offered := offered - {accept.ref};
      consumed := consumed + {accept.ref};
      var rec := FriendRecord(accept.from, accept.ref, now);
      friends := friends[accept.from.ed25519 := rec];
      return Ok(rec);
    }

    method RevokeLocally(peer: Text) returns (removed: bool)
      modifies this`friends
      ensures friends == old(friends) - {peer} && removed == (peer in old(friends))
    {
      removed := peer in friends;
      friends := friends - {peer};
    }

    method EndFriendship(peer: Text, nonce: Text, now: Instant) returns (r: Option<Revoke>)
      modifies this`friends
      ensures (Data(), r) == IssueRevoke(id, old(Data()), peer, nonce, now)
    {
      if peer !in friends { return None; }
      r := Some(MakeRevoke(id, peer, nonce, now));
      friends := friends - {peer};
    }

    method ReceiveNotice(n: Revoke) returns (r: Result<FriendRecord, FriendError>)
      modifies this
      ensures Outcome(Data(), r) == ReceiveRevoke(id, old(Data()), n)
    {
      if n.v != 1 { return Err(MalformedRevoke); }
      if n.target != id.ed25519 { return Err(WrongTarget); }
      if n.from !in friends { return Err(NotAFriend); }
      var rec := friends[n.from];
      if n.nonce in consumed { return Err(AlreadyUsed); }
      if !Verify(RevokeView(n), n.sig, rec.peer.ed25519) { return Err(BadSignature); }
      if n.at.NotADate? { return Err(MalformedRevoke); }
      if n.at.ms < rec.since - REVOKE_SKEW_MS { return Err(StaleRevoke); }
      consumed := consumed + {n.nonce};
      friends := friends - {n.from};
      return Ok(rec);
    }
  }
}
