/** The five kinds of JSON object the island signs (friends.ts, messages.ts, canary.ts),
    each as the record its module builds, with the fields in source order. */
module Signables {
  import opened Canonical
  import opened CanonicalOrder
  import opened CanonicalProofs

  /** The range of a JavaScript Date, in milliseconds. */
  const MAX_DATE: int := 8_640_000_000_000_000
  type Instant = t: int | -MAX_DATE <= t <= MAX_DATE

  /** A date field: a time, or text that Date.parse does not understand. */
  datatype Stamp = At(ms: Instant) | NotADate(text: Text)

  datatype PeerPub = PeerPub(ed25519: Text, x25519: Text, name: Text, wg0: Text)

  datatype Signed =
    | TokenBody(tv: SafeInt, tfrom: PeerPub, tnonce: Text, tissued: Stamp, texpires: Stamp)
    | AcceptBody(av: SafeInt, afrom: PeerPub, aref: Text, aissued: Stamp)
    | RevokeBody(rv: SafeInt, rfrom: Text, rtarget: Text, rnonce: Text, rat: Stamp)
    | MessageBody(mtyp: Text, mid: Text, mnode: Text, mto: Text, mbody: Text, mts: Stamp)
    | CanaryBody(cnode: Text, ckeyword: Text, ctext: Text, cnonce: Text, cissued: Stamp)

  function StampJson(s: Stamp): Json {
    match s
    case At(ms) => Num(ms)
    case NotADate(text) => Str(text)
  }

  function PeerPubFields(p: PeerPub): seq<Entry<Json>> {
    [ Entry(Ascii("ed25519"), Str(p.ed25519)), Entry(Ascii("x25519"), Str(p.x25519)),
      Entry(Ascii("label"), Str(p.name)), Entry(Ascii("wg0"), Str(p.wg0)) ]
  }

  function Fields(b: Signed): seq<Entry<Json>> {
    match b
    case TokenBody(v, from, nonce, issued, expires) =>
      [ Entry(Ascii("v"), Num(v)), Entry(Ascii("from"), Obj(PeerPubFields(from))), Entry(Ascii("nonce"), Str(nonce)),
        Entry(Ascii("issued"), StampJson(issued)), Entry(Ascii("expires"), StampJson(expires)) ]
    case AcceptBody(v, from, ref, issued) =>
      [ Entry(Ascii("v"), Num(v)), Entry(Ascii("from"), Obj(PeerPubFields(from))), Entry(Ascii("ref"), Str(ref)),
        Entry(Ascii("issued"), StampJson(issued)) ]
    case RevokeBody(v, from, target, nonce, at) =>
      [ Entry(Ascii("v"), Num(v)), Entry(Ascii("from"), Str(from)), Entry(Ascii("target"), Str(target)),
        Entry(Ascii("nonce"), Str(nonce)), Entry(Ascii("at"), StampJson(at)) ]
    case MessageBody(typ, id, node, to, body, ts) =>
      [ Entry(Ascii("typ"), Str(typ)), Entry(Ascii("id"), Str(id)), Entry(Ascii("node"), Str(node)),
        Entry(Ascii("to"), Str(to)), Entry(Ascii("body"), Str(body)), Entry(Ascii("ts"), StampJson(ts)) ]
    case CanaryBody(node, keyword, text, nonce, issued) =>
      [ Entry(Ascii("node"), Str(node)), Entry(Ascii("keyword"), Str(keyword)), Entry(Ascii("text"), Str(text)),
        Entry(Ascii("nonce"), Str(nonce)), Entry(Ascii("issued"), StampJson(issued)) ]
  }

  /** The bytes `canonicalBytes` yields for a signable view. */
  function SignedText(b: Signed): Text {
    Encode(Obj(Fields(b)))
  }

  // ---- two objects with the same text have the same names and the same values ----

  lemma SameTextFields(f: seq<Entry<Json>>, g: seq<Entry<Json>>, i: nat)
    requires Valid(Obj(f)) && Valid(Obj(g)) && Encode(Obj(f)) == Encode(Obj(g)) && i < |f|
    ensures |f| == |g| && exists j :: 0 <= j < |g| && f[i].key == g[j].key && Same(f[i].value, g[j].value)
  {
    hide Encode;
    TextIffSame(Obj(f), Obj(g));
    assert Same(Obj(f), Obj(g));
    assert |f| == |g|;
    var j :| 0 <= j < |g| && f[i].key == g[j].key && Same(f[i].value, g[j].value);
  }

  /** Same names in the same order: the values agree one by one. */
  lemma SameTextValue(f: seq<Entry<Json>>, g: seq<Entry<Json>>, i: nat)
    requires Valid(Obj(f)) && Valid(Obj(g)) && Encode(Obj(f)) == Encode(Obj(g)) && i < |f| == |g|
    requires f[i].key == g[i].key
    ensures Same(f[i].value, g[i].value)
  {
    hide Encode;
    hide Same;
    SameTextFields(f, g, i);
    var j :| 0 <= j < |g| && f[i].key == g[j].key && Same(f[i].value, g[j].value);
  }

  /** A name only one of them has: the texts differ. */
  lemma ExtraName(f: seq<Entry<Json>>, g: seq<Entry<Json>>, i: nat)
    requires Valid(Obj(f)) && Valid(Obj(g)) && i < |f|
    requires forall j :: 0 <= j < |g| ==> f[i].key != g[j].key
    ensures Encode(Obj(f)) != Encode(Obj(g))
  {
    hide Encode;
    if Encode(Obj(f)) == Encode(Obj(g)) {
      SameTextFields(f, g, i);
    }
  }

  lemma AsciiDiffers(a: string, b: string)
    requires forall i :: 0 <= i < |a| ==> a[i] as int < 128
    requires forall i :: 0 <= i < |b| ==> b[i] as int < 128
    ensures Ascii(a) == Ascii(b) ==> a == b
  {
    if Ascii(a) == Ascii(b) {
      forall i | 0 <= i < |a| ensures a[i] == b[i] { assert Ascii(a)[i] == Ascii(b)[i]; }
    }
  }

  lemma DistinctByLengthOrFirst(fs: seq<Entry<Json>>)
    requires forall i, j :: 0 <= i < j < |fs| ==>
               |fs[i].key| != |fs[j].key| || (|fs[i].key| > 0 && fs[i].key[0] != fs[j].key[0])
    ensures DistinctKeys(fs)
  {}

  lemma PeerPubValid(p: PeerPub)
    ensures Valid(Obj(PeerPubFields(p)))
  {
    DistinctByLengthOrFirst(PeerPubFields(p));
  }

  lemma MessageValid(b: Signed)
    requires b.MessageBody?
    ensures Valid(Obj(Fields(b)))
  {
    // "to" and "ts" share a length and a first letter
    AsciiDiffers("to", "ts");
    var fs := Fields(b);
    forall i, j | 0 <= i < j < |fs| ensures fs[i].key != fs[j].key {
      if !(i == 3 && j == 5) {
        assert |fs[i].key| != |fs[j].key| || fs[i].key[0] != fs[j].key[0];
      }
    }
  }

  lemma HandshakeValid(b: Signed)
    requires b.TokenBody? || b.AcceptBody?
    ensures Valid(Obj(Fields(b)))
  {
    PeerPubValid(if b.TokenBody? then b.tfrom else b.afrom);
    DistinctByLengthOrFirst(Fields(b));
  }

  lemma BodyValid(b: Signed)
    ensures Valid(Obj(Fields(b)))
  {
    if b.MessageBody? {
      MessageValid(b);
    } else if b.TokenBody? || b.AcceptBody? {
      HandshakeValid(b);
    } else {
      DistinctByLengthOrFirst(Fields(b));
    }
  }

  lemma SameStr(a: Text, b: Text)
    requires Same(Str(a), Str(b))
    ensures a == b
  {}

  lemma PeerPubText(p: PeerPub, q: PeerPub)
    requires Same(Obj(PeerPubFields(p)), Obj(PeerPubFields(q)))
    ensures Encode(Obj(PeerPubFields(p))) == Encode(Obj(PeerPubFields(q)))
    ensures Valid(Obj(PeerPubFields(p))) && Valid(Obj(PeerPubFields(q)))
  {
    hide *;
    PeerPubValid(p);
    PeerPubValid(q);
    TextIffSame(Obj(PeerPubFields(p)), Obj(PeerPubFields(q)));
  }

  lemma PeerPubInjective(p: PeerPub, q: PeerPub)
    requires Same(Obj(PeerPubFields(p)), Obj(PeerPubFields(q)))
    ensures p == q
  {
    hide Encode, Same, Ascii, Valid;
    var f, g := PeerPubFields(p), PeerPubFields(q);
    PeerPubText(p, q);
    SameTextValue(f, g, 0);
    SameStr(p.ed25519, q.ed25519);
    SameTextValue(f, g, 1);
    SameStr(p.x25519, q.x25519);
    SameTextValue(f, g, 2);
    SameStr(p.name, q.name);
    SameTextValue(f, g, 3);
    SameStr(p.wg0, q.wg0);
  }

  /** The position of a name no other kind has. */
  function Mark(b: Signed): nat {
    match b
    case TokenBody(_, _, _, _, _) => 4
    case AcceptBody(_, _, _, _) => 2
    case RevokeBody(_, _, _, _, _) => 2
    case MessageBody(_, _, _, _, _, _) => 0
    case CanaryBody(_, _, _, _, _) => 1
  }

  predicate SameKind(a: Signed, b: Signed) {
    || (a.TokenBody? && b.TokenBody?)
    || (a.AcceptBody? && b.AcceptBody?)
    || (a.RevokeBody? && b.RevokeBody?)
    || (a.MessageBody? && b.MessageBody?)
    || (a.CanaryBody? && b.CanaryBody?)
  }

  /** `key` is told apart from every name of `b` by its length or its first letter. */
  predicate Foreign(key: Text, b: Signed) {
    |key| > 0 && forall j :: 0 <= j < |Fields(b)| ==>
      |Fields(b)[j].key| != |key| || (|Fields(b)[j].key| > 0 && Fields(b)[j].key[0] != key[0])
  }

  lemma ForeignIsNew(key: Text, b: Signed)
    requires Foreign(key, b)
    ensures forall j :: 0 <= j < |Fields(b)| ==> key != Fields(b)[j].key
  {
    hide Fields;
  }

  lemma ExpiresIsForeign(b: Signed)
    requires !b.TokenBody?
    ensures Foreign(Ascii("expires"), b)
  {}

  lemma RefIsForeign(b: Signed)
    requires !b.AcceptBody?
    ensures Foreign(Ascii("ref"), b)
  {}

  lemma TargetIsForeign(b: Signed)
    requires !b.RevokeBody?
    ensures Foreign(Ascii("target"), b)
  {}

  lemma TypIsForeign(b: Signed)
    requires !b.MessageBody?
    ensures Foreign(Ascii("typ"), b)
  {}

  lemma KeywordIsForeign(b: Signed)
    requires !b.CanaryBody?
    ensures Foreign(Ascii("keyword"), b)
  {}

  lemma MarkIsForeign(a: Signed, b: Signed)
    requires !SameKind(a, b)
    ensures forall j :: 0 <= j < |Fields(b)| ==> Fields(a)[Mark(a)].key != Fields(b)[j].key
  {
    hide Foreign, Ascii;
    match a
    case TokenBody(_, _, _, _, _) => ExpiresIsForeign(b); ForeignIsNew(Ascii("expires"), b);
    case AcceptBody(_, _, _, _) => RefIsForeign(b); ForeignIsNew(Ascii("ref"), b);
    case RevokeBody(_, _, _, _, _) => TargetIsForeign(b); ForeignIsNew(Ascii("target"), b);
    case MessageBody(_, _, _, _, _, _) => TypIsForeign(b); ForeignIsNew(Ascii("typ"), b);
    case CanaryBody(_, _, _, _, _) => KeywordIsForeign(b); ForeignIsNew(Ascii("keyword"), b);
  }

  lemma SameNames(a: Signed, b: Signed)
    requires SameKind(a, b)
    ensures |Fields(a)| == |Fields(b)| && forall i :: 0 <= i < |Fields(a)| ==> Fields(a)[i].key == Fields(b)[i].key
  {
    hide Ascii;
  }

  lemma FieldsAgree(a: Signed, b: Signed)
    requires SameKind(a, b) && SignedText(a) == SignedText(b)
    ensures |Fields(a)| == |Fields(b)|
    ensures forall i :: 0 <= i < |Fields(a)| ==> Same(Fields(a)[i].value, Fields(b)[i].value)
  {
    hide Encode, Same, Fields, Valid, SameKind;
    BodyValid(a);
    BodyValid(b);
    SameNames(a, b);
    forall i | 0 <= i < |Fields(a)| ensures Same(Fields(a)[i].value, Fields(b)[i].value) {
      SameTextValue(Fields(a), Fields(b), i);
    }
  }

  /** The signed bytes determine the kind of object and every field of it: bytes signed
      for one purpose never verify for another. */
  lemma SignedTextInjective(a: Signed, b: Signed)
    ensures SignedText(a) == SignedText(b) <==> a == b
  {
    if SignedText(a) == SignedText(b) {
      hide Encode;
      if SameKind(a, b) {
        FieldsAgree(a, b);
        SameBody(a, b);
      } else {
        BodyValid(a);
        BodyValid(b);
        MarkIsForeign(a, b);
        ExtraName(Fields(a), Fields(b), Mark(a));
      }
    }
  }

  lemma StampInjective(a: Stamp, b: Stamp)
    requires Same(StampJson(a), StampJson(b))
    ensures a == b
  {}

  /** Bodies of a kind whose values agree one by one are one body. */
  lemma SameBody(a: Signed, b: Signed)
    requires SameKind(a, b) && |Fields(a)| == |Fields(b)|
    requires forall i :: 0 <= i < |Fields(a)| ==> Same(Fields(a)[i].value, Fields(b)[i].value)
    ensures a == b
  {
    if a.TokenBody? {
      SameToken(a, b);
    } else if a.AcceptBody? {
      SameAccept(a, b);
    } else if a.RevokeBody? {
      SameRevoke(a, b);
    } else if a.MessageBody? {
      SameMessage(a, b);
    } else {
      SameCanary(a, b);
    }
  }

  lemma SameToken(a: Signed, b: Signed)
    requires a.TokenBody? && b.TokenBody?
    requires forall i :: 0 <= i < |Fields(a)| ==> Same(Fields(a)[i].value, Fields(b)[i].value)
    ensures a == b
  {
    hide PeerPubFields, StampJson;
    var f, g := Fields(a), Fields(b);
    assert Same(f[0].value, g[0].value) && Same(f[1].value, g[1].value) && Same(f[2].value, g[2].value);
    assert Same(f[3].value, g[3].value) && Same(f[4].value, g[4].value);
    PeerPubInjective(a.tfrom, b.tfrom);
    StampInjective(a.tissued, b.tissued);
    StampInjective(a.texpires, b.texpires);
  }

  lemma SameAccept(a: Signed, b: Signed)
    requires a.AcceptBody? && b.AcceptBody?
    requires forall i :: 0 <= i < |Fields(a)| ==> Same(Fields(a)[i].value, Fields(b)[i].value)
    ensures a == b
  {
    hide PeerPubFields, StampJson;
    var f, g := Fields(a), Fields(b);
    assert Same(f[0].value, g[0].value) && Same(f[1].value, g[1].value);
    assert Same(f[2].value, g[2].value) && Same(f[3].value, g[3].value);
    PeerPubInjective(a.afrom, b.afrom);
    StampInjective(a.aissued, b.aissued);
  }

  lemma SameRevoke(a: Signed, b: Signed)
    requires a.RevokeBody? && b.RevokeBody?
    requires forall i :: 0 <= i < |Fields(a)| ==> Same(Fields(a)[i].value, Fields(b)[i].value)
    ensures a == b
  {
    hide StampJson;
    var f, g := Fields(a), Fields(b);
    assert Same(f[0].value, g[0].value) && Same(f[1].value, g[1].value) && Same(f[2].value, g[2].value);
    assert Same(f[3].value, g[3].value) && Same(f[4].value, g[4].value);
    StampInjective(a.rat, b.rat);
  }

  lemma SameMessage(a: Signed, b: Signed)
    requires a.MessageBody? && b.MessageBody?
    requires forall i :: 0 <= i < |Fields(a)| ==> Same(Fields(a)[i].value, Fields(b)[i].value)
    ensures a == b
  {
    hide StampJson;
    var f, g := Fields(a), Fields(b);
    assert Same(f[0].value, g[0].value) && Same(f[1].value, g[1].value) && Same(f[2].value, g[2].value);
    assert Same(f[3].value, g[3].value) && Same(f[4].value, g[4].value) && Same(f[5].value, g[5].value);
    StampInjective(a.mts, b.mts);
  }

  lemma SameCanary(a: Signed, b: Signed)
    requires a.CanaryBody? && b.CanaryBody?
    requires forall i :: 0 <= i < |Fields(a)| ==> Same(Fields(a)[i].value, Fields(b)[i].value)
    ensures a == b
  {
    hide StampJson;
    var f, g := Fields(a), Fields(b);
    assert Same(f[0].value, g[0].value) && Same(f[1].value, g[1].value) && Same(f[2].value, g[2].value);
    assert Same(f[3].value, g[3].value) && Same(f[4].value, g[4].value);
    StampInjective(a.cissued, b.cissued);
  }
}
