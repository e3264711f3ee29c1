/** Sign-then-seal and open-then-verify (island/src/core/envelope.ts), over any
    signature and sealed-box suite that undoes itself for the key owner. */
module Envelope {
  import opened Wrappers
  import opened Canonical
  import opened CanonicalOrder
  import opened CanonicalProofs

  /** Base64 is part of the suite: signatures, keys and blobs are texts. */
  datatype Suite = Suite(
    sign: (Text, Text) -> Text,            // (secret key, bytes) -> signature
    verify: (Text, Text, Text) -> bool,    // (signature, bytes, public key)
    seal: (Text, Text) -> Text,            // (bytes, recipient public key) -> blob
    unseal: (Text, Text) -> Option<Text>,  // (blob, recipient secret key)
    isBase64: Text -> bool,
    signPublic: Text -> Text,
    boxPublic: Text -> Text)

  ghost predicate Sound(s: Suite) {
    && (forall key, bytes :: s.verify(s.sign(key, bytes), bytes, s.signPublic(key)))
    && (forall key, bytes :: s.isBase64(s.sign(key, bytes)))
    && (forall key, bytes :: s.unseal(s.seal(bytes, s.boxPublic(key)), key) == Some(bytes))
  }

  datatype VerificationError = CannotDecrypt | Malformed | UnknownNode | BadSignature

  /** A property read: absent reads as None. */
  function Lookup(v: Json, name: Text): Option<Json> {
    if v.Obj? then LookupField(v.fields, name) else None
  }

  function LookupField(fs: seq<Entry<Json>>, name: Text): Option<Json> {
    if |fs| == 0 then None
    else if fs[0].key == name then Some(fs[0].value)
    else LookupField(fs[1..], name)
  }

  function Inner(payload: Json, sig: Text): Json {
    Obj([Entry(Ascii("payload"), payload), Entry(Ascii("sig"), Str(sig))])
  }

  function SealSign(s: Suite, payload: Json, signSecret: Text, recipientPublic: Text): Text {
    s.seal(Encode(Inner(payload, s.sign(signSecret, Encode(payload)))), recipientPublic)
  }

  function OpenVerify(s: Suite, blob: Text, recipientSecret: Text, verifyKeyFor: Text -> Option<Text>)
    : Result<Json, VerificationError>
  {
    match s.unseal(blob, recipientSecret)
    case None => Err(CannotDecrypt)
    case Some(bytes) =>
      match Parse(bytes)
      case None => Err(Malformed)
      case Some(obj) => CheckInner(s, Lookup(obj, Ascii("payload")), Lookup(obj, Ascii("sig")), verifyKeyFor)
  }

  function CheckInner(s: Suite, payload: Option<Json>, sig: Option<Json>, verifyKeyFor: Text -> Option<Text>)
    : Result<Json, VerificationError>
  {
    if payload.None? || sig.None? || !sig.value.Str? || !s.isBase64(sig.value.s) then Err(Malformed)
    else
      var node := Lookup(payload.value, Ascii("node"));
      if node.None? || !node.value.Str? then Err(Malformed)
      else if verifyKeyFor(node.value.s).None? then Err(UnknownNode)
      else if !s.verify(sig.value.s, Encode(payload.value), verifyKeyFor(node.value.s).value) then Err(BadSignature)
      else Ok(payload.value)
  }

  lemma {:induction false} LookupInSorted(fs: seq<Entry<Json>>, i: nat)
    requires DistinctKeys(fs) && i < |fs|
    ensures LookupField(fs, fs[i].key) == Some(fs[i].value)
  {
    if i > 0 {
      assert fs[1..][i - 1] == fs[i];
      LookupInSorted(fs[1..], i - 1);
    }
  }

  /** Reading a property of the parsed object gives the parsed property. */
  lemma LookupNormal(fields: seq<Entry<Json>>, i: nat)
    requires DistinctKeys(fields) && i < |fields|
    ensures Lookup(Normal(Obj(fields)), fields[i].key) == Some(Normal(fields[i].value))
  {
    var nf := NormalFields(fields);
    var s := SortByKey(nf);
    SortMembers(nf);
    SortAscending(nf);
    AscendingDistinct(s);
    assert nf[i] in nf;
    var j :| 0 <= j < |s| && s[j] == nf[i];
    LookupInSorted(s, j);
  }

  lemma KeysApart()
    ensures Ascii("payload") != Ascii("sig")
  {
    assert |Ascii("payload")| == 7 && |Ascii("sig")| == 3;
  }

  lemma LookupInner(payload: Json, sig: Text)
    ensures Lookup(Normal(Inner(payload, sig)), Ascii("payload")) == Some(Normal(payload))
    ensures Lookup(Normal(Inner(payload, sig)), Ascii("sig")) == Some(Str(sig))
  {
    hide *;
    KeysApart();
    InnerLookups(payload, sig);
  }

  lemma InnerLookups(payload: Json, sig: Text)
    requires Ascii("payload") != Ascii("sig")
    ensures Lookup(Normal(Inner(payload, sig)), Ascii("payload")) == Some(Normal(payload))
    ensures Lookup(Normal(Inner(payload, sig)), Ascii("sig")) == Some(Str(sig))
  {
    var fs := Inner(payload, sig).fields;
    LookupNormal(fs, 0);
    LookupNormal(fs, 1);
  }

  /** The recipient of a sealed payload re-derives exactly the bytes the sender signed:
      it accepts if and only if it trusts, under the payload's `node`, a key that verifies
      the sender's signature on those bytes, and then it holds the sender's payload. */
  lemma OpenVerifySealSign(s: Suite, fields: seq<Entry<Json>>, node: nat, signSecret: Text,
                           recipientSecret: Text, verifyKeyFor: Text -> Option<Text>)
    requires Sound(s) && Valid(Obj(fields))
    requires node < |fields| && fields[node].key == Ascii("node") && fields[node].value.Str?
    ensures var payload := Obj(fields);
            var key := verifyKeyFor(fields[node].value.s);
            OpenVerify(s, SealSign(s, payload, signSecret, s.boxPublic(recipientSecret)), recipientSecret, verifyKeyFor) ==
            if key.None? then Err(UnknownNode)
            else if s.verify(s.sign(signSecret, Encode(payload)), Encode(payload), key.value) then Ok(Normal(payload))
            else Err(BadSignature)
  {
    hide Parse;
    hide Encode;
    hide Normal;
    hide Lookup;
    var payload := Obj(fields);
    var sig := s.sign(signSecret, Encode(payload));
    var inner := Inner(payload, sig);
    KeysApart();
    RoundTrip(inner);
    LookupInner(payload, sig);
    LookupNormal(fields, node);
    assert Normal(fields[node].value) == fields[node].value by { NormalStr(fields[node].value.s); }
    EncodeNormal(payload);
    var bytes := Encode(inner);
    assert s.unseal(s.seal(bytes, s.boxPublic(recipientSecret)), recipientSecret) == Some(bytes);
    assert Lookup(Normal(payload), Ascii("node")) == Some(fields[node].value);
    assert s.isBase64(sig);
  }

  lemma NormalStr(t: Text)
    ensures Normal(Str(t)) == Str(t)
  {}

  /** In particular a trusted sender's payload arrives, unchanged up to field order. */
  lemma TrustedPayloadArrives(s: Suite, fields: seq<Entry<Json>>, node: nat, signSecret: Text,
                              recipientSecret: Text, verifyKeyFor: Text -> Option<Text>)
    requires Sound(s) && Valid(Obj(fields))
    requires node < |fields| && fields[node].key == Ascii("node") && fields[node].value.Str?
    requires verifyKeyFor(fields[node].value.s) == Some(s.signPublic(signSecret))
    ensures var r := OpenVerify(s, SealSign(s, Obj(fields), signSecret, s.boxPublic(recipientSecret)), recipientSecret, verifyKeyFor);
            r.Ok? && Same(Obj(fields), r.value)
  {
    hide OpenVerify;
    hide SealSign;
    hide Encode;
    hide Normal;
    hide Same;
    OpenVerifySealSign(s, fields, node, signSecret, recipientSecret, verifyKeyFor);
    RoundTrip(Obj(fields));
  }
}
