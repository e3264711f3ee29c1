/** Packed invite codes and the short fingerprint of a key (island/src/core/friendcode.ts).
    Keys, nonce and signature are their bytes; label and address their UTF-8 bytes. */
module FriendCode {
  import opened Wrappers
  import opened Bytes

  /** What a Date can hold, in milliseconds. */
  const MAX_TIME: int := 8_640_000_000_000_000
  type Time = t: int | -MAX_TIME <= t <= MAX_TIME

  datatype Invite = Invite(
    ed25519: seq<Byte>, x25519: seq<Byte>, nonce: seq<Byte>, issued: Time, expires: Time, sig: seq<Byte>,
    text: seq<Byte>, wg0: seq<Byte>)

  datatype CodeError = TooLong | OutOfRange | UnsupportedVersion

  const VERSION: Byte := 1
  const TWO_64: int := 0x1_0000_0000_0000_0000

  // ---- packing ----

  /** A copy into a fixed-size buffer; it throws when the source does not fit. */
  function Put(buf: Result<seq<Byte>, CodeError>, src: seq<Byte>, o: nat): (r: Result<seq<Byte>, CodeError>)
    ensures r.Ok? ==> buf.Ok? && |r.value| == |buf.value|
  {
    if buf.Err? then buf
    else if o + |src| > |buf.value| then Err(OutOfRange)
    else Ok(buf.value[..o] + src + buf.value[o + |src|..])
  }

  /** A signed time as the 64-bit word that is stored. */
  function Word(t: Time): (n: nat)
    ensures n < Octets.Pow(8)
  {
    t % TWO_64
  }

  function WordBytes(t: Time): (r: seq<Byte>)
    ensures |r| == 8
  {
    Octets.DigitsProper(Word(t), 8);
    var ds := Octets.Digits(Word(t), 8);
    seq(8, i requires 0 <= i < 8 => ds[i])
  }

  function Zeros(n: nat): (r: seq<Byte>)
    ensures |r| == n
  {
    seq(n, _ => 0)
  }

  function Pack(t: Invite): Result<seq<Byte>, CodeError> {
    if |t.text| > 255 || |t.wg0| > 255 then Err(TooLong)
    else
      var b := Ok(Zeros(163 + |t.text| + |t.wg0|));
      var b := Put(b, [VERSION], 0);
      var b := Put(b, t.ed25519, 1);
      var b := Put(b, t.x25519, 33);
      var b := Put(b, t.nonce, 65);
      var b := Put(b, WordBytes(t.issued), 81);
      var b := Put(b, WordBytes(t.expires), 89);
      var b := Put(b, t.sig, 97);
      var b := Put(b, [|t.text|], 161);
      var b := Put(b, t.text, 162);
      var b := Put(b, [|t.wg0|], 162 + |t.text|);
      Put(b, t.wg0, 163 + |t.text|)
  }

  // ---- unpacking ----

  /** A slice whose ends are clamped to the buffer. */
  function Sub(b: seq<Byte>, from: nat, to: nat): seq<Byte> {
    var hi := if to > |b| then |b| else to;
    if from >= hi then [] else b[from..hi]
  }

  function WordAt(b: seq<Byte>, o: nat): nat
    requires o + 8 <= |b|
  {
    Octets.Value(b[o..o + 8])
  }

  /** The decoder drops a leading byte order mark. */
  function TextOf(b: seq<Byte>): seq<Byte> {
    if |b| >= 3 && b[0] == 0xEF && b[1] == 0xBB && b[2] == 0xBF then b[3..] else b
  }

  predicate Marked(b: seq<Byte>) {
    TextOf(b) != b
  }

  /** A length byte and what it announces; a missing length byte announces nothing. */
  function Field(b: seq<Byte>, o: nat): seq<Byte> {
    if o < |b| then Sub(b, o + 1, o + 1 + b[o]) else []
  }

  function Unpack(b: seq<Byte>): Result<Invite, CodeError> {
    if |b| == 0 || b[0] != VERSION then Err(UnsupportedVersion)
    else if |b| < 97 then Err(OutOfRange)
    else
      var issued, expires := WordAt(b, 81), WordAt(b, 89);
      var text := Field(b, 161);
      var wg0 := if |b| > 161 then (var n: nat := b[161]; Field(b, 162 + n)) else [];
      if issued > MAX_TIME || expires > MAX_TIME then Err(OutOfRange)
      else Ok(Invite(Sub(b, 1, 33), Sub(b, 33, 65), Sub(b, 65, 81), issued, expires, Sub(b, 97, 161), TextOf(text), TextOf(wg0)))
  }

  // ---- the code, at a moving offset ----

  method CopyIn(buf: array<Byte>, src: seq<Byte>, o: nat) returns (ok: bool)
    modifies buf
    ensures ok <==> o + |src| <= buf.Length
    ensures Put(Ok(old(buf[..])), src, o) == if ok then Ok(buf[..]) else Err(OutOfRange)
    ensures !ok ==> buf[..] == old(buf[..])
  {
    if o + |src| > buf.Length { return false; }
    for i := 0 to |src|
      invariant forall j :: 0 <= j < buf.Length ==> buf[j] == if o <= j < o + i then src[j - o] else old(buf[j])
    {
      buf[o + i] := src[i];
    }
    assert buf[..] == old(buf[..])[..o] + src + old(buf[..])[o + |src|..];
    ok := true;
  }

  method Store(buf: array<Byte>, x: Byte, o: nat)
    requires o < buf.Length
    modifies buf
    ensures Put(Ok(old(buf[..])), [x], o) == Ok(buf[..])
  {
    buf[o] := x;
    assert buf[..] == old(buf[..o]) + [x] + old(buf[o + 1..]);
  }

  lemma PutErr()
    ensures forall src, o :: Put(Err(OutOfRange), src, o) == Err(OutOfRange)
  {}

  method Encode(t: Invite) returns (r: Result<seq<Byte>, CodeError>)
    ensures r == Pack(t)
  {
    hide Put, WordBytes;
    if |t.text| > 255 || |t.wg0| > 255 { return Err(TooLong); }
    var buf := new Byte[1 + 32 + 32 + 16 + 8 + 8 + 64 + 1 + |t.text| + 1 + |t.wg0|](_ => 0);
    assert buf[..] == Zeros(163 + |t.text| + |t.wg0|);
    PutErr();
    var o, ok := 0, true;
    Store(buf, VERSION, o);
    o := o + 1;
    ok := CopyIn(buf, t.ed25519, o);
    if !ok { return Err(OutOfRange); }
    o := o + 32;
    ok := CopyIn(buf, t.x25519, o);
    if !ok { return Err(OutOfRange); }
    o := o + 32;
    ok := CopyIn(buf, t.nonce, o);
    if !ok { return Err(OutOfRange); }
    o := o + 16;
    ok := CopyIn(buf, WordBytes(t.issued), o);
    o := o + 8;
    ok := CopyIn(buf, WordBytes(t.expires), o);
    o := o + 8;
    ok := CopyIn(buf, t.sig, o);
    if !ok { return Err(OutOfRange); }
    o := o + 64;
    Store(buf, |t.text|, o);
    o := o + 1;
    ok := CopyIn(buf, t.text, o);
    o := o + |t.text|;
    Store(buf, |t.wg0|, o);
    o := o + 1;
    ok := CopyIn(buf, t.wg0, o);
    r := Ok(buf[..]);
  }

  /** The offset after a read by length byte: undefined once a length byte was missing. */
  method ReadField(b: seq<Byte>, at: Option<nat>) returns (field: seq<Byte>, o: Option<nat>)
    ensures field == if at.Some? then Field(b, at.value) else []
    ensures o == if at.Some? && at.value < |b| then (var n: nat := b[at.value]; Some(at.value + 1 + n)) else None
  {
    if at.None? || at.value >= |b| { return [], None; }
    var n: nat := b[at.value];
    field := Sub(b, at.value + 1, at.value + 1 + n);
    o := Some(at.value + 1 + n);
  }

  method Decode(b: seq<Byte>) returns (r: Result<Invite, CodeError>)
    ensures r == Unpack(b)
  {
    hide Field, TextOf, Sub, WordAt;
    var o := 0;
    if o >= |b| || b[o] != VERSION { return Err(UnsupportedVersion); }
    o := o + 1;
    var ed := Sub(b, o, o + 32);
    o := o + 32;
    var x := Sub(b, o, o + 32);
    o := o + 32;
    var nonce := Sub(b, o, o + 16);
    o := o + 16;
    if o + 8 > |b| { return Err(OutOfRange); }
    var issued := WordAt(b, o);
    o := o + 8;
    if o + 8 > |b| { return Err(OutOfRange); }
    var expires := WordAt(b, o);
    o := o + 8;
    var sig := Sub(b, o, o + 64);
    o := o + 64;
    var text, at := ReadField(b, Some(o));
    var wg0, _ := ReadField(b, at);
    if issued > MAX_TIME || expires > MAX_TIME { return Err(OutOfRange); }
    r := Ok(Invite(ed, x, nonce, issued, expires, sig, TextOf(text), TextOf(wg0)));
  }

  // ---- the fingerprint ----

  const ALPHABET := "0123456789ABCDEFGHJKMNPQRSTVWXYZ"

  /** The first fifty bits of a hash. */
  function TopBits(hash: seq<Byte>): nat
    requires |hash| >= 7
  {
    Octets.Value(hash[..7]) / 64
  }

  function Symbols(n: nat): (r: string)
    ensures |r| == 10
  {
    Quintets.DigitsProper(n, 10);
    var ds := Quintets.Digits(n, 10);
    seq(10, i requires 0 <= i < 10 => ALPHABET[ds[i]])
  }

  function CodeOf(symbols: string): string
    requires |symbols| == 10
  {
    "ISL-" + symbols[..5] + "-" + symbols[5..]
  }

  method Fingerprint(hash: seq<Byte>) returns (code: string)
    requires |hash| == 32
    ensures code == CodeOf(Symbols(TopBits(hash)))
  {
    var acc: nat := 0;
    for i := 0 to 7
      invariant acc == Octets.Value(hash[..i])
    {
      assert hash[..i + 1][..i] == hash[..i];
      acc := acc * 256 + hash[i];
    }
    acc := acc / 64;
    var out := "";
    for i := 10 downto 0
      invariant |out| == 10 - i && out == Symbols(acc)[..10 - i]
    {
      Quintets.DigitOfShift(acc, 10, i);
      out := out + [ALPHABET[Quintets.Mod(Quintets.Shift(acc, i))]];
    }
    code := "ISL-" + out[..5] + "-" + out[5..];
  }
}
