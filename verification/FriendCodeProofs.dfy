/** Round trips of invite codes, and what a fingerprint commits to. */
module FriendCodeProofs {
  import opened Wrappers
  import opened Bytes
  import opened FriendCode

  // ---- the layout ----

  predicate FixedSizes(t: Invite) {
    |t.ed25519| == 32 && |t.x25519| == 32 && |t.nonce| == 16 && |t.sig| == 64 && |t.text| <= 255 && |t.wg0| <= 255
  }

  /** Version, keys, nonce, times, signature: the first 161 bytes. */
  function Head(t: Invite): seq<Byte> {
    [VERSION] + t.ed25519 + t.x25519 + t.nonce + WordBytes(t.issued) + WordBytes(t.expires) + t.sig
  }

  function Tail(text: seq<Byte>, wg0: seq<Byte>): seq<Byte>
    requires |text| <= 255 && |wg0| <= 255
  {
    [|text|] + text + [|wg0|] + wg0
  }

  lemma PutNext(done: seq<Byte>, src: seq<Byte>, n: nat)
    requires |src| <= n
    ensures Put(Ok(done + Zeros(n)), src, |done|) == Ok(done + src + Zeros(n - |src|))
  {
    var b := done + Zeros(n);
    assert b[..|done|] == done && b[|done| + |src|..] == Zeros(n - |src|);
  }

  lemma PackHead(t: Invite, n: nat)
    requires FixedSizes(t)
    ensures var b := Put(Put(Put(Put(Ok(Zeros(161 + n)), [VERSION], 0), t.ed25519, 1), t.x25519, 33), t.nonce, 65);
            Put(Put(Put(b, WordBytes(t.issued), 81), WordBytes(t.expires), 89), t.sig, 97) == Ok(Head(t) + Zeros(n))
  {
    hide Put, WordBytes, Zeros;
    var d0: seq<Byte> := [];
    var d1 := [VERSION];
    var d2 := d1 + t.ed25519;
    var d3 := d2 + t.x25519;
    var d4 := d3 + t.nonce;
    var d5 := d4 + WordBytes(t.issued);
    var d6 := d5 + WordBytes(t.expires);
    assert d0 + Zeros(161 + n) == Zeros(161 + n);
    PutNext(d0, [VERSION], 161 + n);
    assert d0 + [VERSION] == d1;
    PutNext(d1, t.ed25519, 160 + n);
    PutNext(d2, t.x25519, 128 + n);
    PutNext(d3, t.nonce, 96 + n);
    PutNext(d4, WordBytes(t.issued), 80 + n);
    PutNext(d5, WordBytes(t.expires), 72 + n);
    PutNext(d6, t.sig, 64 + n);
  }

  lemma PackTail(head: seq<Byte>, text: seq<Byte>, wg0: seq<Byte>)
    requires |head| == 161 && |text| <= 255 && |wg0| <= 255
    ensures var b := Put(Put(Ok(head + Zeros(2 + |text| + |wg0|)), [|text|], 161), text, 162);
            Put(Put(b, [|wg0|], 162 + |text|), wg0, 163 + |text|) == Ok(head + Tail(text, wg0))
  {
    hide Put, Zeros;
    var d1 := head + [|text|];
    var d2 := d1 + text;
    var d3 := d2 + [|wg0|];
    PutNext(head, [|text|], 2 + |text| + |wg0|);
    PutNext(d1, text, 1 + |text| + |wg0|);
    PutNext(d2, [|wg0|], 1 + |wg0|);
    PutNext(d3, wg0, |wg0|);
    assert d3 + wg0 + Zeros(0) == head + Tail(text, wg0);
  }

  /** With the fixed key sizes the writes land side by side. */
  lemma PackLayout(t: Invite)
    requires FixedSizes(t)
    ensures |Head(t)| == 161 && Pack(t) == Ok(Head(t) + Tail(t.text, t.wg0))
  {
    hide Put, Zeros, WordBytes;
    PackHead(t, 2 + |t.text| + |t.wg0|);
    PackTail(Head(t), t.text, t.wg0);
  }

  /** The first `n` bytes as one number, the first the most significant. */
  function BigEndian(b: seq<nat>, n: nat): nat
    requires n <= |b|
  {
    if n == 0 then 0 else BigEndian(b, n - 1) * 256 + b[n - 1]
  }

  // ---- reading the layout ----

  lemma HeadSlices(t: Invite, rest: seq<Byte>)
    requires FixedSizes(t)
    ensures var b := Head(t) + rest;
            && |Head(t)| == 161 && b[0] == VERSION
            && b[1..33] == t.ed25519 && b[33..65] == t.x25519 && b[65..81] == t.nonce
            && b[81..89] == WordBytes(t.issued) && b[89..97] == WordBytes(t.expires) && b[97..161] == t.sig
  {
    hide WordBytes;
  }

  lemma TailFields(head: seq<Byte>, text: seq<Byte>, wg0: seq<Byte>)
    requires |head| == 161 && |text| <= 255 && |wg0| <= 255
    ensures var b := head + Tail(text, wg0);
            b[161] == |text| && Field(b, 161) == text && Field(b, 162 + |text|) == wg0
  {
    var b := head + Tail(text, wg0);
    assert b[161] == Tail(text, wg0)[0] == |text|;
    assert b[162..162 + |text|] == text;
    assert b[162 + |text|] == |wg0|;
    assert b[163 + |text|..163 + |text| + |wg0|] == wg0;
  }

  lemma WordRead(t: Time)
    ensures Octets.Value(WordBytes(t)) == Word(t)
  {
    Octets.ValueOfDigits(Word(t), 8);
    Octets.DigitsProper(Word(t), 8);
    assert WordBytes(t) == Octets.Digits(Word(t), 8);
  }

  lemma {:induction false} BigEndianValue(b: seq<nat>, n: nat)
    requires n <= |b|
    ensures Octets.Value(b[..n]) == BigEndian(b, n)
  {
    if n > 0 {
      assert b[..n][..n - 1] == b[..n - 1];
      BigEndianValue(b, n - 1);
    }
  }

  lemma BigEndianWord(b: seq<Byte>)
    requires |b| == 8
    ensures BigEndian(b, 8) == Octets.Value(b)
  {
    BigEndianValue(b, 8);
    assert b[..8] == b;
  }

  /** Where each field of an encoded token stands, the two times as big-endian words. */
  lemma PackedFields(t: Invite)
    requires FixedSizes(t)
    ensures Pack(t).Ok? && |Pack(t).value| == 163 + |t.text| + |t.wg0|
    ensures var b := Pack(t).value;
            && b[0] == 1 && b[1..33] == t.ed25519 && b[33..65] == t.x25519 && b[65..81] == t.nonce && b[97..161] == t.sig
            && BigEndian(b[81..89], 8) == (if t.issued >= 0 then t.issued else t.issued + 0x1_0000_0000_0000_0000)
            && BigEndian(b[89..97], 8) == (if t.expires >= 0 then t.expires else t.expires + 0x1_0000_0000_0000_0000)
            && b[161] == |t.text| && b[162..162 + |t.text|] == t.text
            && b[162 + |t.text|] == |t.wg0| && b[163 + |t.text|..] == t.wg0
  {
    hide Put, Pack, WordBytes, Head, BigEndian;
    PackLayout(t);
    HeadSlices(t, Tail(t.text, t.wg0));
    WordRead(t.issued);
    WordRead(t.expires);
    BigEndianWord(WordBytes(t.issued));
    BigEndianWord(WordBytes(t.expires));
    var b, tail := Pack(t).value, Tail(t.text, t.wg0);
    assert b[161..] == tail;
    assert tail[1..1 + |t.text|] == t.text && tail[2 + |t.text|..] == t.wg0;
  }

  lemma WordSign(t: Time)
    ensures t >= 0 ==> Word(t) == t
    ensures t < 0 ==> Word(t) > MAX_TIME
  {}

  /** What the decoder makes of an encoded token of the fixed sizes. */
  lemma UnpackLayout(t: Invite)
    requires FixedSizes(t)
    ensures Unpack(Head(t) + Tail(t.text, t.wg0)) ==
            if t.issued < 0 || t.expires < 0 then Err(OutOfRange) else Ok(t.(text := TextOf(t.text), wg0 := TextOf(t.wg0)))
  {
    hide WordBytes, Field, TextOf, Head, Tail, Word;
    HeadSlices(t, Tail(t.text, t.wg0));
    TailFields(Head(t), t.text, t.wg0);
    TailSize(t.text, t.wg0);
    WordRead(t.issued);
    WordRead(t.expires);
    WordSign(t.issued);
    WordSign(t.expires);
  }

  lemma TailSize(text: seq<Byte>, wg0: seq<Byte>)
    requires |text| <= 255 && |wg0| <= 255
    ensures |Tail(text, wg0)| == 2 + |text| + |wg0|
  {}

  lemma PackSize(t: Invite)
    ensures Pack(t).Ok? ==> |t.text| <= 255 && |t.wg0| <= 255 && |Pack(t).value| == 163 + |t.text| + |t.wg0|
  {
    hide Put, WordBytes;
  }

  lemma UnpackSizes(b: seq<Byte>)
    requires |b| >= 161 && Unpack(b).Ok?
    ensures var t := Unpack(b).value;
            && |t.ed25519| == 32 && |t.x25519| == 32 && |t.nonce| == 16 && |t.sig| == 64
            && t.issued >= 0 && t.expires >= 0
  {
    hide Field, TextOf, WordAt;
  }

  /** Decoding an encoded token gives it back exactly when its keys, nonce and signature have
      the fixed sizes, its label and address fit a length byte and do not begin with a byte
      order mark, and neither time lies before 1970. */
  lemma RoundTripIff(t: Invite)
    ensures (Pack(t).Ok? && Unpack(Pack(t).value) == Ok(t)) <==>
            FixedSizes(t) && t.issued >= 0 && t.expires >= 0 && !Marked(t.text) && !Marked(t.wg0)
  {
    hide Head, Tail, Unpack, Pack, TextOf;
    PackSize(t);
    if Pack(t).Ok? && Unpack(Pack(t).value) == Ok(t) {
      UnpackSizes(Pack(t).value);
    }
    if FixedSizes(t) {
      PackLayout(t);
      UnpackLayout(t);
    }
  }

  // ---- encoding what was decoded ----

  /** Where a packed code ends, when both length bytes and all they announce are there. */
  function End(b: seq<Byte>): Option<nat> {
    if |b| <= 161 then None
    else
      var n: nat := b[161];
      if |b| <= 162 + n then None
      else
        var m: nat := b[162 + n];
        if |b| < 163 + n + m then None else Some(163 + n + m)
  }

  lemma WordBack(b: seq<Byte>, o: nat, t: Time)
    requires o + 8 <= |b| && t == WordAt(b, o)
    ensures WordBytes(t) == b[o..o + 8]
  {
    var ds: seq<nat> := b[o..o + 8];
    Octets.DigitsOfValue(ds);
    WordSign(t);
    Octets.DigitsProper(Word(t), 8);
    assert WordBytes(t) == Octets.Digits(Word(t), 8);
  }

  lemma HeadBack(b: seq<Byte>, t: Invite)
    requires |b| >= 161 && b[0] == VERSION && FixedSizes(t)
    requires t.ed25519 == b[1..33] && t.x25519 == b[33..65] && t.nonce == b[65..81] && t.sig == b[97..161]
    requires WordBytes(t.issued) == b[81..89] && WordBytes(t.expires) == b[89..97]
    ensures Head(t) == b[..161]
  {
    hide WordBytes;
    assert b[..161] == [b[0]] + b[1..33] + b[33..65] + b[65..81] + b[81..89] + b[89..97] + b[97..161];
  }

  lemma WholeField(b: seq<Byte>, o: nat)
    requires o < |b| && (var n: nat := b[o]; o + 1 + n <= |b|)
    ensures var n: nat := b[o]; Field(b, o) == b[o + 1..o + 1 + n]
  {}

  lemma TailBack(b: seq<Byte>)
    requires End(b).Some?
    ensures var n: nat := b[161];
            && |Field(b, 161)| == n <= 255 && |Field(b, 162 + n)| == End(b).value - 163 - n <= 255
            && Tail(Field(b, 161), Field(b, 162 + n)) == b[161..End(b).value]
  {
    hide Field;
    var n: nat := b[161];
    var m: nat := b[162 + n];
    WholeField(b, 161);
    WholeField(b, 162 + n);
    assert b[161..163 + n + m] == [b[161]] + b[162..162 + n] + [b[162 + n]] + b[163 + n..163 + n + m];
  }

  /** A complete code that decodes is what encoding its token gives, up to bytes after its
      end, exactly when neither text in it begins with a byte order mark. */
  lemma DecodeThenEncode(b: seq<Byte>)
    requires Unpack(b).Ok? && End(b).Some?
    ensures var n: nat := b[161];
            Pack(Unpack(b).value) == Ok(b[..End(b).value]) <==> !Marked(Field(b, 161)) && !Marked(Field(b, 162 + n))
  {
    hide Head, Tail, Pack, Field, Put, WordBytes, WordAt;
    var t, n: nat, end := Unpack(b).value, b[161], End(b).value;
    TailBack(b);
    WordBack(b, 81, t.issued);
    WordBack(b, 89, t.expires);
    HeadBack(b, t);
    PackLayout(t);
    TailSize(t.text, t.wg0);
    assert b[..end] == b[..161] + b[161..end];
  }

  /** As much of `b` as stands between two offsets. */
  function Cut(b: seq<Byte>, from: nat, to: nat): seq<Byte>
    requires from <= to
  {
    if |b| <= from then [] else if |b| <= to then b[from..] else b[from..to]
  }

  lemma SubIsCut(b: seq<Byte>, from: nat, to: nat)
    requires from <= to
    ensures Sub(b, from, to) == Cut(b, from, to)
  {}

  lemma FieldIsCut(b: seq<Byte>, o: nat)
    ensures o >= |b| ==> Field(b, o) == []
    ensures o < |b| ==> (var n: nat := b[o]; Field(b, o) == Cut(b, o + 1, o + 1 + n))
  {
    hide Sub, Cut;
    if o < |b| {
      var n: nat := b[o];
      SubIsCut(b, o + 1, o + 1 + n);
    }
  }

  lemma WordsAt(b: seq<Byte>)
    requires |b| >= 97
    ensures WordAt(b, 81) == BigEndian(b[81..89], 8) && WordAt(b, 89) == BigEndian(b[89..97], 8)
  {
    hide BigEndian;
    BigEndianWord(b[81..89]);
    BigEndianWord(b[89..97]);
  }

  /** Which bytes decode at all, and what comes of a code that was cut short: the bytes left
      for the field it was cut in, and nothing for those after it. */
  lemma DecodesIff(b: seq<Byte>)
    ensures Unpack(b) == Err(UnsupportedVersion) <==> |b| == 0 || b[0] != 1
    ensures Unpack(b).Ok? <==>
            && |b| >= 97 && b[0] == 1
            && BigEndian(b[81..89], 8) <= 8_640_000_000_000_000 && BigEndian(b[89..97], 8) <= 8_640_000_000_000_000
    ensures Unpack(b).Ok? ==>
              var t := Unpack(b).value;
              && t.ed25519 == b[1..33] && t.x25519 == b[33..65] && t.nonce == b[65..81] && t.sig == Cut(b, 97, 161)
              && t.issued == BigEndian(b[81..89], 8) && t.expires == BigEndian(b[89..97], 8)
              && (|b| <= 161 ==> t.text == [] && t.wg0 == [])
              && (|b| > 161 ==>
                    var n: nat := b[161];
                    && t.text == TextOf(Cut(b, 162, 162 + n))
                    && (|b| <= 162 + n ==> t.wg0 == [])
                    && (|b| > 162 + n ==> var m: nat := b[162 + n]; t.wg0 == TextOf(Cut(b, 163 + n, 163 + n + m))))
  {
    hide BigEndian, WordAt, Field, Sub, Cut, TextOf;
    if |b| >= 97 {
      WordsAt(b);
      WholeHead(b);
      SubIsCut(b, 97, 161);
      FieldIsCut(b, 161);
      NoMark();
      if |b| > 161 {
        var n: nat := b[161];
        FieldIsCut(b, 162 + n);
      }
    }
  }

  lemma WholeHead(b: seq<Byte>)
    requires |b| >= 97
    ensures Sub(b, 1, 33) == b[1..33] && Sub(b, 33, 65) == b[33..65] && Sub(b, 65, 81) == b[65..81]
  {}

  lemma NoMark()
    ensures TextOf([]) == []
  {}

  // ---- the fingerprint ----

  /** The alphabet ascends, so no symbol occurs twice. */
  lemma {:induction false} AlphabetAscends(i: nat, j: nat)
    requires i < j < 32
    ensures ALPHABET[i] < ALPHABET[j]
  {
    if i + 1 < j { AlphabetAscends(i, j - 1); }
  }

  function SymbolAt(c: char, i: nat): nat
    requires i <= 32
    decreases 32 - i
  {
    if i == 32 || ALPHABET[i] == c then i else SymbolAt(c, i + 1)
  }

  lemma {:induction false} SymbolFound(d: nat, i: nat)
    requires i <= d < 32
    ensures SymbolAt(ALPHABET[d], i) == d
    decreases d - i
  {
    if i < d {
      AlphabetAscends(i, d);
      SymbolFound(d, i + 1);
    }
  }

  /** The number a code spells, read symbol by symbol. */
  function Spelled(symbols: string): nat {
    Quintets.Value(seq(|symbols|, i requires 0 <= i < |symbols| => SymbolAt(symbols[i], 0)))
  }

  function SymbolsIn(code: string): string
    requires |code| == 15
  {
    code[4..9] + code[10..]
  }

  lemma SpelledBack(n: nat)
    requires n < Quintets.Pow(10)
    ensures Spelled(Symbols(n)) == n
  {
    var ds := Quintets.Digits(n, 10);
    Quintets.DigitsProper(n, 10);
    Quintets.ValueOfDigits(n, 10);
    var out := Symbols(n);
    var back := seq(|out|, i requires 0 <= i < |out| => SymbolAt(out[i], 0));
    forall i | 0 <= i < 10 ensures back[i] == ds[i] {
      SymbolFound(ds[i], 0);
    }
    assert back == ds;
  }

  lemma TopBitsFit(hash: seq<Byte>)
    requires |hash| >= 7
    ensures TopBits(hash) < Quintets.Pow(10)
  {
    Octets.ValueBound(hash[..7]);
    assert Octets.Pow(7) == 0x100_0000_0000_0000 by {
      assert Octets.Pow(3) == 0x100_0000;
      assert Octets.Pow(5) == 0x100_0000_0000;
    }
    assert Quintets.Pow(10) == 0x4_0000_0000_0000 by {
      assert Quintets.Pow(4) == 0x10_0000;
      assert Quintets.Pow(7) == 0x8_0000_0000;
    }
  }

  /** The first fifty bits of a hash: six bytes and the top two bits of the seventh. */
  function FirstFifty(hash: seq<Byte>): int
    requires |hash| >= 7
  {
    BigEndian(hash, 6) * 4 + hash[6] / 64
  }

  lemma TopBitsAreFifty(hash: seq<Byte>)
    requires |hash| >= 7
    ensures TopBits(hash) == FirstFifty(hash)
  {
    BigEndianValue(hash, 7);
    assert BigEndian(hash, 7) == BigEndian(hash, 6) * 256 + hash[6];
  }

  /** A digit or a capital letter other than I, L, O and U. */
  predicate IsSymbol(c: char) {
    ('0' <= c <= '9' || 'A' <= c <= 'Z') && c != 'I' && c != 'L' && c != 'O' && c != 'U'
  }

  lemma SymbolsAreClear(n: nat)
    ensures forall i :: 0 <= i < 10 ==> IsSymbol(Symbols(n)[i])
  {
    Quintets.DigitsProper(n, 10);
    forall i | 0 <= i < 10 ensures IsSymbol(Symbols(n)[i]) {
      ClearAt(Quintets.Digits(n, 10)[i]);
    }
  }

  lemma ClearAt(d: nat)
    requires d < 32
    ensures IsSymbol(ALPHABET[d])
  {}

  /** A code reads `ISL-`, five symbols, a dash and five symbols. */
  lemma FingerprintForm(hash: seq<Byte>)
    requires |hash| == 32
    ensures var code := CodeOf(Symbols(TopBits(hash)));
            && |code| == 15 && code[..4] == "ISL-" && code[9] == '-'
            && forall i :: 4 <= i < 15 && i != 9 ==> IsSymbol(code[i])
  {
    hide Symbols, TopBits, IsSymbol;
    SymbolsAreClear(TopBits(hash));
  }

  /** Read as a number, symbol by symbol, a code is exactly the first fifty bits of the hash. */
  lemma FingerprintSpellsTopBits(hash: seq<Byte>)
    requires |hash| == 32
    ensures Spelled(SymbolsIn(CodeOf(Symbols(TopBits(hash))))) == FirstFifty(hash)
  {
    hide Symbols, TopBits, Spelled, FirstFifty, SymbolsIn, CodeOf;
    TopBitsFit(hash);
    SpelledBack(TopBits(hash));
    SymbolsOfCode(Symbols(TopBits(hash)));
    TopBitsAreFifty(hash);
  }

  lemma SymbolsOfCode(symbols: string)
    requires |symbols| == 10
    ensures |CodeOf(symbols)| == 15 && SymbolsIn(CodeOf(symbols)) == symbols
  {
    assert symbols[..5] + symbols[5..] == symbols;
  }

  lemma {:induction false} SameBytes(a: seq<Byte>, b: seq<Byte>, n: nat)
    requires n <= |a| && n <= |b|
    ensures BigEndian(a, n) == BigEndian(b, n) <==> a[..n] == b[..n]
  {
    if n > 0 {
      SameBytes(a, b, n - 1);
      assert a[..n] == a[..n - 1] + [a[n - 1]] && b[..n] == b[..n - 1] + [b[n - 1]];
    }
  }

  lemma FiftySame(a: seq<Byte>, b: seq<Byte>)
    requires |a| == 32 && |b| == 32
    ensures FirstFifty(a) == FirstFifty(b) <==> a[..6] == b[..6] && a[6] / 64 == b[6] / 64
  {
    hide BigEndian;
    SameBytes(a, b, 6);
  }

  /** Two keys share a code exactly when their hashes share the first fifty bits. */
  lemma CodesEqualIffTopBits(a: seq<Byte>, b: seq<Byte>)
    requires |a| == 32 && |b| == 32
    ensures CodeOf(Symbols(TopBits(a))) == CodeOf(Symbols(TopBits(b))) <==> a[..6] == b[..6] && a[6] / 64 == b[6] / 64
  {
    hide Symbols, TopBits, Spelled, CodeOf, SymbolsIn, FirstFifty;
    TopBitsAreFifty(a);
    TopBitsAreFifty(b);
    FingerprintSpellsTopBits(a);
    FingerprintSpellsTopBits(b);
    FiftySame(a, b);
  }
}
