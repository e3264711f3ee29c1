/** Canonical JSON (island/src/core/canonical.ts): the text whose bytes are signed.
    Strings are sequences of 16-bit code units, as in JavaScript, and the printed text
    is one of them: it is pure ASCII, so its UTF-8 bytes are the same numbers. */
module Canonical {
  import opened Wrappers

  type CodeUnit = u: int | 0 <= u < 0x1_0000
  type Text = seq<CodeUnit>

  /** The integers a JavaScript number holds exactly. */
  const MAX_SAFE: int := 0x1F_FFFF_FFFF_FFFF
  type SafeInt = n: int | -MAX_SAFE <= n <= MAX_SAFE

  /** A JSON value. The fields of an object are in insertion order. */
  datatype Json =
    | Null
    | Bool(b: bool)
    | Num(n: SafeInt)
    | Str(s: Text)
    | Arr(items: seq<Json>)
    | Obj(fields: seq<Entry<Json>>)

  datatype Entry<T> = Entry(key: Text, value: T)

  const QUOTE: CodeUnit := 0x22
  const BACKSLASH: CodeUnit := 0x5c
  const COMMA: CodeUnit := 0x2c
  const COLON: CodeUnit := 0x3a
  const MINUS: CodeUnit := 0x2d
  const ZERO: CodeUnit := 0x30
  const LBRACKET: CodeUnit := 0x5b
  const RBRACKET: CodeUnit := 0x5d
  const LBRACE: CodeUnit := 0x7b
  const RBRACE: CodeUnit := 0x7d

  /** The code units of an ASCII literal. */
  function Ascii(s: string): (t: Text)
    requires forall i :: 0 <= i < |s| ==> s[i] as int < 128
    ensures |t| == |s| && forall i :: 0 <= i < |s| ==> t[i] == s[i] as int
  {
    seq(|s|, i requires 0 <= i < |s| => s[i] as int)
  }

  /** The names of an object, in order. */
  ghost predicate DistinctKeys<T>(ps: seq<Entry<T>>) {
    forall i, j :: 0 <= i < j < |ps| ==> ps[i].key != ps[j].key
  }

  /** What every JavaScript object guarantees: no property name twice, at any depth. */
  ghost predicate Valid(v: Json) {
    match v
    case Arr(items) => forall i :: 0 <= i < |items| ==> Valid(items[i])
    case Obj(fields) => DistinctKeys(fields) && forall i :: 0 <= i < |fields| ==> Valid(fields[i].value)
    case _ => true
  }

  // ---- key order: lexicographic by code unit, as Array.prototype.sort() ----

  predicate Less(a: Text, b: Text) {
    |b| > 0 && (|a| == 0 || a[0] < b[0] || (a[0] == b[0] && Less(a[1..], b[1..])))
  }

  function Insert<T>(p: Entry<T>, ps: seq<Entry<T>>): seq<Entry<T>> {
    if |ps| > 0 && Less(ps[0].key, p.key) then [ps[0]] + Insert(p, ps[1..]) else [p] + ps
  }

  function SortByKey<T>(ps: seq<Entry<T>>): seq<Entry<T>> {
    if |ps| == 0 then [] else Insert(ps[0], SortByKey(ps[1..]))
  }

  // ---- the printer ----

  /** Number.prototype.toString in base 16, lowercase. */
  function HexDigit(d: int): CodeUnit
    requires 0 <= d < 16
  {
    if d < 10 then ZERO + d else 0x61 + (d - 10)
  }

  function HexText(n: nat): Text {
    if n < 16 then [HexDigit(n)] else HexText(n / 16) + [HexDigit(n % 16)]
  }

  /** String.prototype.padStart(width, "0"). */
  function PadStart(t: Text, width: nat): Text
    decreases width - |t|
  {
    if |t| >= width then t else PadStart([ZERO] + t, width)
  }

  /** What one code unit of a string prints as. */
  function EscapeUnit(c: CodeUnit): Text {
    if c == 0x22 then [BACKSLASH, QUOTE]
    else if c == 0x5c then [BACKSLASH, BACKSLASH]
    else if c == 0x08 then [BACKSLASH, 0x62]
    else if c == 0x09 then [BACKSLASH, 0x74]
    else if c == 0x0a then [BACKSLASH, 0x6e]
    else if c == 0x0c then [BACKSLASH, 0x66]
    else if c == 0x0d then [BACKSLASH, 0x72]
    else if c < 0x20 || c >= 0x7f then [BACKSLASH, 0x75] + PadStart(HexText(c), 4)
    else [c]
  }

  function EscapeAll(s: Text): Text {
    if |s| == 0 then [] else EscapeUnit(s[0]) + EscapeAll(s[1..])
  }

  function StringText(s: Text): Text {
    [QUOTE] + EscapeAll(s) + [QUOTE]
  }

  /** The `switch` on one character code. */
  method EscapeCode(code: CodeUnit) returns (piece: Text)
    ensures piece == EscapeUnit(code)
  {
    piece := [code];
    if code == 0x22 {
      piece := [BACKSLASH, QUOTE];
    } else if code == 0x5c {
      piece := [BACKSLASH, BACKSLASH];
    } else if code == 0x08 {
      piece := [BACKSLASH, 0x62];
    } else if code == 0x09 {
      piece := [BACKSLASH, 0x74];
    } else if code == 0x0a {
      piece := [BACKSLASH, 0x6e];
    } else if code == 0x0c {
      piece := [BACKSLASH, 0x66];
    } else if code == 0x0d {
      piece := [BACKSLASH, 0x72];
    } else if code < 0x20 || code >= 0x7f {
      piece := [BACKSLASH, 0x75] + PadStart(HexText(code), 4);
    }
  }

  /** `encodeString`: the loop that appends to `out`. */
  method EncodeString(s: Text) returns (out: Text)
    ensures out == StringText(s)
  {
    out := [QUOTE];
    ghost var whole := EscapeAll(s);
    var i := 0;
    while i < |s|
      invariant 0 <= i <= |s|
      invariant out + EscapeAll(s[i..]) == [QUOTE] + whole
    {
      var piece := EscapeCode(s[i]);
      assert s[i..][1..] == s[i + 1..];
      assert EscapeAll(s[i..]) == piece + EscapeAll(s[i + 1..]);
      out := out + piece;
      i := i + 1;
    }
    out := out + [QUOTE];
  }

  function DecText(n: nat): Text {
    if n < 10 then [ZERO + n] else DecText(n / 10) + [ZERO + n % 10]
  }

  /** String(v) for an integer. */
  function IntText(n: SafeInt): Text {
    if n < 0 then [MINUS] + DecText(-n) else DecText(n)
  }

  /** Array.prototype.join(","). */
  function Join(parts: seq<Text>): Text {
    if |parts| == 0 then []
    else if |parts| == 1 then parts[0]
    else parts[0] + [COMMA] + Join(parts[1..])
  }

  function EncodeItems(vs: seq<Json>): (ts: seq<Text>)
    ensures |ts| == |vs| && forall i :: 0 <= i < |vs| ==> ts[i] == Encode(vs[i])
  {
    if |vs| == 0 then [] else [Encode(vs[0])] + EncodeItems(vs[1..])
  }

  function EncodeFields(fs: seq<Entry<Json>>): (es: seq<Entry<Text>>)
    ensures |es| == |fs| && forall i :: 0 <= i < |fs| ==> es[i] == Entry(fs[i].key, Encode(fs[i].value))
  {
    if |fs| == 0 then [] else [Entry(fs[0].key, Encode(fs[0].value))] + EncodeFields(fs[1..])
  }

  /** One printed member: the quoted name, a colon, the printed value. */
  function Members(es: seq<Entry<Text>>): (ts: seq<Text>)
    ensures |ts| == |es| && forall i :: 0 <= i < |es| ==> ts[i] == StringText(es[i].key) + [COLON] + es[i].value
  {
    if |es| == 0 then [] else [StringText(es[0].key) + [COLON] + es[0].value] + Members(es[1..])
  }

  /** `encode`. */
  function Encode(v: Json): Text {
    match v
    case Null => Ascii("null")
    case Bool(b) => if b then Ascii("true") else Ascii("false")
    case Num(n) => IntText(n)
    case Str(s) => StringText(s)
    case Arr(items) => [LBRACKET] + Join(EncodeItems(items)) + [RBRACKET]
    case Obj(fields) => [LBRACE] + Join(Members(SortByKey(EncodeFields(fields)))) + [RBRACE]
  }

  // ---- the value a text stands for, with the fields of every object in key order ----

  function NormalItems(vs: seq<Json>): (ns: seq<Json>)
    ensures |ns| == |vs| && forall i :: 0 <= i < |vs| ==> ns[i] == Normal(vs[i])
  {
    if |vs| == 0 then [] else [Normal(vs[0])] + NormalItems(vs[1..])
  }

  function NormalFields(fs: seq<Entry<Json>>): (ns: seq<Entry<Json>>)
    ensures |ns| == |fs| && forall i :: 0 <= i < |fs| ==> ns[i] == Entry(fs[i].key, Normal(fs[i].value))
  {
    if |fs| == 0 then [] else [Entry(fs[0].key, Normal(fs[0].value))] + NormalFields(fs[1..])
  }

  function Normal(v: Json): Json {
    match v
    case Arr(items) => Arr(NormalItems(items))
    case Obj(fields) => Obj(SortByKey(NormalFields(fields)))
    case _ => v
  }

  // ---- the parser: JSON.parse (RFC 8259) on integer numbers ----

  predicate IsSpace(c: CodeUnit) {
    c == 0x20 || c == 0x09 || c == 0x0a || c == 0x0d
  }

  function SkipSpace(t: Text): (r: Text)
    ensures |r| <= |t| && (|r| > 0 ==> !IsSpace(r[0]))
  {
    if |t| > 0 && IsSpace(t[0]) then SkipSpace(t[1..]) else t
  }

  predicate IsDigit(c: CodeUnit) {
    ZERO <= c <= ZERO + 9
  }

  function DigitCount(t: Text): (n: nat)
    ensures n <= |t| && forall i :: 0 <= i < n ==> IsDigit(t[i])
  {
    if |t| > 0 && IsDigit(t[0]) then 1 + DigitCount(t[1..]) else 0
  }

  function DecValue(ds: Text): (n: nat)
    requires forall i :: 0 <= i < |ds| ==> IsDigit(ds[i])
  {
    if |ds| == 0 then 0
    else
      assert IsDigit(ds[|ds| - 1]);
      10 * DecValue(ds[..|ds| - 1]) + (ds[|ds| - 1] - ZERO)
  }

  /** The text after a number: nothing that would continue it. */
  predicate EndsNumber(t: Text) {
    |t| == 0 || !(IsDigit(t[0]) || t[0] == 0x2e || t[0] == 0x65 || t[0] == 0x45)
  }

  function ParseNumber(t: Text): (r: Option<(Json, Text)>)
    ensures r.Some? ==> |r.value.1| < |t|
  {
    var neg := |t| > 0 && t[0] == MINUS;
    var u := if neg then t[1..] else t;
    var n := DigitCount(u);
    if n == 0 || (n > 1 && u[0] == ZERO) || !EndsNumber(u[n..]) then None
    else
      var m: int := DecValue(u[..n]);
      if m > MAX_SAFE then None else Some((Num(if neg then -m else m), u[n..]))
  }

  function HexDigitValue(c: CodeUnit): Option<nat> {
    if IsDigit(c) then Some(c - ZERO)
    else if 0x61 <= c <= 0x66 then Some(c - 0x61 + 10)
    else if 0x41 <= c <= 0x46 then Some(c - 0x41 + 10)
    else None
  }

  function ParseHex4(t: Text): (r: Option<CodeUnit>)
    requires |t| >= 4
  {
    var a, b, c, d := HexDigitValue(t[0]), HexDigitValue(t[1]), HexDigitValue(t[2]), HexDigitValue(t[3]);
    if a.Some? && b.Some? && c.Some? && d.Some?
       && a.value < 16 && b.value < 16 && c.value < 16 && d.value < 16
    then Some(4096 * a.value + 256 * b.value + 16 * c.value + d.value)
    else None
  }

  /** The code unit a two-character escape stands for. */
  function ShortEscape(c: CodeUnit): Option<CodeUnit> {
    if c == QUOTE || c == BACKSLASH || c == 0x2f then Some(c)
    else if c == 0x62 then Some(0x08)
    else if c == 0x74 then Some(0x09)
    else if c == 0x6e then Some(0x0a)
    else if c == 0x66 then Some(0x0c)
    else if c == 0x72 then Some(0x0d)
    else None
  }

  function Prepend(c: CodeUnit, r: Option<(Text, Text)>): Option<(Text, Text)> {
    if r.Some? then Some(([c] + r.value.0, r.value.1)) else None
  }

  /** The rest of a string literal, after its opening quote. */
  function ParseChars(t: Text): (r: Option<(Text, Text)>)
    ensures r.Some? ==> |r.value.1| < |t|
    decreases |t|
  {
    if |t| == 0 then None
    else if t[0] == QUOTE then Some(([], t[1..]))
    else if t[0] == BACKSLASH then
      if |t| < 2 then None
      else if t[1] == 0x75 then
        if |t| < 6 || ParseHex4(t[2..]).None? then None
        else Prepend(ParseHex4(t[2..]).value, ParseChars(t[6..]))
      else if ShortEscape(t[1]).None? then None
      else Prepend(ShortEscape(t[1]).value, ParseChars(t[2..]))
    else if t[0] < 0x20 then None
    else Prepend(t[0], ParseChars(t[1..]))
  }

  /** A later member with the same name overwrites the earlier one's value. */
  function Put(fs: seq<Entry<Json>>, k: Text, v: Json): seq<Entry<Json>> {
    if |fs| == 0 then [Entry(k, v)]
    else if fs[0].key == k then [Entry(k, v)] + fs[1..]
    else [fs[0]] + Put(fs[1..], k, v)
  }

  function ParseLiteral(t: Text, word: Text, v: Json): (r: Option<(Json, Text)>)
    requires |word| > 0
    ensures r.Some? ==> |r.value.1| < |t|
  {
    if word <= t then Some((v, t[|word|..])) else None
  }

  function ParseValue(t: Text): (r: Option<(Json, Text)>)
    ensures r.Some? ==> |r.value.1| < |t|
    decreases |t|, 0
  {
    var u := SkipSpace(t);
    if |u| == 0 then None
    else if u[0] == 0x6e then ParseLiteral(u, Ascii("null"), Null)
    else if u[0] == 0x74 then ParseLiteral(u, Ascii("true"), Bool(true))
    else if u[0] == 0x66 then ParseLiteral(u, Ascii("false"), Bool(false))
    else if u[0] == QUOTE then
      var s := ParseChars(u[1..]);
      if s.Some? then Some((Str(s.value.0), s.value.1)) else None
    else if u[0] == LBRACKET then
      var w := SkipSpace(u[1..]);
      if |w| > 0 && w[0] == RBRACKET then Some((Arr([]), w[1..]))
      else ParseItems(u[1..], [])
    else if u[0] == LBRACE then
      var w := SkipSpace(u[1..]);
      if |w| > 0 && w[0] == RBRACE then Some((Obj([]), w[1..]))
      else ParseMembers(u[1..], [])
    else ParseNumber(u)
  }

  function ParseItems(t: Text, acc: seq<Json>): (r: Option<(Json, Text)>)
    ensures r.Some? ==> |r.value.1| < |t|
    decreases |t|, 1
  {
    var v := ParseValue(t);
    if v.None? then None
    else
      var u := SkipSpace(v.value.1);
      if |u| == 0 then None
      else if u[0] == RBRACKET then Some((Arr(acc + [v.value.0]), u[1..]))
      else if u[0] == COMMA then ParseItems(u[1..], acc + [v.value.0])
      else None
  }

  function ParseMembers(t: Text, acc: seq<Entry<Json>>): (r: Option<(Json, Text)>)
    ensures r.Some? ==> |r.value.1| < |t|
    decreases |t|, 1
  {
    var s := SkipSpace(t);
    if |s| == 0 || s[0] != QUOTE then None
    else
      var k := ParseChars(s[1..]);
      if k.None? then None
      else
        var c := SkipSpace(k.value.1);
        if |c| == 0 || c[0] != COLON then None
        else
          var v := ParseValue(c[1..]);
          if v.None? then None
          else
            var u := SkipSpace(v.value.1);
            if |u| == 0 then None
            else if u[0] == RBRACE then Some((Obj(Put(acc, k.value.0, v.value.0)), u[1..]))
            else if u[0] == COMMA then ParseMembers(u[1..], Put(acc, k.value.0, v.value.0))
            else None
  }

  /** JSON.parse: one value and nothing but white space around it. */
  function Parse(t: Text): Option<Json> {
    var r := ParseValue(t);
    if r.Some? && SkipSpace(r.value.1) == [] then Some(r.value.0) else None
  }
}
