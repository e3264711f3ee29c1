/** What the canonical text promises: it parses back, it depends on nothing but the
    value, it tells different values apart, and it is printable ASCII. */
module CanonicalProofs {
  import opened Wrappers
  import opened Canonical
  import opened CanonicalOrder

  // ---- equality of JSON values: objects are equal whatever the order of their fields ----

  ghost predicate Same(v: Json, w: Json) {
    match (v, w)
    case (Arr(a), Arr(b)) => |a| == |b| && forall i :: 0 <= i < |a| ==> Same(a[i], b[i])
    case (Obj(f), Obj(g)) =>
      |f| == |g| &&
      forall i :: 0 <= i < |f| ==>
        exists j :: 0 <= j < |g| && f[i].key == g[j].key && Same(f[i].value, g[j].value)
    case _ => v == w
  }

  lemma NormalFieldsAre(fs: seq<Entry<Json>>)
    requires DistinctKeys(fs)
    ensures DistinctKeys(NormalFields(fs))
  {}

  lemma MatchingField(f: seq<Entry<Json>>, g: seq<Entry<Json>>, i: nat) returns (j: nat)
    requires i < |f| && SortByKey(NormalFields(f)) == SortByKey(NormalFields(g))
    ensures j < |g| && f[i].key == g[j].key && Normal(f[i].value) == Normal(g[j].value)
  {
    hide SortByKey, Normal;
    var nf, ng := NormalFields(f), NormalFields(g);
    SortMembers(nf);
    SortMembers(ng);
    assert nf[i] in nf;
    assert nf[i] in SortByKey(ng);
    j :| 0 <= j < |ng| && ng[j] == nf[i];
  }

  lemma {:induction false} NormalEqualImpliesSame(v: Json, w: Json)
    requires Valid(v) && Valid(w) && Normal(v) == Normal(w)
    ensures Same(v, w)
    decreases v
  {
    hide SortByKey;
    match (v, w)
    case (Arr(a), Arr(b)) =>
      assert NormalItems(a) == NormalItems(b);
      forall i | 0 <= i < |a| ensures Same(a[i], b[i]) {
        assert NormalItems(a)[i] == NormalItems(b)[i];
        NormalEqualImpliesSame(a[i], b[i]);
      }
    case (Obj(f), Obj(g)) =>
      SortMembers(NormalFields(f));
      SortMembers(NormalFields(g));
      forall i | 0 <= i < |f|
        ensures exists j :: 0 <= j < |g| && f[i].key == g[j].key && Same(f[i].value, g[j].value)
      {
        var j := MatchingField(f, g, i);
        NormalEqualImpliesSame(f[i].value, g[j].value);
      }
    case _ =>
  }

  lemma {:induction false} SameImpliesNormalEqual(v: Json, w: Json)
    requires Valid(v) && Valid(w) && Same(v, w)
    ensures Normal(v) == Normal(w)
    decreases v
  {
    match (v, w)
    case (Arr(a), Arr(b)) =>
      forall i | 0 <= i < |a| ensures NormalItems(a)[i] == NormalItems(b)[i] {
        SameImpliesNormalEqual(a[i], b[i]);
      }
      assert NormalItems(a) == NormalItems(b);
    case (Obj(f), Obj(g)) =>
      var nf, ng := NormalFields(f), NormalFields(g);
      NormalFieldsAre(f);
      NormalFieldsAre(g);
      forall i | 0 <= i < |nf| ensures nf[i] in ng {
        var j :| 0 <= j < |g| && f[i].key == g[j].key && Same(f[i].value, g[j].value);
        SameImpliesNormalEqual(f[i].value, g[j].value);
        assert ng[j] == nf[i];
      }
      SortOrderFree(nf, ng);
    case _ =>
  }

  /** The normal form is a canonical representative of a value up to field order. */
  lemma NormalCharacterizesSame(v: Json, w: Json)
    requires Valid(v) && Valid(w)
    ensures Normal(v) == Normal(w) <==> Same(v, w)
  {
    if Normal(v) == Normal(w) { NormalEqualImpliesSame(v, w); }
    if Same(v, w) { SameImpliesNormalEqual(v, w); }
  }

  // ---- round trip: strings ----

  lemma HexDigitBack(d: int)
    requires 0 <= d < 16
    ensures HexDigitValue(HexDigit(d)) == Some(d)
  {}

  function Hex4(c: CodeUnit): Text {
    [HexDigit(c / 4096), HexDigit(c / 256 % 16), HexDigit(c / 16 % 16), HexDigit(c % 16)]
  }

  lemma HexTextTwo(n: nat)
    requires n >= 256
    ensures HexText(n) == HexText(n / 256) + [HexDigit(n / 16 % 16), HexDigit(n % 16)]
  {
    assert n / 16 / 16 == n / 256;
    assert HexText(n) == HexText(n / 16) + [HexDigit(n % 16)];
  }

  lemma HexShort(n: nat)
    requires n < 256
    ensures HexText(n) == if n < 16 then [HexDigit(n)] else [HexDigit(n / 16), HexDigit(n % 16)]
  {
    if n >= 16 { assert HexText(n / 16) == [HexDigit(n / 16)]; }
  }

  lemma {:induction false} Padded(t: Text)
    requires 1 <= |t| <= 4
    ensures PadStart(t, 4) == (if |t| == 4 then [] else if |t| == 3 then [ZERO] else if |t| == 2 then [ZERO, ZERO] else [ZERO, ZERO, ZERO]) + t
    decreases 4 - |t|
  {
    if |t| < 4 { Padded([ZERO] + t); }
  }

  /** Padding the base-16 text to four columns gives the four hex digits. */
  lemma PaddedHex(c: CodeUnit)
    ensures PadStart(HexText(c), 4) == Hex4(c)
  {
    hide HexText, PadStart;
    var m := c / 256;
    if c >= 256 {
      HexTextTwo(c);
      HexShort(m);
      assert m / 16 == c / 4096;
    } else {
      HexShort(c);
    }
    Padded(HexText(c));
  }

  lemma ParseHex4Back(c: CodeUnit, t: Text)
    requires |t| >= 4 && t[..4] == Hex4(c)
    ensures ParseHex4(t) == Some(c)
  {
    assert forall i :: 0 <= i < 4 ==> t[i] == t[..4][i];
    HexDigitBack(c / 4096);
    HexDigitBack(c / 256 % 16);
    HexDigitBack(c / 16 % 16);
    HexDigitBack(c % 16);
    HexDigitsSum(c);
  }

  lemma HexDigitsSum(c: CodeUnit)
    ensures 4096 * (c / 4096) + 256 * (c / 256 % 16) + 16 * (c / 16 % 16) + c % 16 == c
  {
    assert c / 16 / 16 == c / 256 && c / 256 / 16 == c / 4096;
  }

  lemma ParseUnitBack(c: CodeUnit, tail: Text)
    ensures ParseChars(EscapeUnit(c) + tail) == Prepend(c, ParseChars(tail))
  {
    var t := EscapeUnit(c) + tail;
    if c in {0x22, 0x5c, 0x08, 0x09, 0x0a, 0x0c, 0x0d} {
      assert |EscapeUnit(c)| == 2;
      assert t[2..] == tail;
    } else if c < 0x20 || c >= 0x7f {
      PaddedHex(c);
      assert t[2..][..4] == Hex4(c);
      ParseHex4Back(c, t[2..]);
      assert t[6..] == tail;
    } else {
      assert t[1..] == tail;
    }
  }

  lemma {:induction false} ParseCharsBack(s: Text, rest: Text)
    ensures ParseChars(EscapeAll(s) + [QUOTE] + rest) == Some((s, rest))
  {
    if |s| == 0 {
      assert EscapeAll(s) + [QUOTE] + rest == [QUOTE] + rest;
    } else {
      var tail := EscapeAll(s[1..]) + [QUOTE] + rest;
      ParseCharsBack(s[1..], rest);
      assert EscapeAll(s) + [QUOTE] + rest == EscapeUnit(s[0]) + tail;
      ParseUnitBack(s[0], tail);
      assert [s[0]] + s[1..] == s;
    }
  }

  // ---- round trip: numbers ----

  lemma {:induction false} DecTextDigits(n: nat)
    ensures forall i :: 0 <= i < |DecText(n)| ==> IsDigit(DecText(n)[i])
    ensures |DecText(n)| > 0 && (n > 0 ==> DecText(n)[0] != ZERO)
    ensures n == 0 ==> |DecText(n)| == 1
  {
    if n >= 10 { DecTextDigits(n / 10); }
  }

  lemma {:induction false} DecValueBack(n: nat)
    ensures forall i :: 0 <= i < |DecText(n)| ==> IsDigit(DecText(n)[i])
    ensures DecValue(DecText(n)) == n
  {
    DecTextDigits(n);
    if n >= 10 {
      DecValueBack(n / 10);
      var t := DecText(n);
      assert t[..|t| - 1] == DecText(n / 10);
    } else {
      assert [ZERO + n][..0] == [];
    }
  }

  lemma {:induction false} DigitCountBack(ds: Text, rest: Text)
    requires forall i :: 0 <= i < |ds| ==> IsDigit(ds[i])
    requires |rest| > 0 ==> !IsDigit(rest[0])
    ensures DigitCount(ds + rest) == |ds|
  {
    if |ds| > 0 {
      assert (ds + rest)[1..] == ds[1..] + rest;
      DigitCountBack(ds[1..], rest);
    } else {
      assert ds + rest == rest;
    }
  }

  /** The digits of a number, read in front of what does not continue them. */
  lemma DigitsBack(m: nat, rest: Text)
    requires |rest| > 0 ==> !IsDigit(rest[0])
    ensures var ds := DecText(m);
            && DigitCount(ds + rest) == |ds| > 0 && (ds + rest)[..|ds|] == ds && (ds + rest)[|ds|..] == rest
            && IsDigit((ds + rest)[0]) && (|ds| > 1 ==> (ds + rest)[0] != ZERO)
  {
    DecTextDigits(m);
    DigitCountBack(DecText(m), rest);
    hide DecText, DigitCount;
  }

  lemma ParseNumberBack(n: SafeInt, rest: Text)
    requires EndsNumber(rest)
    ensures ParseNumber(IntText(n) + rest) == Some((Num(n), rest))
  {
    hide DecText, DecValue, DigitCount;
    var m: nat := if n < 0 then -n else n;
    var u := DecText(m) + rest;
    DigitsBack(m, rest);
    DecValueBack(m);
    if n < 0 {
      assert IntText(n) + rest == [MINUS] + u;
      assert ([MINUS] + u)[1..] == u;
    } else {
      assert IntText(n) + rest == u;
    }
  }

  // ---- round trip: values ----

  /** `v` parses back in front of any text that does not continue a number. */
  ghost predicate ParsesBack(v: Json) {
    forall rest :: EndsNumber(rest) ==> ParseValue(Encode(v) + rest) == Some((Normal(v), rest))
  }

  lemma NoSpace(t: Text)
    requires |t| > 0 && !IsSpace(t[0])
    ensures SkipSpace(t) == t
  {}

  lemma LiteralBack(word: Text, v: Json, rest: Text)
    requires |word| > 0
    ensures ParseLiteral(word + rest, word, v) == Some((v, rest))
  {
    assert (word + rest)[|word|..] == rest;
  }

  lemma StringBack(s: Text, rest: Text)
    ensures ParseValue(StringText(s) + rest) == Some((Str(s), rest))
  {
    hide EscapeAll, ParseChars, ParseItems, ParseMembers, ParseNumber;
    var t := StringText(s) + rest;
    ParseCharsBack(s, rest);
    assert t[1..] == EscapeAll(s) + [QUOTE] + rest;
    NoSpace(t);
  }

  lemma NumBack(n: SafeInt, rest: Text)
    requires EndsNumber(rest)
    ensures ParseValue(IntText(n) + rest) == Some((Num(n), rest))
  {
    var t := IntText(n) + rest;
    DecTextDigits(if n < 0 then -n else n);
    ParseNumberBack(n, rest);
    assert t[0] == MINUS || IsDigit(t[0]);
    NoSpace(t);
  }

  /** Nothing a value prints as can be taken for white space or a closing bracket. */
  lemma FirstUnit(v: Json)
    ensures |Encode(v)| > 0 && !IsSpace(Encode(v)[0]) && Encode(v)[0] != RBRACKET && Encode(v)[0] != RBRACE
  {
    match v
    case Num(n) => DecTextDigits(if n < 0 then -n else n);
    case _ =>
  }

  /** One turn of the element loop. */
  lemma ItemsStep(t: Text, acc: seq<Json>, v: Json, after: Text)
    requires ParseValue(t) == Some((v, after)) && |after| > 0
    ensures after[0] == RBRACKET ==> ParseItems(t, acc) == Some((Arr(acc + [v]), after[1..]))
    ensures after[0] == COMMA ==> ParseItems(t, acc) == ParseItems(after[1..], acc + [v])
  {
    if !IsSpace(after[0]) { NoSpace(after); }
  }

  lemma {:induction false} ItemsBack(vs: seq<Json>, acc: seq<Json>, rest: Text)
    requires |vs| > 0
    requires forall i :: 0 <= i < |vs| ==> ParsesBack(vs[i])
    ensures ParseItems(Join(EncodeItems(vs)) + [RBRACKET] + rest, acc) == Some((Arr(acc + NormalItems(vs)), rest))
    decreases |vs|
  {
    hide ParseItems;
    hide ParseValue;
    hide Encode;
    hide Normal;
    var t := Join(EncodeItems(vs)) + [RBRACKET] + rest;
    assert ParsesBack(vs[0]);
    if |vs| == 1 {
      var after := [RBRACKET] + rest;
      assert t == Encode(vs[0]) + after;
      ItemsStep(t, acc, Normal(vs[0]), after);
      assert after[1..] == rest;
      assert NormalItems(vs) == [Normal(vs[0])];
    } else {
      var inner := Join(EncodeItems(vs[1..])) + [RBRACKET] + rest;
      var after := [COMMA] + inner;
      assert EncodeItems(vs)[1..] == EncodeItems(vs[1..]);
      assert t == Encode(vs[0]) + after;
      ItemsStep(t, acc, Normal(vs[0]), after);
      assert after[1..] == inner;
      ItemsBack(vs[1..], acc + [Normal(vs[0])], rest);
      assert acc + [Normal(vs[0])] + NormalItems(vs[1..]) == acc + NormalItems(vs);
    }
  }

  lemma {:induction false} PutNew(fs: seq<Entry<Json>>, k: Text, v: Json)
    requires forall i :: 0 <= i < |fs| ==> fs[i].key != k
    ensures Put(fs, k, v) == fs + [Entry(k, v)]
  {
    if |fs| > 0 { PutNew(fs[1..], k, v); }
  }

  /** One turn of the member loop. */
  lemma MemberStep(t: Text, acc: seq<Entry<Json>>, k: Text, body: Text, v: Json, after: Text)
    requires |t| > 0 && t[0] == QUOTE && ParseChars(t[1..]) == Some((k, [COLON] + body))
    requires ParseValue(body) == Some((v, after)) && |after| > 0 && !IsSpace(after[0])
    ensures after[0] == RBRACE ==> ParseMembers(t, acc) == Some((Obj(Put(acc, k, v)), after[1..]))
    ensures after[0] == COMMA ==> ParseMembers(t, acc) == ParseMembers(after[1..], Put(acc, k, v))
  {
    hide ParseChars;
    hide ParseValue;
    hide Put;
    NoSpace(t);
    NoSpace([COLON] + body);
    assert ([COLON] + body)[1..] == body;
    NoSpace(after);
  }

  /** One member parses back, up to the value's remainder `after`. */
  lemma MemberBack(k: Text, v: Json, after: Text, acc: seq<Entry<Json>>)
    requires ParsesBack(v) && EndsNumber(after) && |after| > 0 && !IsSpace(after[0])
    requires forall i :: 0 <= i < |acc| ==> acc[i].key != k
    ensures var t, acc' := StringText(k) + [COLON] + Encode(v) + after, acc + [Entry(k, Normal(v))];
            && (after[0] == RBRACE ==> ParseMembers(t, acc) == Some((Obj(acc'), after[1..])))
            && (after[0] == COMMA ==> ParseMembers(t, acc) == ParseMembers(after[1..], acc'))
  {
    hide ParseValue;
    hide ParseMembers;
    hide ParseChars;
    hide EscapeAll;
    hide Put;
    hide Encode;
    hide Normal;
    var body := Encode(v) + after;
    var t := StringText(k) + [COLON] + Encode(v) + after;
    assert t == [QUOTE] + (EscapeAll(k) + [QUOTE] + ([COLON] + body));
    assert t[1..] == EscapeAll(k) + [QUOTE] + ([COLON] + body);
    ParseCharsBack(k, [COLON] + body);
    MemberStep(t, acc, k, body, Normal(v), after);
    PutNew(acc, k, Normal(v));
  }

  lemma {:induction false} MembersBack(fs: seq<Entry<Json>>, acc: seq<Entry<Json>>, rest: Text)
    requires |fs| > 0 && DistinctKeys(acc + fs)
    requires forall i :: 0 <= i < |fs| ==> ParsesBack(fs[i].value)
    ensures ParseMembers(Join(Members(EncodeFields(fs))) + [RBRACE] + rest, acc) == Some((Obj(acc + NormalFields(fs)), rest))
    decreases |fs|
  {
    hide ParseMembers;
    hide ParseValue;
    hide StringText;
    hide Encode;
    hide Normal;
    var es := EncodeFields(fs);
    var t := Join(Members(es)) + [RBRACE] + rest;
    var first := Entry(fs[0].key, Normal(fs[0].value));
    forall i | 0 <= i < |acc| ensures acc[i].key != fs[0].key {
      assert (acc + fs)[i].key != (acc + fs)[|acc|].key;
    }
    assert ParsesBack(fs[0].value);
    if |fs| == 1 {
      var after := [RBRACE] + rest;
      assert t == StringText(fs[0].key) + [COLON] + Encode(fs[0].value) + after;
      MemberBack(fs[0].key, fs[0].value, after, acc);
      assert after[1..] == rest;
      assert NormalFields(fs) == [first];
    } else {
      var inner := Join(Members(EncodeFields(fs[1..]))) + [RBRACE] + rest;
      var after := [COMMA] + inner;
      assert Members(es)[1..] == Members(EncodeFields(fs[1..]));
      assert t == StringText(fs[0].key) + [COLON] + Encode(fs[0].value) + after;
      MemberBack(fs[0].key, fs[0].value, after, acc);
      assert after[1..] == inner;
      StillDistinct(acc, fs, first);
      MembersBack(fs[1..], acc + [first], rest);
      assert acc + [first] + NormalFields(fs[1..]) == acc + NormalFields(fs);
    }
  }

  lemma StillDistinct(acc: seq<Entry<Json>>, fs: seq<Entry<Json>>, first: Entry<Json>)
    requires |fs| > 0 && DistinctKeys(acc + fs) && first.key == fs[0].key
    ensures DistinctKeys(acc + [first] + fs[1..])
  {
    var a, b := acc + fs, acc + [first] + fs[1..];
    forall i, j | 0 <= i < j < |b| ensures b[i].key != b[j].key {
      assert a[i].key != a[j].key;
    }
  }

  /** What a value that opens with a bracket or a brace goes on as. */
  lemma OpensWith(t: Text, inner: Text)
    requires |t| > 0 && t[1..] == inner && SkipSpace(t) == t && SkipSpace(inner) == inner && |inner| > 0
    ensures t[0] == LBRACKET ==>
              ParseValue(t) == if inner[0] == RBRACKET then Some((Arr([]), inner[1..])) else ParseItems(inner, [])
    ensures t[0] == LBRACE ==>
              ParseValue(t) == if inner[0] == RBRACE then Some((Obj([]), inner[1..])) else ParseMembers(inner, [])
  {
    hide ParseItems, ParseMembers, ParseNumber, ParseChars, ParseLiteral, SkipSpace;
  }

  /** A bracket opens the element loop, or closes at once. */
  lemma ArrayStep(inner: Text)
    requires |inner| > 0 && !IsSpace(inner[0])
    ensures ParseValue([LBRACKET] + inner) ==
            if inner[0] == RBRACKET then Some((Arr([]), inner[1..])) else ParseItems(inner, [])
  {
    hide ParseValue, ParseItems, ParseMembers, SkipSpace;
    var t := [LBRACKET] + inner;
    NoSpace(t);
    NoSpace(inner);
    assert t[1..] == inner;
    OpensWith(t, inner);
  }

  lemma ArrayBack(items: seq<Json>, rest: Text)
    requires forall i :: 0 <= i < |items| ==> ParsesBack(items[i])
    ensures ParseValue(Encode(Arr(items)) + rest) == Some((Normal(Arr(items)), rest))
  {
    hide ParseItems;
    hide ParseValue;
    var inner := Join(EncodeItems(items)) + [RBRACKET] + rest;
    assert Encode(Arr(items)) + rest == [LBRACKET] + inner;
    if |items| == 0 {
      assert inner == [RBRACKET] + rest;
      ArrayStep(inner);
      assert inner[1..] == rest;
    } else {
      FirstUnit(items[0]);
      assert inner[0] == Encode(items[0])[0];
      ArrayStep(inner);
      ItemsBack(items, [], rest);
      assert [] + NormalItems(items) == NormalItems(items);
    }
  }

  /** Printing and normalizing commute with sorting by key. */
  lemma SortedViews(fs: seq<Entry<Json>>)
    ensures SortByKey(EncodeFields(fs)) == EncodeFields(SortByKey(fs))
    ensures SortByKey(NormalFields(fs)) == NormalFields(SortByKey(fs))
  {
    SortMap(fs, Encode);
    SortMap(fs, Normal);
    assert EncodeFields(fs) == MapValues(fs, Encode);
    assert NormalFields(fs) == MapValues(fs, Normal);
    var s := SortByKey(fs);
    assert EncodeFields(s) == MapValues(s, Encode);
    assert NormalFields(s) == MapValues(s, Normal);
  }

  /** A brace opens the member loop, or closes at once. */
  lemma ObjectStep(inner: Text)
    requires |inner| > 0 && !IsSpace(inner[0])
    ensures ParseValue([LBRACE] + inner) ==
            if inner[0] == RBRACE then Some((Obj([]), inner[1..])) else ParseMembers(inner, [])
  {
    hide ParseValue, ParseItems, ParseMembers, SkipSpace;
    var t := [LBRACE] + inner;
    NoSpace(t);
    NoSpace(inner);
    assert t[1..] == inner;
    OpensWith(t, inner);
  }

  lemma MembersOpen(es: seq<Entry<Text>>)
    ensures var body := Join(Members(es));
            if |es| == 0 then body == [] else |body| > 0 && body[0] == QUOTE
  {
    hide EscapeAll;
  }

  /** An object prints and normalizes its fields in key order. */
  lemma ObjectText(fields: seq<Entry<Json>>, rest: Text)
    ensures Encode(Obj(fields)) + rest == [LBRACE] + (Join(Members(EncodeFields(SortByKey(fields)))) + [RBRACE] + rest)
    ensures Normal(Obj(fields)) == Obj(NormalFields(SortByKey(fields)))
  {
    hide SortByKey, Join, Members, EncodeFields, NormalFields;
    SortedViews(fields);
    var body := Join(Members(SortByKey(EncodeFields(fields))));
    assert Encode(Obj(fields)) == [LBRACE] + body + [RBRACE];
    assert [LBRACE] + body + [RBRACE] + rest == [LBRACE] + (body + [RBRACE] + rest);
  }

  lemma ObjectBack(fields: seq<Entry<Json>>, rest: Text)
    requires DistinctKeys(fields)
    requires forall i :: 0 <= i < |fields| ==> ParsesBack(fields[i].value)
    ensures ParseValue(Encode(Obj(fields)) + rest) == Some((Normal(Obj(fields)), rest))
  {
    hide ParseMembers, ParseValue, SortByKey, Join, Members, Encode, Normal, EncodeFields, NormalFields, ParsesBack;
    ObjectText(fields, rest);
    SortMembers(fields);
    var s := SortByKey(fields);
    var body := Join(Members(EncodeFields(s)));
    var inner := body + [RBRACE] + rest;
    MembersOpen(EncodeFields(s));
    if |fields| == 0 {
      assert inner == [RBRACE] + rest && inner[1..] == rest && NormalFields(s) == [];
      ObjectStep(inner);
    } else {
      assert inner[0] == QUOTE;
      ObjectStep(inner);
      SortedMembersBack(fields, rest);
    }
  }

  lemma SortedParseBack(fields: seq<Entry<Json>>)
    requires DistinctKeys(fields)
    requires forall i :: 0 <= i < |fields| ==> ParsesBack(fields[i].value)
    ensures |SortByKey(fields)| == |fields| && DistinctKeys(SortByKey(fields))
    ensures forall i :: 0 <= i < |fields| ==> ParsesBack(SortByKey(fields)[i].value)
  {
    hide ParsesBack;
    hide SortByKey;
    SortMembers(fields);
    SortAscending(fields);
    var s := SortByKey(fields);
    AscendingDistinct(s);
    forall i | 0 <= i < |s| ensures ParsesBack(s[i].value) {
      assert s[i] in fields;
    }
  }

  lemma SortedMembersBack(fields: seq<Entry<Json>>, rest: Text)
    requires DistinctKeys(fields) && |fields| > 0
    requires forall i :: 0 <= i < |fields| ==> ParsesBack(fields[i].value)
    ensures var s := SortByKey(fields);
            ParseMembers(Join(Members(EncodeFields(s))) + [RBRACE] + rest, []) == Some((Obj(NormalFields(s)), rest))
  {
    hide *;
    var s := SortByKey(fields);
    SortedParseBack(fields);
    assert [] + s == s;
    MembersBack(s, [], rest);
    assert [] + NormalFields(s) == NormalFields(s);
  }

  lemma {:induction false} EveryValueParsesBack(v: Json)
    requires Valid(v)
    ensures ParsesBack(v)
    decreases v
  {
    forall rest | EndsNumber(rest) ensures ParseValue(Encode(v) + rest) == Some((Normal(v), rest)) {
      match v
      case Null => LiteralBack(Ascii("null"), v, rest); NoSpace(Encode(v) + rest);
      case Bool(b) => LiteralBack(Encode(v), v, rest); NoSpace(Encode(v) + rest);
      case Num(n) => NumBack(n, rest);
      case Str(s) => StringBack(s, rest);
      case Arr(items) =>
        forall i | 0 <= i < |items| ensures ParsesBack(items[i]) { EveryValueParsesBack(items[i]); }
        ArrayBack(items, rest);
      case Obj(fields) =>
        forall i | 0 <= i < |fields| ensures ParsesBack(fields[i].value) { EveryValueParsesBack(fields[i].value); }
        ObjectBack(fields, rest);
    }
  }

  /** JSON.parse undoes canonicalize, up to the order of fields. */
  lemma RoundTrip(v: Json)
    requires Valid(v)
    ensures Parse(Encode(v)) == Some(Normal(v)) && Same(v, Normal(v))
  {
    EveryValueParsesBack(v);
    assert Encode(v) + [] == Encode(v);
    NormalIdempotent(v);
    NormalValid(v);
    NormalCharacterizesSame(v, Normal(v));
  }

  lemma {:induction false} NormalValid(v: Json)
    requires Valid(v)
    ensures Valid(Normal(v))
    decreases v
  {
    match v
    case Arr(items) =>
      forall i | 0 <= i < |items| ensures Valid(NormalItems(items)[i]) { NormalValid(items[i]); }
    case Obj(fields) =>
      var nf := NormalFields(fields);
      NormalFieldsAre(fields);
      forall i | 0 <= i < |nf| ensures Valid(nf[i].value) { NormalValid(fields[i].value); }
      SortMembers(nf);
      SortAscending(nf);
      AscendingDistinct(SortByKey(nf));
      forall i | 0 <= i < |nf| ensures Valid(SortByKey(nf)[i].value) {
        var j :| 0 <= j < |nf| && nf[j] == SortByKey(nf)[i];
      }
    case _ =>
  }

  lemma {:induction false} NormalIdempotent(v: Json)
    requires Valid(v)
    ensures Normal(Normal(v)) == Normal(v)
    decreases v
  {
    match v
    case Arr(items) =>
      var ns := NormalItems(items);
      forall i | 0 <= i < |items| ensures NormalItems(ns)[i] == ns[i] { NormalIdempotent(items[i]); }
      assert NormalItems(ns) == ns;
    case Obj(fields) =>
      var nf := NormalFields(fields);
      var s := SortByKey(nf);
      SortMembers(nf);
      forall i | 0 <= i < |s| ensures NormalFields(s)[i] == s[i] {
        var j :| 0 <= j < |nf| && nf[j] == s[i];
        NormalIdempotent(fields[j].value);
      }
      assert NormalFields(s) == s;
      NormalFieldsAre(fields);
      SortAscending(nf);
      AscendingDistinct(s);
      SortOrderFree(s, nf);
    case _ =>
  }

  lemma {:induction false} EncodeNormal(v: Json)
    requires Valid(v)
    ensures Encode(Normal(v)) == Encode(v)
    decreases v
  {
    match v
    case Arr(items) =>
      var ns := NormalItems(items);
      forall i | 0 <= i < |items| ensures EncodeItems(ns)[i] == EncodeItems(items)[i] { EncodeNormal(items[i]); }
      assert EncodeItems(ns) == EncodeItems(items);
    case Obj(fields) =>
      var nf := NormalFields(fields);
      SortedViews(nf);
      forall i | 0 <= i < |fields| ensures EncodeFields(nf)[i] == EncodeFields(fields)[i] { EncodeNormal(fields[i].value); }
      assert EncodeFields(nf) == EncodeFields(fields);
      NormalFieldsAre(fields);
      SortAscending(nf);
      AscendingDistinct(SortByKey(nf));
      SortIdempotent(EncodeFields(nf));
    case _ =>
  }

  lemma SortIdempotent(es: seq<Entry<Text>>)
    requires DistinctKeys(es)
    ensures SortByKey(SortByKey(es)) == SortByKey(es)
  {
    SortMembers(es);
    SortAscending(es);
    AscendingDistinct(SortByKey(es));
    SortOrderFree(SortByKey(es), es);
  }

  /** Two values have the same canonical text exactly when they are the same value. */
  lemma TextIffSame(v: Json, w: Json)
    requires Valid(v) && Valid(w)
    ensures Encode(v) == Encode(w) <==> Same(v, w)
  {
    NormalCharacterizesSame(v, w);
    RoundTrip(v);
    RoundTrip(w);
    EncodeNormal(v);
    EncodeNormal(w);
  }

  // ---- printable ASCII ----

  predicate Printable(t: Text) {
    forall i :: 0 <= i < |t| ==> 0x20 <= t[i] < 0x7f
  }

  lemma {:induction false} EscapePrintable(s: Text)
    ensures Printable(EscapeAll(s))
  {
    if |s| > 0 {
      EscapePrintable(s[1..]);
      PaddedHex(s[0]);
    }
  }

  lemma {:induction false} JoinPrintable(ts: seq<Text>)
    requires forall i :: 0 <= i < |ts| ==> Printable(ts[i])
    ensures Printable(Join(ts))
  {
    if |ts| > 1 { JoinPrintable(ts[1..]); }
  }

  lemma MemberPrintable(k: Text, value: Text)
    requires Printable(value)
    ensures Printable(StringText(k) + [COLON] + value)
  {
    EscapePrintable(k);
  }

  lemma MembersPrintable(es: seq<Entry<Text>>)
    requires forall i :: 0 <= i < |es| ==> Printable(es[i].value)
    ensures Printable(Join(Members(SortByKey(es))))
  {
    hide StringText;
    hide Join;
    hide SortByKey;
    hide Printable;
    SortMembers(es);
    var s := SortByKey(es);
    var ms := Members(s);
    forall i | 0 <= i < |ms| ensures Printable(ms[i]) {
      assert s[i] in es;
      MemberPrintable(s[i].key, s[i].value);
    }
    JoinPrintable(ms);
  }

  /** The signed bytes are printable ASCII whatever the strings hold. */
  lemma {:induction false} TextPrintable(v: Json)
    ensures Printable(Encode(v))
    decreases v
  {
    hide EscapeAll;
    hide Join;
    hide Members;
    match v
    case Num(n) => DecTextDigits(if n < 0 then -n else n);
    case Str(s) => EscapePrintable(s);
    case Arr(items) =>
      forall i | 0 <= i < |items| ensures Printable(EncodeItems(items)[i]) { TextPrintable(items[i]); }
      JoinPrintable(EncodeItems(items));
    case Obj(fields) =>
      var es := EncodeFields(fields);
      forall i | 0 <= i < |es| ensures Printable(es[i].value) { TextPrintable(fields[i].value); }
      MembersPrintable(es);
    case _ =>
  }
}
