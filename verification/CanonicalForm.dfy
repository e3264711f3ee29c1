/** The exact form of the canonical text: names in ascending order of code units, the escapes
    of Python's json.dumps, and no white space outside strings. */
module CanonicalForm {
  import opened Wrappers
  import opened Canonical
  import opened CanonicalOrder
  import opened CanonicalProofs

  // ---- the order of names ----

  ghost predicate DiffersAt(a: Text, b: Text, i: int) {
    0 <= i < |a| && i < |b| && a[..i] == b[..i] && a[i] < b[i]
  }

  /** `a` is a proper prefix of `b`, or has the smaller unit where they first differ. */
  ghost predicate Below(a: Text, b: Text) {
    (|a| < |b| && a == b[..|a|]) || exists i :: DiffersAt(a, b, i)
  }

  lemma {:induction false} LessIsBelow(a: Text, b: Text)
    ensures Less(a, b) <==> Below(a, b)
  {
    if |a| == 0 {
      assert b[..0] == [];
    } else if |b| > 0 {
      if a[0] != b[0] {
        if a[0] < b[0] { assert DiffersAt(a, b, 0); }
        if Below(a, b) { FirstUnits(a, b); }
      } else {
        LessIsBelow(a[1..], b[1..]);
        BelowTail(a, b);
      }
    }
  }

  lemma FirstUnits(a: Text, b: Text)
    requires Below(a, b) && |a| > 0 && |b| > 0
    ensures a[0] <= b[0]
  {
    if |a| < |b| && a == b[..|a|] {
      assert a[0] == b[0];
    } else {
      var i :| DiffersAt(a, b, i);
      if i > 0 { assert a[..i][0] == b[..i][0]; }
    }
  }

  lemma BelowTail(a: Text, b: Text)
    requires |a| > 0 && |b| > 0 && a[0] == b[0]
    ensures Below(a, b) <==> Below(a[1..], b[1..])
  {
    assert a == [a[0]] + a[1..] && b == [b[0]] + b[1..];
    if |a| < |b| {
      assert b[..|a|] == [b[0]] + b[1..][..|a| - 1];
      assert b[..|a|][1..] == b[1..][..|a| - 1];
    }
    forall i | DiffersAt(a, b, i) ensures DiffersAt(a[1..], b[1..], i - 1) {
      assert a[..i][1..] == a[1..][..i - 1] && b[..i][1..] == b[1..][..i - 1];
    }
    forall i | DiffersAt(a[1..], b[1..], i) ensures DiffersAt(a, b, i + 1) {
      assert a[..i + 1] == [a[0]] + a[1..][..i] && b[..i + 1] == [b[0]] + b[1..][..i];
    }
  }

  /** The members as printed: all of them, each once, the smaller name first. */
  ghost predicate InNameOrder(fields: seq<Entry<Json>>, printed: seq<Entry<Text>>) {
    && |printed| == |fields|
    && (forall e :: e in printed <==> e in EncodeFields(fields))
    && (forall i, j :: 0 <= i < j < |printed| ==> Below(printed[i].key, printed[j].key))
  }

  lemma PrintedInOrder(fields: seq<Entry<Json>>)
    requires DistinctKeys(fields)
    ensures exists printed :: InNameOrder(fields, printed) && Encode(Obj(fields)) == [LBRACE] + Join(Members(printed)) + [RBRACE]
  {
    hide Less, Below, Join, Members, SortByKey;
    var es := EncodeFields(fields);
    var printed := SortByKey(es);
    SortMembers(es);
    SortAscending(es);
    forall i, j | 0 <= i < j < |printed| ensures Below(printed[i].key, printed[j].key) {
      LessIsBelow(printed[i].key, printed[j].key);
    }
    assert InNameOrder(fields, printed);
  }

  // ---- escapes ----

  /** The units with a two-character escape: quote, backslash, \b, \t, \n, \f, \r. */
  predicate HasShort(c: CodeUnit) {
    c in {0x22, 0x5c, 0x08, 0x09, 0x0a, 0x0c, 0x0d}
  }

  predicate Lower(c: CodeUnit) {
    0x30 <= c <= 0x39 || 0x61 <= c <= 0x66
  }

  /** A unit prints as itself, by its short escape, or by \u and its value in four lower-case
      digits: which of the three is fixed by the unit, and each form is the only one. */
  lemma EscapeForm(c: CodeUnit)
    ensures var e := EscapeUnit(c);
            if HasShort(c) then |e| == 2 && e[0] == 0x5c && ShortEscape(e[1]) == Some(c)
            else if 0x20 <= c < 0x7f then e == [c]
            else |e| == 6 && e[0] == 0x5c && e[1] == 0x75 && Lower(e[2]) && Lower(e[3]) && Lower(e[4]) && Lower(e[5])
                 && ParseHex4(e[2..]) == Some(c)
  {
    if !HasShort(c) && !(0x20 <= c < 0x7f) {
      hide PadStart, HexText, ParseHex4;
      PaddedHex(c);
      var e := EscapeUnit(c);
      assert e[2..] == Hex4(c) && e[2..][..4] == Hex4(c);
      ParseHex4Back(c, e[2..]);
    }
  }

  // ---- no white space outside strings ----

  datatype Place = Outside | Inside | Escaped

  /** Reads a text up to its end; None as soon as white space stands outside a string. */
  function Scan(p: Place, t: Text): Option<Place>
    decreases |t|
  {
    if |t| == 0 then Some(p)
    else
      match p
      case Outside => if IsSpace(t[0]) then None else Scan(if t[0] == QUOTE then Inside else Outside, t[1..])
      case Inside => Scan(if t[0] == QUOTE then Outside else if t[0] == BACKSLASH then Escaped else Inside, t[1..])
      case Escaped => Scan(Inside, t[1..])
  }

  lemma {:induction false} ScanConcat(p: Place, a: Text, b: Text)
    ensures Scan(p, a + b) == if Scan(p, a).Some? then Scan(Scan(p, a).value, b) else None
    decreases |a|
  {
    if |a| == 0 {
      assert a + b == b;
    } else {
      assert (a + b)[1..] == a[1..] + b;
      match p
      case Outside => if !IsSpace(a[0]) { ScanConcat(if a[0] == QUOTE then Inside else Outside, a[1..], b); }
      case Inside => ScanConcat(if a[0] == QUOTE then Outside else if a[0] == BACKSLASH then Escaped else Inside, a[1..], b);
      case Escaped => ScanConcat(Inside, a[1..], b);
    }
  }

  lemma {:induction false} ScanPlain(p: Place, t: Text)
    requires p == Outside || p == Inside
    requires forall i :: 0 <= i < |t| ==> t[i] != QUOTE && t[i] != BACKSLASH && (p == Outside ==> !IsSpace(t[i]))
    ensures Scan(p, t) == Some(p)
    decreases |t|
  {
    if |t| > 0 { ScanPlain(p, t[1..]); }
  }

  lemma ScanPair(x: CodeUnit)
    ensures Scan(Inside, [BACKSLASH, x]) == Some(Inside)
  {
    var t := [BACKSLASH, x];
    assert t[1..] == [x] && [x][1..] == [];
    assert Scan(Escaped, [x]) == Scan(Inside, []);
  }

  lemma ScanUnit(c: CodeUnit)
    ensures Scan(Inside, EscapeUnit(c)) == Some(Inside)
  {
    EscapeForm(c);
    var e := EscapeUnit(c);
    hide EscapeUnit, ParseHex4, Scan;
    if HasShort(c) {
      ScanPair(e[1]);
      assert e == [BACKSLASH, e[1]];
    } else if 0x20 <= c < 0x7f {
      ScanPlain(Inside, e);
    } else {
      var t := e[2..];
      ScanPair(e[1]);
      assert forall i :: 0 <= i < 4 ==> t[i] == e[i + 2];
      ScanPlain(Inside, t);
      ScanConcat(Inside, [BACKSLASH, e[1]], t);
      assert e == [BACKSLASH, e[1]] + t;
    }
  }

  lemma {:induction false} ScanChars(s: Text)
    ensures Scan(Inside, EscapeAll(s)) == Some(Inside)
  {
    if |s| > 0 {
      ScanUnit(s[0]);
      ScanChars(s[1..]);
      ScanConcat(Inside, EscapeUnit(s[0]), EscapeAll(s[1..]));
    }
  }

  /** Scanned from outside strings, it ends there, and no white space was met. */
  predicate Compact(t: Text) {
    Scan(Outside, t) == Some(Outside)
  }

  lemma CompactConcat(a: Text, b: Text)
    requires Compact(a) && Compact(b)
    ensures Compact(a + b)
  {
    ScanConcat(Outside, a, b);
  }

  lemma CompactUnit(c: CodeUnit)
    requires !IsSpace(c) && c != QUOTE && c != BACKSLASH
    ensures Compact([c])
  {
    ScanPlain(Outside, [c]);
  }

  lemma CompactString(s: Text)
    ensures Compact(StringText(s))
  {
    hide Scan, EscapeAll;
    ScanChars(s);
    ScanQuotes();
    ScanConcat(Outside, [QUOTE], EscapeAll(s));
    ScanConcat(Outside, [QUOTE] + EscapeAll(s), [QUOTE]);
  }

  lemma ScanQuotes()
    ensures Scan(Outside, [QUOTE]) == Some(Inside) && Scan(Inside, [QUOTE]) == Some(Outside)
  {}

  lemma {:induction false} CompactJoin(ts: seq<Text>)
    requires forall i :: 0 <= i < |ts| ==> Compact(ts[i])
    ensures Compact(Join(ts))
  {
    hide Scan;
    if |ts| == 0 {
      ScanPlain(Outside, []);
    } else if |ts| > 1 {
      CompactJoin(ts[1..]);
      CompactUnit(COMMA);
      CompactConcat(ts[0], [COMMA]);
      CompactConcat(ts[0] + [COMMA], Join(ts[1..]));
    }
  }

  lemma CompactMembers(es: seq<Entry<Text>>)
    requires forall i :: 0 <= i < |es| ==> Compact(es[i].value)
    ensures forall i :: 0 <= i < |es| ==> Compact(Members(es)[i])
  {
    hide Compact;
    forall i | 0 <= i < |es| ensures Compact(Members(es)[i]) {
      CompactString(es[i].key);
      CompactUnit(COLON);
      CompactConcat(StringText(es[i].key), [COLON]);
      CompactConcat(StringText(es[i].key) + [COLON], es[i].value);
    }
  }

  lemma CompactBetween(open: CodeUnit, body: Text, close: CodeUnit)
    requires Compact(body) && !IsSpace(open) && open != QUOTE && open != BACKSLASH
    requires !IsSpace(close) && close != QUOTE && close != BACKSLASH
    ensures Compact([open] + body + [close])
  {
    hide Compact;
    CompactUnit(open);
    CompactUnit(close);
    CompactConcat([open], body);
    CompactConcat([open] + body, [close]);
  }

  lemma CompactInt(n: SafeInt)
    ensures Compact(IntText(n))
  {
    hide Scan;
    var m: nat := if n < 0 then -n else n;
    DecTextDigits(m);
    ScanPlain(Outside, DecText(m));
    if n < 0 {
      CompactUnit(MINUS);
      CompactConcat([MINUS], DecText(m));
    }
  }

  /** The text of every value, at every depth, has no white space outside its strings. */
  lemma {:induction false} TextCompact(v: Json)
    ensures Compact(Encode(v))
    decreases v
  {
    hide Compact, Join, Members, SortByKey, IntText, StringText;
    match v
    case Num(n) => CompactInt(n);
    case Str(s) => CompactString(s);
    case Arr(items) =>
      var ts := EncodeItems(items);
      forall i | 0 <= i < |ts| ensures Compact(ts[i]) { TextCompact(items[i]); }
      CompactJoin(ts);
      CompactBetween(LBRACKET, Join(ts), RBRACKET);
    case Obj(fields) =>
      var es := EncodeFields(fields);
      forall e | e in es ensures Compact(e.value) {
        var i :| 0 <= i < |es| && es[i] == e;
        TextCompact(fields[i].value);
      }
      SortMembers(es);
      CompactMembers(SortByKey(es));
      CompactJoin(Members(SortByKey(es)));
      CompactBetween(LBRACE, Join(Members(SortByKey(es))), RBRACE);
    case _ => CompactLiteral(v);
  }

  lemma CompactLiteral(v: Json)
    requires v.Null? || v.Bool?
    ensures Compact(Encode(v))
  {
    ScanPlain(Outside, Encode(v));
  }
}
