/** The JSON texts that json.JSONDecoder.raw_decode reads, as a grammar (RFC 8259, sections 2 to 7), over every text: any
    spacing, any spelling of a string, repeated keys. */
module JsonGrammar {
  import opened Text
  import opened JsonCodec

  // ---------------------------------------------------------------- the grammar

  /** `s` is blanks and then `r`. */
  ghost predicate Blanks(s: string, r: string) {
    Ends(s, r) && forall i :: 0 <= i < |s| - |r| ==> s[i] in " \t\n\r"
  }

  /** A hexadecimal digit of either case. */
  ghost predicate HexDigit(c: char, d: nat) {
    d < 16 && LowerChar(c) == "0123456789abcdef"[d]
  }

  /** Four digits that spell `n`. */
  ghost predicate Hex(s: string, i: nat, n: nat) {
    && i + 4 <= |s| && n < 0x10000
    && HexDigit(s[i], n / 4096) && HexDigit(s[i + 1], n / 256 % 16) && HexDigit(s[i + 2], n / 16 % 16)
    && HexDigit(s[i + 3], n % 16)
  }

  /** What may follow a backslash: one of eight characters, a code unit that is no surrogate, or a surrogate pair. */
  ghost predicate Escape(s: string, c: char, r: string) {
    && Ends(s, r)
    && (OneCharacter(s, c, r) || CodeUnit(s, c, r) || SurrogatePair(s, c, r))
  }

  ghost predicate OneCharacter(s: string, c: char, r: string) {
    && |s| == |r| + 1
    && exists k :: 0 <= k < 8 && s[0] == "\"\\/bfnrt"[k] && c as int == [34, 92, 47, 8, 12, 10, 13, 9][k]
  }

  ghost predicate CodeUnit(s: string, c: char, r: string) {
    |s| == |r| + 5 && s[0] == 'u' && !(0xD800 <= c as int < 0xE000) && Hex(s, 1, c as int)
  }

  ghost predicate SurrogatePair(s: string, c: char, r: string) {
    && |s| == |r| + 11 && s[0] == 'u' && s[5] == '\\' && s[6] == 'u'
    && exists hi: nat, lo: nat ::
         && Hex(s, 1, hi) && Hex(s, 7, lo) && 0xD800 <= hi < 0xDC00 && 0xDC00 <= lo < 0xE000
         && c as int == 0x10000 + (hi - 0xD800) * 0x400 + (lo - 0xDC00)
  }

  /** The rest of a string literal with the value `text`: characters that are not control characters, escapes, a quote. */
  ghost predicate Literal(s: string, text: string, r: string)
    decreases |text|
  {
    if text == "" then s == "\"" + r
    else
      || (s != "" && s[0] == text[0] && s[0] >= ' ' && s[0] !in "\"\\" && Literal(s[1..], text[1..], r))
      || (s != "" && s[0] == '\\' && exists t :: Escape(s[1..], text[0], t) && Literal(t, text[1..], r))
  }

  predicate Numeric(ds: string) {
    ds != "" && (forall i :: 0 <= i < |ds| ==> '0' <= ds[i] <= '9') && (ds[0] == '0' ==> |ds| == 1)
  }

  ghost predicate NumberAs(s: string, ds: string, n: int, r: string) {
    && Numeric(ds) && (ds == "0" || r == "" || !('0' <= r[0] <= '9')) && (r == "" || r[0] !in ".eE")
    && ((s == ds + r && n == DigitsValue(ds)) || (s == "-" + ds + r && n + DigitsValue(ds) == 0))
  }

  /** An integer without leading zeros, as long as it can be, and without fraction or exponent behind it. */
  ghost predicate Number(s: string, n: int, r: string) {
    exists ds: string :: NumberAs(s, ds, n, r)
  }

  ghost predicate Scalar(s: string, v: Json, r: string) {
    match v
    case Null => s == "null" + r
    case Bool(flag) => s == (if flag then "true" else "false") + r
    case Int(n) => Number(s, n, r)
    case Str(text) => s != "" && s[0] == '"' && Literal(s[1..], text, r)
    case _ => false
  }

  /** `s` is a spelling of `v` and then `r`. */
  ghost predicate Value(s: string, v: Json, r: string)
    decreases |s|, 1
  {
    match v
    case Arr(items) => s != "" && s[0] == '[' && exists t ::
      Blanks(s[1..], t) && if items == [] then t == "]" + r else Items(t, items, r)
    case Dict(members) => s != "" && s[0] == '{' && exists t ::
      Blanks(s[1..], t) && (if members == map[] then t == "}" + r else Members(t, members, r))
    case _ => Scalar(s, v, r)
  }

  /** Items between commas and blanks, and the closing bracket. */
  ghost predicate Items(s: string, items: seq<Json>, r: string)
    decreases |s|, 2
  {
    items != [] && exists t, u ::
      Value(s, items[0], t) && |t| < |s| && Blanks(t, u) &&
      if |items| == 1 then u == "]" + r
      else u != "" && u[0] == ',' && exists w :: Blanks(u[1..], w) && Items(w, items[1..], r)
  }

  /** A key, a colon between blanks, and the value's text. */
  ghost predicate KeyOf(s: string, key: string, r: string) {
    s != "" && s[0] == '"' && exists t, u :: Literal(s[1..], key, t) && Blanks(t, u) && u != "" && u[0] == ':' && Blanks(u[1..], r)
  }

  /** Members between commas and blanks, and the closing brace; the last member of a name counts. */
  ghost predicate Members(s: string, members: map<string, Json>, r: string)
    decreases |s|, 2
  {
    exists key, v, t, u, w ::
      KeyOf(s, key, t) && |t| < |s| && Value(t, v, u) && |u| < |s| && Blanks(u, w) &&
      ((w == "}" + r && members == map[key := v])
       || (w != "" && w[0] == ',' && exists x, rest ::
             Blanks(w[1..], x) && Members(x, rest, r) && members == map[key := v] + rest))
  }

  // ---------------------------------------------------------------- blanks and strings

  lemma {:induction false} BlanksSkipped(s: string)
    ensures Blanks(s, SkipWs(s)) && (SkipWs(s) != "" ==> !IsJsonSpace(SkipWs(s)[0]))
    decreases |s|
  {
    if s != "" && IsJsonSpace(s[0]) {
      BlanksSkipped(s[1..]);
      var r := SkipWs(s);
      assert s[|s| - |r|..] == s[1..][|s| - 1 - |r|..];
      assert forall i :: 0 < i < |s| ==> s[i] == s[1..][i - 1];
    }
  }

  lemma {:induction false} BlanksAre(s: string, r: string)
    requires Blanks(s, r) && (r == "" || !IsJsonSpace(r[0]))
    ensures SkipWs(s) == r
    decreases |s|
  {
    if |s| > |r| {
      assert IsJsonSpace(s[0]);
      assert s[1..][|s| - 1 - |r|..] == s[|s| - |r|..];
      BlanksAre(s[1..], r);
    } else {
      assert s == r;
    }
  }

  lemma HexDigitExact(c: char, d: nat)
    ensures HexValue(c) == d && d < 16 <==> HexDigit(c, d)
  {
    var digits := "0123456789abcdef";
    assert digits[0] == '0' && digits[1] == '1' && digits[2] == '2' && digits[3] == '3' && digits[4] == '4' && digits[5] == '5'
      && digits[6] == '6' && digits[7] == '7' && digits[8] == '8' && digits[9] == '9' && digits[10] == 'a' && digits[11] == 'b'
      && digits[12] == 'c' && digits[13] == 'd' && digits[14] == 'e' && digits[15] == 'f';
  }

  lemma HexExact(s: string, i: nat, n: nat)
    requires i <= |s|
    ensures ReadHex4(s[i..]) == Some(n) <==> Hex(s, i, n)
  {
    hide HexValue, HexDigit;
    if i + 4 <= |s| {
      assert s[i..][0] == s[i] && s[i..][1] == s[i + 1] && s[i..][2] == s[i + 2] && s[i..][3] == s[i + 3];
      HexDigitExact(s[i], HexValue(s[i]));
      HexDigitExact(s[i + 1], HexValue(s[i + 1]));
      HexDigitExact(s[i + 2], HexValue(s[i + 2]));
      HexDigitExact(s[i + 3], HexValue(s[i + 3]));
      HexDigitExact(s[i], n / 4096);
      HexDigitExact(s[i + 1], n / 256 % 16);
      HexDigitExact(s[i + 2], n / 16 % 16);
      HexDigitExact(s[i + 3], n % 16);
      FourDigits(n, HexValue(s[i]), HexValue(s[i + 1]), HexValue(s[i + 2]), HexValue(s[i + 3]));
    }
  }

  lemma LastDigit(q: nat, d: nat)
    requires d < 16
    ensures (16 * q + d) / 16 == q && (16 * q + d) % 16 == d
  {
  }

  lemma Nested(n: nat)
    ensures n / 16 / 16 == n / 256 && n / 256 / 16 == n / 4096
    ensures n == 16 * (n / 16) + n % 16 && n / 16 == 16 * (n / 256) + n / 16 % 16 && n / 256 == 16 * (n / 4096) + n / 256 % 16
  {
  }

  lemma FourDigits(n: nat, a: nat, b: nat, c: nat, d: nat)
    ensures a < 16 && b < 16 && c < 16 && d < 16 && n == 4096 * a + 256 * b + 16 * c + d ==>
      n < 0x10000 && n / 4096 == a && n / 256 % 16 == b && n / 16 % 16 == c && n % 16 == d
    ensures n / 4096 == a && n / 256 % 16 == b && n / 16 % 16 == c && n % 16 == d ==>
      n == 4096 * a + 256 * b + 16 * c + d
  {
    Nested(n);
    if a < 16 && b < 16 && c < 16 && d < 16 && n == 4096 * a + 256 * b + 16 * c + d {
      LastDigit(256 * a + 16 * b + c, d);
      LastDigit(16 * a + b, c);
      LastDigit(a, b);
    }
  }

  lemma OneExact(s: string, c: char, r: string)
    requires s != "" && s[0] != 'u'
    ensures ReadEscape(s) == Some((c, r)) <==> Ends(s, r) && OneCharacter(s, c, r)
  {
    var letters := "\"\\/bfnrt";
    assert letters[0] == '"' && letters[1] == '\\' && letters[2] == '/' && letters[3] == 'b' && letters[4] == 'f'
      && letters[5] == 'n' && letters[6] == 'r' && letters[7] == 't';
    assert |s| == |r| + 1 ==> s[|s| - |r|..] == s[1..];
  }

  lemma NotOne(s: string, c: char, r: string)
    requires s != "" && s[0] == 'u'
    ensures !OneCharacter(s, c, r)
  {
  }

  lemma UnitExact(s: string, c: char, r: string)
    requires s != "" && s[0] == 'u' && ReadHex4(s[1..]).Some?
    requires var hi := ReadHex4(s[1..]).value; hi < 0xD800 || 0xE000 <= hi
    ensures ReadEscape(s) == Some((c, r)) <==> Ends(s, r) && CodeUnit(s, c, r)
    ensures !SurrogatePair(s, c, r)
  {
    var hi := ReadHex4(s[1..]).value;
    HexExact(s, 1, hi);
    HexExact(s, 1, c as int);
    forall n: nat | Hex(s, 1, n) ensures n == hi {
      HexExact(s, 1, n);
    }
    hide Hex, ReadHex4;
  }

  lemma HexUnique(s: string, i: nat, n: nat, m: nat)
    requires i <= |s| && Hex(s, i, n) && Hex(s, i, m)
    ensures n == m
  {
    HexExact(s, i, n);
    HexExact(s, i, m);
    hide Hex, ReadHex4;
  }

  lemma SecondUnit(s: string)
    requires |s| >= 7
    ensures StartsAt(s, 5, "\\u") <==> s[5] == '\\' && s[6] == 'u'
  {
    assert StartsAt(s, 5, "\\u") <==> s[5] == "\\u"[0] && s[6] == "\\u"[1];
  }

  lemma PairParts(s: string)
    requires s != "" && s[0] == 'u' && ReadEscape(s).Some? && ReadHex4(s[1..]).Some?
    requires 0xD800 <= ReadHex4(s[1..]).value < 0xE000
    ensures |s| >= 11 && StartsAt(s, 5, "\\u") && ReadHex4(s[7..]).Some?
    ensures var (c, r), hi, lo := ReadEscape(s).value, ReadHex4(s[1..]).value, ReadHex4(s[7..]).value;
      hi < 0xDC00 && 0xDC00 <= lo < 0xE000 && r == s[11..] && c as int == 0x10000 + (hi - 0xD800) * 0x400 + (lo - 0xDC00)
  {
    hide HexValue;
  }

  lemma PairFound(s: string, c: char, r: string)
    requires s != "" && s[0] == 'u' && ReadHex4(s[1..]).Some? && 0xD800 <= ReadHex4(s[1..]).value < 0xE000
    requires ReadEscape(s) == Some((c, r))
    ensures Ends(s, r) && SurrogatePair(s, c, r)
  {
    hide Hex, ReadHex4, StartsAt, ReadEscape;
    PairParts(s);
    SecondUnit(s);
    HexExact(s, 1, ReadHex4(s[1..]).value);
    HexExact(s, 7, ReadHex4(s[7..]).value);
  }

  lemma PairRead(s: string, c: char, r: string)
    requires Ends(s, r) && SurrogatePair(s, c, r)
    ensures ReadEscape(s) == Some((c, r))
  {
    hide Hex, ReadHex4, StartsAt;
    var hi: nat, lo: nat :| Hex(s, 1, hi) && Hex(s, 7, lo) && 0xD800 <= hi < 0xDC00 && 0xDC00 <= lo < 0xE000
      && c as int == 0x10000 + (hi - 0xD800) * 0x400 + (lo - 0xDC00);
    HexExact(s, 1, hi);
    HexExact(s, 7, lo);
    SecondUnit(s);
  }

  lemma PairExact(s: string, c: char, r: string)
    requires s != "" && s[0] == 'u' && ReadHex4(s[1..]).Some? && 0xD800 <= ReadHex4(s[1..]).value < 0xE000
    ensures ReadEscape(s) == Some((c, r)) <==> Ends(s, r) && SurrogatePair(s, c, r)
    ensures !CodeUnit(s, c, r)
  {
    hide Hex, ReadHex4, ReadEscape, SurrogatePair, Ends;
    var hi := ReadHex4(s[1..]).value;
    HexExact(s, 1, hi);
    if CodeUnit(s, c, r) {
      HexUnique(s, 1, hi, c as int);
    }
    if ReadEscape(s) == Some((c, r)) {
      PairFound(s, c, r);
    }
    if Ends(s, r) && SurrogatePair(s, c, r) {
      PairRead(s, c, r);
    }
  }

  lemma EscapeExact(s: string, c: char, r: string)
    ensures ReadEscape(s) == Some((c, r)) <==> Escape(s, c, r)
  {
    hide ReadHex4, Hex, OneCharacter, CodeUnit, SurrogatePair, Ends;
    if s == "" {
      NoEscape(c, r);
    } else if s[0] != 'u' {
      OneExact(s, c, r);
      NotUnicode(s, c, r);
    } else {
      NotOne(s, c, r);
      match ReadHex4(s[1..])
      case None => NoUnit(s, c, r);
      case Some(hi) =>
        if hi < 0xD800 || 0xE000 <= hi {
          UnitExact(s, c, r);
        } else {
          PairExact(s, c, r);
        }
    }
  }

  lemma NoEscape(c: char, r: string)
    ensures !Escape("", c, r)
  {
  }

  lemma NotUnicode(s: string, c: char, r: string)
    requires s != "" && s[0] != 'u'
    ensures !CodeUnit(s, c, r) && !SurrogatePair(s, c, r)
  {
    hide Hex;
  }

  lemma NoUnit(s: string, c: char, r: string)
    requires s != "" && s[0] == 'u' && ReadHex4(s[1..]).None?
    ensures !CodeUnit(s, c, r) && !SurrogatePair(s, c, r) && ReadEscape(s) == None
  {
    forall n: nat ensures !Hex(s, 1, n) {
      HexExact(s, 1, n);
    }
    hide Hex, ReadHex4;
  }

  lemma {:induction false} LiteralFound(s: string)
    requires ReadString(s).Some?
    ensures Literal(s, ReadString(s).value.0, ReadString(s).value.1)
    decreases |s|
  {
    hide ReadEscape, Escape;
    var (text, r) := ReadString(s).value;
    if s[0] == '"' {
      assert s == "\"" + s[1..];
    } else if s[0] == '\\' {
      var (c, t) := ReadEscape(s[1..]).value;
      EscapeExact(s[1..], c, t);
      LiteralFound(t);
      var rest := ReadString(t).value.0;
      assert text == [c] + rest && text[1..] == rest;
    } else {
      LiteralFound(s[1..]);
      var rest := ReadString(s[1..]).value.0;
      assert text == [s[0]] + rest && text[1..] == rest;
    }
  }

  lemma {:induction false} LiteralRead(s: string, text: string, r: string)
    requires Literal(s, text, r)
    ensures ReadString(s) == Some((text, r))
    decreases |text|
  {
    hide ReadEscape, Escape;
    if text == "" {
      assert s[1..] == r;
    } else {
      assert text == [text[0]] + text[1..];
      if s[0] == '\\' {
        var t :| Escape(s[1..], text[0], t) && Literal(t, text[1..], r);
        EscapeExact(s[1..], text[0], t);
        LiteralRead(t, text[1..], r);
      } else {
        LiteralRead(s[1..], text[1..], r);
      }
    }
  }

  lemma LiteralExact(s: string, text: string, r: string)
    ensures ReadString(s) == Some((text, r)) <==> Literal(s, text, r)
  {
    hide ReadString, Literal;
    if ReadString(s).Some? {
      LiteralFound(s);
    }
    if Literal(s, text, r) {
      LiteralRead(s, text, r);
    }
  }

  // ---------------------------------------------------------------- numbers and words

  lemma {:induction false} DigitsTaken(ds: string, r: string)
    requires (forall i :: 0 <= i < |ds| ==> IsDigit(ds[i])) && (r == "" || !IsDigit(r[0]))
    ensures TakeDigits(ds + r) == ds
    decreases |ds|
  {
    if ds == "" {
      assert ds + r == r;
    } else {
      assert (ds + r)[1..] == ds[1..] + r;
      DigitsTaken(ds[1..], r);
    }
  }

  lemma NumberRead(s: string, ds: string, n: int, r: string)
    requires NumberAs(s, ds, n, r)
    ensures ReadInt(s) == Some((n, r))
  {
    hide DigitsValue, TakeDigits;
    var body := ds + r;
    assert body[0] == ds[0] && body[|ds|..] == r;
    if s != body {
      assert s == "-" + body;
      assert s[1..] == body && s[0] == '-';
    }
    if ds == "0" {
      FirstDigit(body);
    } else {
      DigitsTaken(ds, r);
    }
  }

  lemma FirstDigit(s: string)
    requires s != "" && IsDigit(s[0])
    ensures TakeDigits(s) != "" && TakeDigits(s)[0] == s[0]
  {
  }

  lemma NumberFound(s: string)
    requires ReadInt(s).Some?
    ensures Number(s, ReadInt(s).value.0, ReadInt(s).value.1)
  {
    hide DigitsValue, TakeDigits;
    var negative := s[0] == '-';
    var body := if negative then s[1..] else s;
    var run := TakeDigits(body);
    var ds := if run[0] == '0' then "0" else run;
    var r := body[|ds|..];
    assert body[..|ds|] == ds;
    Whole(s, negative, ds, body, r);
    assert Numeric(ds);
    assert NumberAs(s, ds, ReadInt(s).value.0, r);
  }

  lemma Whole(s: string, negative: bool, ds: string, body: string, r: string)
    requires |ds| <= |body| && body[..|ds|] == ds && body[|ds|..] == r
    requires s != "" && if negative then s[0] == '-' && body == s[1..] else body == s
    ensures s == if negative then "-" + ds + r else ds + r
  {
    assert body == ds + r;
  }

  lemma NumberExact(s: string, n: int, r: string)
    ensures ReadInt(s) == Some((n, r)) <==> Number(s, n, r)
  {
    hide ReadInt, NumberAs;
    if ReadInt(s).Some? {
      NumberFound(s);
    }
    if ds: string :| NumberAs(s, ds, n, r) {
      NumberRead(s, ds, n, r);
    }
  }

  lemma WordExact(s: string, word: string, r: string)
    ensures s == word + r <==> StartsAt(s, 0, word) && s[|word|..] == r
  {
    StartsIsSlice(s, 0, word);
    assert s == word + r ==> s[..|word|] == word && s[|word|..] == r;
  }

  lemma NumberStarts(s: string, n: int, r: string)
    requires Number(s, n, r)
    ensures s != "" && (s[0] == '-' || '0' <= s[0] <= '9')
  {
    hide DigitsValue;
    var ds: string :| NumberAs(s, ds, n, r);
    assert s == ds + r ==> s[0] == ds[0];
  }

  lemma ScalarExact(s: string, v: Json, r: string)
    ensures ReadScalar(s) == Some((v, r)) <==> Scalar(s, v, r)
  {
    hide ReadString, ReadInt, Literal, Number, StartsAt;
    WordsDiffer(s);
    WordExact(s, "null", r);
    WordExact(s, "true", r);
    WordExact(s, "false", r);
    if v.Str? && s != "" {
      LiteralExact(s[1..], v.text, r);
    }
    if v.Int? {
      NumberExact(s, v.number, r);
      if Number(s, v.number, r) {
        NumberStarts(s, v.number, r);
      }
    }
  }

  lemma WordsDiffer(s: string)
    ensures StartsAt(s, 0, "null") ==> s[0] == 'n'
    ensures StartsAt(s, 0, "true") ==> s[0] == 't'
    ensures StartsAt(s, 0, "false") ==> s[0] == 'f'
  {
    assert "null"[0] == 'n' && "true"[0] == 't' && "false"[0] == 'f';
  }

  lemma ScalarStarts(s: string, v: Json, r: string)
    requires Scalar(s, v, r)
    ensures s != "" && !IsJsonSpace(s[0]) && s[0] != '[' && s[0] != '{' && s[0] != ']' && s[0] != '}'
  {
    hide Number, Literal;
    match v
    case Null => assert s[0] == "null"[0];
    case Bool(flag) => assert s[0] == (if flag then "true" else "false")[0];
    case Int(n) => NumberStarts(s, n, r);
    case Str(_) =>
  }

  lemma ValueStarts(s: string, v: Json, r: string)
    requires Value(s, v, r)
    ensures s != "" && !IsJsonSpace(s[0]) && s[0] != ']' && s[0] != '}'
    ensures s[0] == '[' <==> v.Arr?
    ensures s[0] == '{' <==> v.Dict?
  {
    hide Scalar, Items, Members;
    if !v.Arr? && !v.Dict? {
      ScalarStarts(s, v, r);
    }
  }

  // ---------------------------------------------------------------- arrays and objects

  lemma KeyFound(s: string)
    requires ReadKey(s).Some?
    ensures KeyOf(s, ReadKey(s).value.0, ReadKey(s).value.1)
  {
    hide ReadString, SkipWs, Literal, Blanks;
    var (key, t) := ReadString(s[1..]).value;
    LiteralFound(s[1..]);
    BlanksSkipped(t);
    BlanksSkipped(SkipWs(t)[1..]);
  }

  lemma KeyRead(s: string, key: string, r: string)
    requires KeyOf(s, key, r) && r != "" && !IsJsonSpace(r[0])
    ensures ReadKey(s) == Some((key, r))
  {
    hide ReadString, SkipWs, Literal, Blanks;
    var t, u :| Literal(s[1..], key, t) && Blanks(t, u) && u != "" && u[0] == ':' && Blanks(u[1..], r);
    LiteralRead(s[1..], key, t);
    BlanksAre(t, u);
    BlanksAre(u[1..], r);
  }

  lemma {:induction false} ValueFound(s: string)
    requires ReadValue(s).Some?
    ensures Value(s, ReadValue(s).value.0, ReadValue(s).value.1)
    decreases |s|, 1
  {
    hide ReadScalar, Scalar, SkipWs, Blanks, ReadItems, ReadMembers, Items, Members;
    var (v, r) := ReadValue(s).value;
    if s == "" || (s[0] != '[' && s[0] != '{') {
      ScalarExact(s, v, r);
      ScalarKind(s, v, r);
    } else {
      var t := SkipWs(s[1..]);
      BlanksSkipped(s[1..]);
      if t != "" && t[0] == (if s[0] == '[' then ']' else '}') {
        assert t == (if s[0] == '[' then "]" else "}") + r;
      } else if s[0] == '[' {
        ItemsFound(t);
        SomeItems(t, v.items, r);
      } else {
        MembersFound(t);
        SomeMembers(t, v.members, r);
      }
    }
  }

  lemma ScalarKind(s: string, v: Json, r: string)
    requires Scalar(s, v, r)
    ensures !v.Arr? && !v.Dict?
  {
  }

  lemma SomeItems(s: string, items: seq<Json>, r: string)
    requires Items(s, items, r)
    ensures items != []
  {
  }

  lemma SomeMembers(s: string, members: map<string, Json>, r: string)
    requires Members(s, members, r)
    ensures members != map[]
  {
    hide Value, KeyOf, Blanks;
    var key, v, t, u, w :| KeyOf(s, key, t) && |t| < |s| && Value(t, v, u) && |u| < |s| && Blanks(u, w) &&
      ((w == "}" + r && members == map[key := v])
       || (w != "" && w[0] == ',' && exists x, rest ::
             Blanks(w[1..], x) && Members(x, rest, r) && members == map[key := v] + rest));
    assert key in members;
  }

  lemma {:induction false} ItemsFound(s: string)
    requires ReadItems(s).Some?
    ensures Items(s, ReadItems(s).value.0, ReadItems(s).value.1)
    decreases |s|, 2
  {
    hide ReadValue, Value, SkipWs, Blanks;
    var (items, r) := ReadItems(s).value;
    var (item, t) := ReadValue(s).value;
    ValueFound(s);
    var u := SkipWs(t);
    BlanksSkipped(t);
    if u[0] == ']' {
      assert u == "]" + r;
    } else {
      var w := SkipWs(u[1..]);
      BlanksSkipped(u[1..]);
      ItemsFound(w);
      assert items == [item] + ReadItems(w).value.0 && items[1..] == ReadItems(w).value.0;
      SomeItems(w, items[1..], r);
    }
  }

  lemma {:induction false} MembersFound(s: string)
    requires ReadMembers(s).Some?
    ensures Members(s, ReadMembers(s).value.0, ReadMembers(s).value.1)
    decreases |s|, 2
  {
    hide ReadValue, Value, SkipWs, Blanks, ReadKey, KeyOf;
    var (members, r) := ReadMembers(s).value;
    var (key, t) := ReadKey(s).value;
    KeyFound(s);
    var (v, u) := ReadValue(t).value;
    ValueFound(t);
    var w := SkipWs(u);
    BlanksSkipped(u);
    if w[0] == '}' {
      assert w == "}" + r;
    } else {
      var x := SkipWs(w[1..]);
      BlanksSkipped(w[1..]);
      MembersFound(x);
    }
  }

  lemma {:induction false} ValueFollows(s: string, v: Json, r: string)
    requires Value(s, v, r)
    ensures ReadValue(s) == Some((v, r))
    decreases |s|, 1
  {
    hide ReadScalar, Scalar, SkipWs, Blanks, ReadItems, ReadMembers, Items, Members;
    match v
    case Arr(items) =>
      var t :| Blanks(s[1..], t) && if items == [] then t == "]" + r else Items(t, items, r);
      if items == [] {
        BlanksAre(s[1..], t);
        assert t[1..] == r;
      } else {
        ItemsStart(t, items, r);
        BlanksAre(s[1..], t);
        ItemsFollow(t, items, r);
      }
    case Dict(members) =>
      var t :| Blanks(s[1..], t) && (if members == map[] then t == "}" + r else Members(t, members, r));
      if members == map[] {
        BlanksAre(s[1..], t);
        assert t[1..] == r;
      } else {
        MembersStart(t, members, r);
        BlanksAre(s[1..], t);
        MembersFollow(t, members, r);
      }
    case _ =>
      ScalarExact(s, v, r);
      ScalarStarts(s, v, r);
  }

  lemma ItemsStart(s: string, items: seq<Json>, r: string)
    requires Items(s, items, r)
    ensures s != "" && !IsJsonSpace(s[0]) && s[0] != ']'
  {
    hide Value, Blanks;
    var t, u :| Value(s, items[0], t) && |t| < |s| && Blanks(t, u) &&
      if |items| == 1 then u == "]" + r
      else u != "" && u[0] == ',' && exists w :: Blanks(u[1..], w) && Items(w, items[1..], r);
    ValueStarts(s, items[0], t);
  }

  lemma MembersStart(s: string, members: map<string, Json>, r: string)
    requires Members(s, members, r)
    ensures s != "" && s[0] == '"'
  {
    hide Value, Blanks, Literal;
  }

  lemma ItemsParts(s: string, items: seq<Json>, r: string) returns (t: string, u: string, w: string)
    requires Items(s, items, r)
    ensures items != [] && Value(s, items[0], t) && |t| < |s| && Blanks(t, u)
    ensures if |items| == 1 then u == "]" + r else u != "" && u[0] == ',' && Blanks(u[1..], w) && Items(w, items[1..], r)
  {
    hide Value, Blanks;
    t, u :| Value(s, items[0], t) && |t| < |s| && Blanks(t, u) &&
      if |items| == 1 then u == "]" + r
      else u != "" && u[0] == ',' && exists w :: Blanks(u[1..], w) && Items(w, items[1..], r);
    w := "";
    if |items| != 1 {
      w :| Blanks(u[1..], w) && Items(w, items[1..], r);
    }
  }

  lemma {:induction false} ItemsFollow(s: string, items: seq<Json>, r: string)
    requires Items(s, items, r)
    ensures ReadItems(s) == Some((items, r))
    decreases |s|, 2
  {
    hide ReadValue, Value, SkipWs, Blanks, Items;
    var t, u, w := ItemsParts(s, items, r);
    ValueFollows(s, items[0], t);
    BlanksAre(t, u);
    if |items| == 1 {
      assert u[1..] == r && items == [items[0]];
    } else {
      ItemsStart(w, items[1..], r);
      BlanksAre(u[1..], w);
      Shorter(t, u);
      Shorter(u[1..], w);
      ItemsFollow(w, items[1..], r);
      assert items == [items[0]] + items[1..];
    }
  }

  lemma Shorter(s: string, r: string)
    requires Blanks(s, r)
    ensures |r| <= |s|
  {
  }

  lemma {:induction false} MembersFollow(s: string, members: map<string, Json>, r: string)
    requires Members(s, members, r)
    ensures ReadMembers(s) == Some((members, r))
    decreases |s|, 2
  {
    hide ReadValue, Value, SkipWs, Blanks, ReadKey, KeyOf;
    var key, v, t, u, w :| KeyOf(s, key, t) && |t| < |s| && Value(t, v, u) && |u| < |s| && Blanks(u, w) &&
      ((w == "}" + r && members == map[key := v])
       || (w != "" && w[0] == ',' && exists x, rest ::
             Blanks(w[1..], x) && Members(x, rest, r) && members == map[key := v] + rest));
    ValueStarts(t, v, u);
    KeyRead(s, key, t);
    ValueFollows(t, v, u);
    BlanksAre(u, w);
    if w[0] == '}' {
      assert w[1..] == r;
    } else {
      var x, rest :| Blanks(w[1..], x) && Members(x, rest, r) && members == map[key := v] + rest;
      MembersStart(x, rest, r);
      BlanksAre(w[1..], x);
      Shorter(u, w);
      Shorter(w[1..], x);
      MembersFollow(x, rest, r);
    }
  }

  /** Over every text: the decoder reads a value and leaves a rest exactly when the text is a spelling of that value and
      then the rest. */
  lemma ReaderExact(s: string, v: Json, r: string)
    ensures ReadValue(s) == Some((v, r)) <==> Value(s, v, r)
  {
    hide ReadValue, Value;
    if ReadValue(s).Some? {
      ValueFound(s);
    }
    if Value(s, v, r) {
      ValueFollows(s, v, r);
    }
  }
}
