/** The documents that ElementTree reads, as a grammar (XML 1.0, sections 2.2 to 4.1), over every text: names, attributes,
    references, sections, comments and nesting, before namespaces are resolved. */
module XmlSyntax {
  import opened Text
  import opened XmlTree

  // ---------------------------------------------------------------- the grammar

  ghost predicate Spaces(s: string, r: string) {
    Ends(s, r) && forall i :: 0 <= i < |s| - |r| ==> s[i] in " \t\n\r"
  }

  predicate Lead(c: char) {
    'a' <= c <= 'z' || 'A' <= c <= 'Z' || c == '_' || c as int >= 0xC0
  }

  predicate Letter(c: char) {
    Lead(c) || c in "0123456789-." || c as int == 0xB7
  }

  predicate Letters(s: string) {
    forall i :: 0 <= i < |s| ==> Letter(s[i])
  }

  /** A name, or two with a colon between them, as long as it can be. */
  ghost predicate Named(s: string, name: string, r: string) {
    && s == name + r && (r == "" || !Letter(r[0]))
    && ((Letters(name) && !(|r| > 1 && r[0] == ':' && Lead(r[1])))
        || exists a, b :: name == a + ":" + b && Letters(a) && Letters(b) && b != "" && Lead(b[0]))
  }

  predicate Digit(c: char, base: nat) {
    '0' <= c <= '9' || (base == 16 && ('a' <= c <= 'f' || 'A' <= c <= 'F'))
  }

  predicate Digits(ds: string, base: nat) {
    ds != "" && forall i :: 0 <= i < |ds| ==> Digit(ds[i], base)
  }

  /** What the digits are worth after a number that stands before them. */
  function Worth(before: nat, ds: string, base: nat): nat
    requires forall i :: 0 <= i < |ds| ==> Digit(ds[i], base)
  {
    if ds == "" then before
    else
      var c := ds[|ds| - 1];
      assert Digit(c, base);
      base * Worth(before, ds[..|ds| - 1], base) +
        (if c <= '9' then c as int - 48 else if c <= 'F' then c as int - 55 else c as int - 87)
  }

  /** A character reference in one base: what stands before its digits, the digits, a semicolon. */
  ghost predicate CodeRef(u: string, head: string, base: nat, c: char) {
    exists ds: string :: Digits(ds, base) && u == head + ds + ";" && Worth(0, ds, base) == c as int
  }

  /** The character that a reference stands for. */
  ghost predicate Refers(u: string, c: char) {
    || (u == "&lt;" && c == '<') || (u == "&gt;" && c == '>') || (u == "&amp;" && c == '&')
    || (u == "&quot;" && c == '"') || (u == "&apos;" && c == '\'')
    || (LegalChar(c) && (CodeRef(u, "&#", 10, c) || CodeRef(u, "&#x", 16, c)))
  }

  /** A text whose characters are written out or as references, without a section end. */
  ghost predicate Spelled(s: string, text: string)
    decreases |text|
  {
    if text == "" then s == ""
    else
      && s != "" && !StartsAt(s, 0, "]]>")
      && if s[0] != '&' then s[0] == text[0] && Spelled(s[1..], text[1..])
         else exists u, r :: s == u + r && Refers(u, text[0]) && Spelled(r, text[1..])
  }

  /** The same for an attribute value, where white space that is written out reads as a space. */
  ghost predicate SpelledValue(s: string, text: string)
    decreases |text|
  {
    if text == "" then s == ""
    else
      && s != ""
      && if s[0] != '&' then text[0] == (if s[0] in " \t\n\r" then ' ' else s[0]) && SpelledValue(s[1..], text[1..])
         else exists u, r :: s == u + r && Refers(u, text[0]) && SpelledValue(r, text[1..])
  }

  ghost predicate Quoted(s: string, value: string, r: string) {
    exists q: char, body: string ::
      && q in "\"'" && s == [q] + body + [q] + r && q !in body && '<' !in body && SpelledValue(NormalizeNewlines(body), value)
  }

  ghost predicate Attribute(s: string, name: string, value: string, r: string) {
    && s != "" && Lead(s[0])
    && exists t, u, v :: Named(s, name, t) && Spaces(t, u) && u != "" && u[0] == '=' && Spaces(u[1..], v) && Quoted(v, value, r)
  }

  /** Attributes of different names, each behind blanks, and the end of the tag. */
  ghost predicate Attributes(s: string, attributes: map<string, string>, closed: bool, r: string)
    decreases |s|
  {
    exists t :: Spaces(s, t) &&
      ((attributes == map[] && t == (if closed then "/>" else ">") + r)
       || (|t| < |s| && exists name, value, next, others ::
             Attribute(t, name, value, next) && |next| < |s| && Attributes(next, others, closed, r)
             && name !in others && attributes == others[name := value]))
  }

  ghost predicate EndTag(name: string, s: string, r: string) {
    exists t :: StartsAt(s, 0, "</") && Named(s[2..], name, t) && Spaces(t, ">" + r)
  }

  /** An element and then `r`. */
  ghost predicate ElementOf(s: string, e: Element, r: string)
    decreases |s|, 0
  {
    && |s| > 1 && s[0] == '<' && Lead(s[1])
    && exists t, closed, u ::
         Named(s[1..], e.name, t) && Attributes(t, e.attributes, closed, u) && |u| < |s| &&
         if closed then e.content == [] && u == r
         else exists w :: Content(u, e.content, w) && EndTag(e.name, w, r)
  }

  /** Items up to an end tag, which is what follows them. */
  ghost predicate Content(s: string, items: seq<Item>, r: string)
    decreases |s|, 2
  {
    if StartsAt(s, 0, "</") then items == [] && r == s
    else exists one, t, more :: Piece(s, one, t) && |t| < |s| && Content(t, more, r) && items == one + more
  }

  ghost predicate SectionOf(s: string, one: seq<Item>, r: string) {
    exists body: string ::
      && s == "<![CDATA[" + body + "]]>" + r && one == [Chars(NormalizeNewlines(body))]
      && forall k :: 9 <= k < 9 + |body| ==> !StartsAt(s, k, "]]>")
  }

  ghost predicate CommentOf(s: string, r: string) {
    exists body: string :: s == "<!--" + body + "-->" + r && forall k :: 4 <= k < 4 + |body| ==> !StartsAt(s, k, "--")
  }

  ghost predicate TextOf(s: string, text: string, r: string) {
    exists body: string ::
      s == body + r && body != "" && '<' !in body && r != "" && r[0] == '<' && Spelled(NormalizeNewlines(body), text)
  }

  /** A section, a comment, which is nothing, an element, or text up to the next markup. */
  ghost predicate Piece(s: string, one: seq<Item>, r: string)
    decreases |s|, 1
  {
    || SectionOf(s, one, r)
    || (one == [] && CommentOf(s, r))
    || (|one| == 1 && one[0].Child? && ElementOf(s, one[0].element, r))
    || (|one| == 1 && one[0].Chars? && TextOf(s, one[0].text, r))
  }

  // ---------------------------------------------------------------- blanks and names

  lemma {:induction false} SpacesSkipped(s: string)
    ensures Spaces(s, SkipXmlSpace(s)) && (SkipXmlSpace(s) != "" ==> !XmlSpace(SkipXmlSpace(s)[0]))
    decreases |s|
  {
    if s != "" && XmlSpace(s[0]) {
      SpacesSkipped(s[1..]);
      var r := SkipXmlSpace(s);
      assert s[|s| - |r|..] == s[1..][|s| - 1 - |r|..];
      assert forall i :: 0 < i < |s| ==> s[i] == s[1..][i - 1];
    }
  }

  lemma {:induction false} SpacesAre(s: string, r: string)
    requires Spaces(s, r) && (r == "" || !XmlSpace(r[0]))
    ensures SkipXmlSpace(s) == r
    decreases |s|
  {
    if |s| > |r| {
      assert XmlSpace(s[0]);
      assert s[1..][|s| - 1 - |r|..] == s[|s| - |r|..];
      SpacesAre(s[1..], r);
    } else {
      assert s == r;
    }
  }

  lemma CharClasses(c: char)
    ensures NameStart(c) <==> Lead(c)
    ensures NameChar(c) <==> Letter(c)
  {
  }

  lemma {:induction false} NameTaken(name: string, r: string)
    requires Letters(name) && (r == "" || !Letter(r[0]))
    ensures TakeName(name + r) == name
    decreases |name|
  {
    hide Letter, NameChar;
    if name == "" {
      assert name + r == r;
      if r != "" {
        CharClasses(r[0]);
      }
    } else {
      CharClasses(name[0]);
      assert (name + r)[0] == name[0] && (name + r)[1..] == name[1..] + r;
      NameTaken(name[1..], r);
      assert name == [name[0]] + name[1..];
    }
  }

  lemma NameIs(s: string)
    ensures var a := TakeName(s);
      s == a + s[|a|..] && Letters(a) && (|a| < |s| ==> !Letter(s[|a|]))
  {
    hide Letter, NameChar;
    var a := TakeName(s);
    forall i | 0 <= i < |a| ensures Letter(a[i]) {
      CharClasses(a[i]);
    }
    if |a| < |s| {
      CharClasses(s[|a|]);
    }
  }

  lemma NamedTaken(s: string)
    ensures Named(s, TakeQName(s), s[|TakeQName(s)|..])
  {
    hide Letter, NameChar, Lead, NameStart, Letters;
    var a := TakeName(s);
    var rest := s[|a|..];
    NameIs(s);
    if |rest| > 1 && rest[0] == ':' && NameStart(rest[1]) {
      SecondTaken(s, a, rest);
    } else if |rest| > 1 {
      CharClasses(rest[1]);
    }
  }

  lemma SecondTaken(s: string, a: string, rest: string)
    requires a == TakeName(s) && rest == s[|a|..] && Letters(a) && |rest| > 1 && rest[0] == ':' && NameStart(rest[1])
    ensures Named(s, a + ":" + TakeName(rest[1..]), s[|a + ":" + TakeName(rest[1..])|..])
  {
    NameIs(rest[1..]);
    CharClasses(rest[1]);
    LeadIsLetter(rest[1]);
    var b := TakeName(rest[1..]);
    assert b != "" && b[0] == rest[1];
    hide Letter, NameChar, Lead, NameStart, Letters, TakeName;
    assert s == a + rest && rest == ":" + rest[1..];
    Regroup(s, a, b, rest, rest[1..][|b|..]);
  }

  lemma Regroup(s: string, a: string, b: string, rest: string, r: string)
    requires s == a + rest && rest == ":" + (b + r)
    ensures s == a + ":" + b + r && s[|a + ":" + b|..] == r
  {
    assert s == (a + ":" + b) + r;
  }

  lemma LeadIsLetter(c: char)
    ensures Lead(c) ==> Letter(c)
    ensures !Letter(':')
  {
  }

  lemma OneName(s: string, name: string, r: string)
    requires s == name + r && (r == "" || !Letter(r[0])) && Letters(name) && !(|r| > 1 && r[0] == ':' && Lead(r[1]))
    ensures TakeQName(s) == name && s[|name|..] == r
  {
    NameTaken(name, r);
    if |r| > 1 {
      CharClasses(r[1]);
    }
    hide Letter, NameChar, Lead, NameStart, Letters;
    assert s[|name|..] == r;
  }

  lemma TwoNames(s: string, a: string, b: string, r: string)
    requires s == a + ":" + b + r && (r == "" || !Letter(r[0])) && Letters(a) && Letters(b) && b != "" && Lead(b[0])
    ensures TakeQName(s) == a + ":" + b
  {
    hide Letter, NameChar, Lead, NameStart, Letters;
    var rest := ":" + (b + r);
    assert s == a + rest && rest[0] == ':' && rest[1..] == b + r && rest[1] == b[0];
    LeadIsLetter(b[0]);
    CharClasses(b[0]);
    NameTaken(a, rest);
    NameTaken(b, r);
    assert s[|a|..] == rest;
  }

  lemma NamedFollows(s: string, name: string, r: string)
    requires Named(s, name, r)
    ensures TakeQName(s) == name && s[|name|..] == r
  {
    hide Letter, NameChar, Lead, NameStart, Letters, TakeQName;
    if Letters(name) && !(|r| > 1 && r[0] == ':' && Lead(r[1])) {
      OneName(s, name, r);
    } else {
      var a, b :| name == a + ":" + b && Letters(a) && Letters(b) && b != "" && Lead(b[0]);
      TwoNames(s, a, b, r);
    }
  }

  // ---------------------------------------------------------------- references

  lemma DigitWorth(c: char, base: nat)
    requires base == 10 || base == 16
    ensures DigitIn(c, base).Some? <==> Digit(c, base)
    ensures Digit(c, base) ==>
      DigitIn(c, base) == Some(if c <= '9' then c as int - 48 else if c <= 'F' then c as int - 55 else c as int - 87)
  {
  }

  lemma {:induction false} WorthCons(before: nat, c: char, ds: string, base: nat)
    requires base == 10 || base == 16
    requires Digit(c, base) && forall i :: 0 <= i < |ds| ==> Digit(ds[i], base)
    ensures (forall i :: 0 <= i < |[c] + ds| ==> Digit(([c] + ds)[i], base))
    ensures Worth(before, [c] + ds, base) == Worth(base * before + DigitIn(c, base).value, ds, base)
    decreases |ds|
  {
    DigitWorth(c, base);
    hide Digit;
    var all := [c] + ds;
    if ds == "" {
      assert all[..0] == "" && all[|all| - 1] == c;
      assert Worth(before, "", base) == before;
    } else {
      assert all[..|all| - 1] == [c] + ds[..|ds| - 1] && all[|all| - 1] == ds[|ds| - 1];
      WorthCons(before, c, ds[..|ds| - 1], base);
    }
  }

  lemma {:induction false} NumberTaken(s: string, base: nat, before: nat)
    requires base == 10 || base == 16
    ensures var (n, count) := TakeNumber(s, base, before);
      && count <= |s| && (forall i :: 0 <= i < count ==> Digit(s[..count][i], base)) && n == Worth(before, s[..count], base)
      && (count < |s| ==> !Digit(s[count], base))
    decreases |s|
  {
    hide Digit, DigitIn, Worth;
    NoDigits(before, base);
    if s != "" {
      DigitWorth(s[0], base);
      if DigitIn(s[0], base).Some? {
        var next := base * before + DigitIn(s[0], base).value;
        NumberTaken(s[1..], base, next);
        var count := TakeNumber(s[1..], base, next).1;
        FirstTaken(s, count);
        WorthCons(before, s[0], s[1..][..count], base);
      }
    }
    assert s[..0] == "";
  }

  lemma NoDigits(before: nat, base: nat)
    ensures Worth(before, "", base) == before
  {
  }

  lemma FirstTaken(s: string, count: nat)
    requires s != "" && count < |s|
    ensures s[..count + 1] == [s[0]] + s[1..][..count]
  {
  }

  lemma LongestRun(s: string, ds: string, base: nat, count: nat)
    requires Digits(ds, base) && |ds| < |s| && s[..|ds|] == ds && s[|ds|] == ';'
    requires count <= |s| && (forall i :: 0 <= i < count ==> Digit(s[..count][i], base)) && (count < |s| ==> !Digit(s[count], base))
    ensures count == |ds|
  {
    assert forall i :: 0 <= i < |ds| ==> s[i] == ds[i];
    assert forall i :: 0 <= i < count ==> s[i] == s[..count][i];
    assert !Digit(';', base);
  }

  lemma CodeFound(s: string, head: string, base: nat, c: char, n: nat)
    requires (base == 10 || base == 16) && |head| <= n <= |s| && CodeRef(s[..n], head, base, c)
    ensures StartsAt(s, 0, head) && |head| + 1 < n && s[n - 1] == ';'
    ensures TakeNumber(s[|head|..], base, 0) == (c as int, n - 1 - |head|)
    ensures Digit(s[|head|], base)
  {
    var ds: string :| Digits(ds, base) && s[..n] == head + ds + ";" && Worth(0, ds, base) == c as int;
    var rest := s[|head|..];
    var u := s[..n];
    StartsIsSlice(s, 0, head);
    assert s[..|head|] == u[..|head|] == head;
    assert rest[..|ds|] == u[|head|..|head| + |ds|] == ds;
    assert rest[|ds|] == s[n - 1] == u[n - 1] == ';';
    NumberTaken(rest, base, 0);
    LongestRun(rest, ds, base, TakeNumber(rest, base, 0).1);
    assert rest[0] == ds[0];
  }

  lemma CodeIs(s: string, head: string, base: nat, n: nat)
    requires (base == 10 || base == 16) && StartsAt(s, 0, head)
    requires var (code, count) := TakeNumber(s[|head|..], base, 0);
      count > 0 && |head| + count < |s| && s[|head| + count] == ';' && LegalCode(code) && n == |head| + count + 1
    ensures CodeRef(s[..n], head, base, TakeNumber(s[|head|..], base, 0).0 as char)
  {
    var rest := s[|head|..];
    NumberTaken(rest, base, 0);
    var ds := rest[..TakeNumber(rest, base, 0).1];
    StartsIsSlice(s, 0, head);
    assert s[..n] == head + ds + ";";
    assert Digits(ds, base);
  }

  lemma CharRefExact(s: string, c: char, n: nat)
    ensures CharRef(s) == Some((c, n)) <==>
      2 < n <= |s| && LegalChar(c) && (CodeRef(s[..n], "&#", 10, c) || CodeRef(s[..n], "&#x", 16, c))
  {
    hide TakeNumber, CodeRef, LegalChar;
    TwoHeads(s);
    if StartsAt(s, 0, "&#") {
      var hex := StartsAt(s, 2, "x");
      var head := if hex then "&#x" else "&#";
      var base := if hex then 16 else 10;
      assert StartsAt(s, 0, head);
      var (code, count) := TakeNumber(s[|head|..], base, 0);
      if count > 0 && |head| + count < |s| && s[|head| + count] == ';' && LegalCode(code) {
        CodeIs(s, head, base, |head| + count + 1);
      }
    }
    if 2 < n <= |s| && LegalChar(c) {
      if CodeRef(s[..n], "&#", 10, c) {
        CodeFound(s, "&#", 10, c, n);
        NotHex(s);
      }
      if CodeRef(s[..n], "&#x", 16, c) {
        if n == 3 {
          ShortRef(s, c);
        }
        CodeFound(s, "&#x", 16, c, n);
      }
    }
    hide StartsAt;
  }

  lemma ShortRef(s: string, c: char)
    requires |s| >= 3
    ensures !CodeRef(s[..3], "&#x", 16, c)
  {
  }

  lemma TwoHeads(s: string)
    ensures StartsAt(s, 0, "&#x") <==> StartsAt(s, 0, "&#") && StartsAt(s, 2, "x")
  {
    SplitAt(s, 0, "&#", "x");
    assert "&#" + "x" == "&#x";
  }

  lemma NotHex(s: string)
    requires |s| > 2 && Digit(s[2], 10)
    ensures !StartsAt(s, 2, "x")
  {
    assert "x"[0] == 'x';
  }

  lemma ReferenceExact(s: string, c: char, n: nat)
    requires s != "" && s[0] == '&'
    ensures Unit(s) == Some((c, n)) <==> 1 < n <= |s| && Refers(s[..n], c)
  {
    CharRefExact(s, c, n);
    HeadsDiffer(s);
    WordAt(s, "&lt;", n);
    WordAt(s, "&gt;", n);
    WordAt(s, "&amp;", n);
    WordAt(s, "&quot;", n);
    WordAt(s, "&apos;", n);
    if 1 < n <= |s| {
      CodeHead(s, n, "&#", 10, c);
      CodeHead(s, n, "&#x", 16, c);
    }
    hide StartsAt, CharRef, CodeRef, LegalChar;
  }

  lemma WordAt(s: string, word: string, n: nat)
    ensures n <= |s| && s[..n] == word <==> n == |word| && StartsAt(s, 0, word)
  {
    StartsIsSlice(s, 0, word);
  }

  lemma CodeHead(s: string, n: nat, head: string, base: nat, c: char)
    requires (head == "&#" || head == "&#x") && n <= |s|
    ensures CodeRef(s[..n], head, base, c) ==> n > 2 && StartsAt(s, 0, "&#")
  {
    if CodeRef(s[..n], head, base, c) {
      var ds: string :| Digits(ds, base) && s[..n] == head + ds + ";" && Worth(0, ds, base) == c as int;
      assert s[0] == s[..n][0] == head[0] && s[1] == s[..n][1] == head[1];
    }
  }

  lemma HeadsDiffer(s: string)
    ensures StartsAt(s, 0, "&lt;") ==> s[1] == 'l'
    ensures StartsAt(s, 0, "&gt;") ==> s[1] == 'g'
    ensures StartsAt(s, 0, "&amp;") ==> s[1] == 'a' && s[2] == 'm'
    ensures StartsAt(s, 0, "&quot;") ==> s[1] == 'q'
    ensures StartsAt(s, 0, "&apos;") ==> s[1] == 'a' && s[2] == 'p'
    ensures StartsAt(s, 0, "&#") ==> s[1] == '#'
  {
    assert "&lt;"[1] == 'l' && "&gt;"[1] == 'g' && "&amp;"[1] == 'a' && "&amp;"[2] == 'm' && "&quot;"[1] == 'q'
      && "&apos;"[1] == 'a' && "&apos;"[2] == 'p' && "&#"[1] == '#';
  }

  lemma {:induction false} TextFound(s: string)
    requires DecodeText(s).Some?
    ensures Spelled(s, DecodeText(s).value)
    decreases |s|
  {
    hide Unit, StartsAt, Refers;
    if s != "" {
      var (c, used) := Unit(s).value;
      var text, rest := DecodeText(s).value, DecodeText(s[used..]).value;
      TextFound(s[used..]);
      assert text == [c] + rest && text[1..] == rest;
      if s[0] == '&' {
        ReferenceExact(s, c, used);
        assert s == s[..used] + s[used..];
      } else {
        PlainUnit(s);
      }
    }
  }

  lemma PlainUnit(s: string)
    requires s != "" && s[0] != '&'
    ensures Unit(s) == Some((s[0], 1))
  {
  }

  lemma {:induction false} TextFollows(s: string, text: string)
    requires Spelled(s, text)
    ensures DecodeText(s) == Some(text)
    decreases |text|
  {
    hide Unit, StartsAt, Refers;
    if text != "" {
      assert text == [text[0]] + text[1..];
      if s[0] == '&' {
        var u, r :| s == u + r && Refers(u, text[0]) && Spelled(r, text[1..]);
        LongEnough(u, text[0]);
        assert s[..|u|] == u && s[|u|..] == r;
        ReferenceExact(s, text[0], |u|);
        TextFollows(r, text[1..]);
      } else {
        PlainUnit(s);
        TextFollows(s[1..], text[1..]);
      }
    }
  }

  lemma LongEnough(u: string, c: char)
    requires Refers(u, c)
    ensures |u| > 1
  {
    hide Worth, LegalChar;
  }

  lemma {:induction false} ValueFound(s: string)
    requires DecodeValue(s).Some?
    ensures SpelledValue(s, DecodeValue(s).value)
    decreases |s|
  {
    hide Unit, Refers;
    if s != "" {
      var (c, used) := Unit(s).value;
      var text, rest := DecodeValue(s).value, DecodeValue(s[used..]).value;
      ValueFound(s[used..]);
      assert text == [text[0]] + rest && text[1..] == rest;
      if s[0] == '&' {
        ReferenceExact(s, c, used);
        assert s == s[..used] + s[used..];
      } else {
        PlainUnit(s);
      }
    }
  }

  lemma {:induction false} ValueFollows(s: string, text: string)
    requires SpelledValue(s, text)
    ensures DecodeValue(s) == Some(text)
    decreases |text|
  {
    hide Unit, Refers;
    if text != "" {
      assert text == [text[0]] + text[1..];
      if s[0] == '&' {
        var u, r :| s == u + r && Refers(u, text[0]) && SpelledValue(r, text[1..]);
        LongEnough(u, text[0]);
        assert s[..|u|] == u && s[|u|..] == r;
        ReferenceExact(s, text[0], |u|);
        ValueFollows(r, text[1..]);
      } else {
        PlainUnit(s);
        ValueFollows(s[1..], text[1..]);
      }
    }
  }

  // ---------------------------------------------------------------- tags

  lemma QuotedFound(s: string)
    requires ParseQuoted(s).Some?
    ensures Quoted(s, ParseQuoted(s).value.0, ParseQuoted(s).value.1)
  {
    hide DecodeValue, SpelledValue, NormalizeNewlines, StartsAt;
    var end := Find([s[0]], s, 1);
    var body := s[1..end];
    ValueFound(NormalizeNewlines(body));
    FirstQuote(s, end);
    assert s[0] in "\"'";
  }

  lemma FirstQuote(s: string, end: int)
    requires s != "" && end == Find([s[0]], s, 1) && end != -1
    ensures 1 <= end < |s| && s == [s[0]] + s[1..end] + [s[0]] + s[end + 1..] && s[0] !in s[1..end]
  {
    hide StartsAt, Find;
    OneChar(s, end, s[0]);
    forall i | 1 <= i < end ensures s[i] != s[0] {
      OneChar(s, i, s[0]);
    }
    Around(s, end);
    NotInside(s, end, s[0]);
  }

  lemma Around(s: string, end: nat)
    requires 1 <= end < |s|
    ensures s == [s[0]] + s[1..end] + [s[end]] + s[end + 1..]
  {
  }

  lemma NotInside(s: string, end: nat, c: char)
    requires 1 <= end <= |s| && forall i :: 1 <= i < end ==> s[i] != c
    ensures c !in s[1..end]
  {
  }

  lemma OneChar(s: string, i: nat, c: char)
    ensures StartsAt(s, i, [c]) <==> i < |s| && s[i] == c
  {
    assert StartsAt(s, i, [c]) ==> s[i + 0] == [c][0];
  }

  lemma QuoteParts(s: string, q: char, body: string, r: string)
    requires s == [q] + body + [q] + r
    ensures |s| == |body| + |r| + 2 && s[0] == q && s[1 + |body|] == q && s[1..1 + |body|] == body && s[2 + |body|..] == r
  {
  }

  lemma QuoteCloses(s: string, q: char, body: string)
    requires 1 + |body| < |s| && s[1 + |body|] == q && s[1..1 + |body|] == body && q !in body
    ensures Find([q], s, 1) == 1 + |body|
  {
    hide StartsAt;
    OneChar(s, 1 + |body|, q);
    forall k | 1 <= k < 1 + |body| ensures !StartsAt(s, k, [q]) {
      assert s[k] == s[1..1 + |body|][k - 1];
      OneChar(s, k, q);
    }
  }

  lemma QuotedFollows(s: string, value: string, r: string)
    requires Quoted(s, value, r)
    ensures ParseQuoted(s) == Some((value, r))
  {
    hide DecodeValue, SpelledValue, NormalizeNewlines, Find;
    var q: char, body: string :|
      && q in "\"'" && s == [q] + body + [q] + r && q !in body && '<' !in body && SpelledValue(NormalizeNewlines(body), value);
    QuoteParts(s, q, body, r);
    QuoteCloses(s, q, body);
    ValueFollows(NormalizeNewlines(body), value);
  }

  lemma QuoteStarts(s: string, value: string, r: string)
    requires Quoted(s, value, r)
    ensures s != "" && !XmlSpace(s[0])
  {
    hide SpelledValue, NormalizeNewlines;
  }

  lemma AttributeFound(s: string)
    requires ParseAttribute(s).Some?
    ensures var (name, value, r) := ParseAttribute(s).value; Attribute(s, name, value, r)
  {
    hide TakeQName, ParseQuoted, SkipXmlSpace, Named, Spaces, Quoted, Lead, NameStart;
    CharClasses(s[0]);
    var name := TakeQName(s);
    NamedTaken(s);
    var t := s[|name|..];
    var u := SkipXmlSpace(t);
    SpacesSkipped(t);
    SpacesSkipped(u[1..]);
    QuotedFound(SkipXmlSpace(u[1..]));
  }

  lemma AttributeFollows(s: string, name: string, value: string, r: string)
    requires Attribute(s, name, value, r)
    ensures ParseAttribute(s) == Some((name, value, r))
  {
    hide TakeQName, ParseQuoted, SkipXmlSpace, Named, Spaces, Quoted, Lead, NameStart;
    CharClasses(s[0]);
    var t, u, v :| Named(s, name, t) && Spaces(t, u) && u != "" && u[0] == '=' && Spaces(u[1..], v) && Quoted(v, value, r);
    NamedFollows(s, name, t);
    SpacesAre(t, u);
    QuoteStarts(v, value, r);
    SpacesAre(u[1..], v);
    QuotedFollows(v, value, r);
  }

  lemma LeadNotSpace(c: char)
    ensures Lead(c) ==> !XmlSpace(c) && c != '>' && c != '/'
  {
  }

  lemma MarksAt(t: string, word: string, r: string)
    ensures t == word + r <==> StartsAt(t, 0, word) && t[|word|..] == r
  {
    StartsIsSlice(t, 0, word);
    assert t == word + r ==> t[..|word|] == word && t[|word|..] == r;
  }

  lemma TagMarks(t: string)
    ensures StartsAt(t, 0, ">") ==> t[0] == '>'
    ensures StartsAt(t, 0, "/>") ==> t[0] == '/'
  {
    assert ">"[0] == '>' && "/>"[0] == '/';
  }

  lemma {:induction false} AttributesFound(s: string)
    requires ParseAttributes(s).Some?
    ensures var (attributes, closed, r) := ParseAttributes(s).value; Attributes(s, attributes, closed, r)
    decreases |s|
  {
    hide SkipXmlSpace, ParseAttribute, Spaces, Attribute, StartsAt;
    var (attributes, closed, r) := ParseAttributes(s).value;
    var t := SkipXmlSpace(s);
    SpacesSkipped(s);
    MarksAt(t, ">", r);
    MarksAt(t, "/>", r);
    if !StartsAt(t, 0, ">") && !StartsAt(t, 0, "/>") {
      var (name, value, next) := ParseAttribute(t).value;
      AttributeFound(t);
      AttributesFound(next);
    }
  }

  lemma {:induction false} AttributesFollow(s: string, attributes: map<string, string>, closed: bool, r: string)
    requires Attributes(s, attributes, closed, r)
    ensures ParseAttributes(s) == Some((attributes, closed, r))
    decreases |s|
  {
    hide SkipXmlSpace, ParseAttribute, Spaces, Attribute, StartsAt;
    var t :| Spaces(s, t) &&
      ((attributes == map[] && t == (if closed then "/>" else ">") + r)
       || (|t| < |s| && exists name, value, next, others ::
             Attribute(t, name, value, next) && |next| < |s| && Attributes(next, others, closed, r)
             && name !in others && attributes == others[name := value]));
    MarksAt(t, ">", r);
    MarksAt(t, "/>", r);
    TagMarks(t);
    if attributes == map[] && t == (if closed then "/>" else ">") + r {
      assert t[0] == (if closed then '/' else '>');
      SpacesAre(s, t);
    } else {
      var name, value, next, others :| Attribute(t, name, value, next) && |next| < |s| && Attributes(next, others, closed, r)
        && name !in others && attributes == others[name := value];
      AttributeStarts(t, name, value, next);
      SpacesAre(s, t);
      AttributeFollows(t, name, value, next);
      AttributesFollow(next, others, closed, r);
    }
  }

  lemma AttributeStarts(s: string, name: string, value: string, r: string)
    requires Attribute(s, name, value, r)
    ensures s != "" && !XmlSpace(s[0]) && s[0] != '>' && s[0] != '/'
  {
    hide Named, Spaces, Quoted;
    LeadNotSpace(s[0]);
  }

  lemma EndTagExact(name: string, s: string, r: string)
    ensures ParseEndTag(name, s) == Some(r) <==> EndTag(name, s, r)
  {
    hide TakeQName, SkipXmlSpace, Named, Spaces;
    if StartsAt(s, 0, "</") {
      NamedTaken(s[2..]);
      var t := s[2..][|TakeQName(s[2..])|..];
      SpacesSkipped(t);
      var u := SkipXmlSpace(t);
      assert t == s[2 + |TakeQName(s[2..])|..];
      if u != "" && u[0] == '>' {
        assert u == ">" + u[1..];
      }
      if EndTag(name, s, r) {
        var v :| Named(s[2..], name, v) && Spaces(v, ">" + r);
        NamedFollows(s[2..], name, v);
        SpacesAre(v, ">" + r);
        assert (">" + r)[1..] == r;
      }
    }
    hide StartsAt;
  }

  // ---------------------------------------------------------------- content

  lemma {:induction false} ElementFound(s: string)
    requires ParseElement(s).Some?
    ensures ElementOf(s, ParseElement(s).value.0, ParseElement(s).value.1)
    decreases |s|, 0
  {
    hide TakeQName, ParseAttributes, ParseContent, ParseEndTag, Named, Attributes, Content, EndTag, Lead, NameStart;
    var (e, r) := ParseElement(s).value;
    CharClasses(s[1]);
    var name := TakeQName(s[1..]);
    NamedTaken(s[1..]);
    var t := s[1..][|name|..];
    assert t == s[1 + |name|..];
    var (attributes, closed, u) := ParseAttributes(t).value;
    AttributesFound(t);
    if !closed {
      ContentFound(u);
      EndTagExact(name, ParseContent(u).value.1, r);
    }
  }

  lemma {:induction false} ContentFound(s: string)
    requires ParseContent(s).Some?
    ensures Content(s, ParseContent(s).value.0, ParseContent(s).value.1)
    decreases |s|, 2
  {
    hide ParseItem, Piece, StartsAt;
    if !StartsAt(s, 0, "</") {
      var (one, t) := ParseItem(s).value;
      PieceFound(s);
      ContentFound(t);
    }
  }

  lemma {:induction false} PieceFound(s: string)
    requires s != "" && ParseItem(s).Some? && !StartsAt(s, 0, "</")
    ensures Piece(s, ParseItem(s).value.0, ParseItem(s).value.1)
    decreases |s|, 1
  {
    hide ParseElement, ElementOf, DecodeText, StartsAt, SectionOf, CommentOf, TextOf;
    if StartsAt(s, 0, "<![CDATA[") {
      SectionFound(s);
    } else if StartsAt(s, 0, "<!--") {
      CommentFound(s);
    } else if s[0] == '<' {
      ElementFound(s);
    } else {
      CharsFound(s);
    }
  }

  lemma SectionFound(s: string)
    requires StartsAt(s, 0, "<![CDATA[") && ParseItem(s).Some?
    ensures SectionOf(s, ParseItem(s).value.0, ParseItem(s).value.1)
  {
    hide NormalizeNewlines, StartsAt;
    Parted(s, "<![CDATA[", Find("]]>", s, 9), "]]>");
  }

  lemma CommentFound(s: string)
    requires !StartsAt(s, 0, "<![CDATA[") && StartsAt(s, 0, "<!--") && ParseItem(s).Some?
    ensures ParseItem(s).value.0 == [] && CommentOf(s, ParseItem(s).value.1)
  {
    hide StartsAt;
    Parted(s, "<!--", Find("--", s, 4), "-->");
  }

  lemma CharsFound(s: string)
    requires s != "" && !StartsAt(s, 0, "<![CDATA[") && !StartsAt(s, 0, "<!--") && s[0] != '<' && ParseItem(s).Some?
    ensures var (one, r) := ParseItem(s).value; |one| == 1 && one[0].Chars? && TextOf(s, one[0].text, r)
  {
    hide NormalizeNewlines, StartsAt, DecodeText, Spelled;
    var end := Find("<", s, 0);
    FirstAngle(s, end);
    TextFound(NormalizeNewlines(s[..end]));
    assert s == s[..end] + s[end..];
  }

  lemma Parted(s: string, open: string, end: int, close: string)
    requires StartsAt(s, 0, open) && |open| <= end && StartsAt(s, end, close)
    ensures end + |close| <= |s| && s == open + s[|open|..end] + close + s[end + |close|..]
  {
    StartsIsSlice(s, 0, open);
    StartsIsSlice(s, end, close);
    assert s == s[..|open|] + s[|open|..end] + s[end..end + |close|] + s[end + |close|..];
  }

  lemma FirstAngle(s: string, end: int)
    requires Find("<", s, 0) == end && end != -1
    ensures end < |s| && s[end] == '<' && '<' !in s[..end]
  {
    assert s[end] == "<"[0];
    forall i | 0 <= i < end ensures s[i] != '<' {
      assert !StartsAt(s, i, "<");
    }
  }

  lemma {:induction false} ElementFollows(s: string, e: Element, r: string)
    requires ElementOf(s, e, r)
    ensures ParseElement(s) == Some((e, r))
    decreases |s|, 0
  {
    hide TakeQName, ParseAttributes, ParseContent, ParseEndTag, Named, Attributes, Content, EndTag, Lead, NameStart;
    CharClasses(s[1]);
    var t, closed, u :|
      Named(s[1..], e.name, t) && Attributes(t, e.attributes, closed, u) && |u| < |s| &&
      if closed then e.content == [] && u == r
      else exists w :: Content(u, e.content, w) && EndTag(e.name, w, r);
    NamedFollows(s[1..], e.name, t);
    assert s[1..][|e.name|..] == s[1 + |e.name|..];
    AttributesFollow(t, e.attributes, closed, u);
    if !closed {
      var w :| Content(u, e.content, w) && EndTag(e.name, w, r);
      ContentFollows(u, e.content, w);
      EndTagExact(e.name, w, r);
    }
  }

  lemma {:induction false} ContentFollows(s: string, items: seq<Item>, r: string)
    requires Content(s, items, r)
    ensures ParseContent(s) == Some((items, r))
    decreases |s|, 2
  {
    hide ParseItem, Piece, StartsAt;
    if StartsAt(s, 0, "</") {
      EndTagText(s);
    } else {
      var one, t, more :| Piece(s, one, t) && |t| < |s| && Content(t, more, r) && items == one + more;
      PieceFollows(s, one, t);
      ContentFollows(t, more, r);
    }
  }

  lemma EndTagText(s: string)
    requires StartsAt(s, 0, "</")
    ensures s != ""
  {
  }

  lemma {:induction false} PieceFollows(s: string, one: seq<Item>, r: string)
    requires Piece(s, one, r) && !StartsAt(s, 0, "</")
    ensures s != "" && ParseItem(s) == Some((one, r))
    decreases |s|, 1
  {
    hide ParseElement, ElementOf, ParseItem, SectionOf, CommentOf, TextOf, StartsAt;
    if SectionOf(s, one, r) {
      SectionFollows(s, one, r);
    } else if one == [] && CommentOf(s, r) {
      CommentFollows(s, r);
    } else if one[0].Child? {
      ElementFollows(s, one[0].element, r);
      MarkupKind(s, one[0].element, r);
      ItemIsElement(s);
      assert one == [Child(one[0].element)];
    } else {
      CharsFollow(s, one[0].text, r);
      assert one == [Chars(one[0].text)];
    }
  }

  lemma MarkupKind(s: string, e: Element, r: string)
    requires ElementOf(s, e, r)
    ensures s != "" && s[0] == '<' && !StartsAt(s, 0, "<![CDATA[") && !StartsAt(s, 0, "<!--")
  {
    hide Named, Attributes, Content, EndTag;
    FirstTwo(s, 0, "<![CDATA[");
    FirstTwo(s, 0, "<!--");
    hide StartsAt;
  }

  lemma ItemIsElement(s: string)
    requires s != "" && s[0] == '<' && !StartsAt(s, 0, "<![CDATA[") && !StartsAt(s, 0, "<!--") && ParseElement(s).Some?
    ensures var (e, r) := ParseElement(s).value; ParseItem(s) == Some(([Child(e)], r))
  {
    hide ParseElement, StartsAt;
  }

  lemma PartsAt(s: string, open: string, body: string, close: string, r: string)
    requires s == open + body + close + r
    ensures StartsAt(s, 0, open) && StartsAt(s, |open| + |body|, close)
    ensures s[|open|..|open| + |body|] == body && s[|open| + |body| + |close|..] == r
  {
    var at := |open| + |body|;
    assert s == open + (body + close + r);
    assert s == (open + body) + (close + r);
    StartsIsSlice(s, 0, open);
    StartsIsSlice(s, at, close);
    assert s[at..at + |close|] == close;
  }

  /** Text after an opener: where it stands, and that its closer is the first one. */
  lemma Closed(s: string, open: string, body: string, close: string, first: string, r: string)
    requires s == open + body + close + r && first <= close
    requires forall k :: |open| <= k < |open| + |body| ==> !StartsAt(s, k, first)
    ensures StartsAt(s, 0, open) && StartsAt(s, |open| + |body|, close)
    ensures Find(first, s, |open|) == |open| + |body|
    ensures s[|open|..|open| + |body|] == body && s[|open| + |body| + |close|..] == r
  {
    hide StartsAt;
    PartsAt(s, open, body, close, r);
    PrefixAt(s, |open| + |body|, first, close);
    assert |open| + |body| + |first| <= |s|;
  }

  lemma PrefixAt(s: string, i: nat, first: string, lit: string)
    requires StartsAt(s, i, lit) && first <= lit
    ensures StartsAt(s, i, first)
  {
    assert forall k :: 0 <= k < |first| ==> first[k] == lit[k];
  }

  lemma SectionFollows(s: string, one: seq<Item>, r: string)
    requires SectionOf(s, one, r)
    ensures s != "" && ParseItem(s) == Some((one, r))
  {
    hide NormalizeNewlines, StartsAt;
    var body: string :|
      && s == "<![CDATA[" + body + "]]>" + r && one == [Chars(NormalizeNewlines(body))]
      && forall k :: 9 <= k < 9 + |body| ==> !StartsAt(s, k, "]]>");
    Closed(s, "<![CDATA[", body, "]]>", "]]>", r);
  }

  lemma CommentFollows(s: string, r: string)
    requires CommentOf(s, r)
    ensures s != "" && ParseItem(s) == Some(([], r))
  {
    hide NormalizeNewlines, StartsAt;
    var body: string :| s == "<!--" + body + "-->" + r && forall k :: 4 <= k < 4 + |body| ==> !StartsAt(s, k, "--");
    Closed(s, "<!--", body, "-->", "--", r);
    NoSection(s);
  }

  lemma NoSection(s: string)
    requires StartsAt(s, 0, "<!--")
    ensures !StartsAt(s, 0, "<![CDATA[")
  {
    Third(s, "<!--");
    Third(s, "<![CDATA[");
    hide StartsAt;
  }

  lemma Third(s: string, lit: string)
    requires |lit| > 2
    ensures StartsAt(s, 0, lit) ==> |s| > 2 && s[2] == lit[2]
  {
  }

  lemma CharsFollow(s: string, text: string, r: string)
    requires TextOf(s, text, r)
    ensures s != "" && ParseItem(s) == Some(([Chars(text)], r))
  {
    hide NormalizeNewlines, Spelled, DecodeText;
    var body: string :|
      s == body + r && body != "" && '<' !in body && r != "" && r[0] == '<' && Spelled(NormalizeNewlines(body), text);
    TextFollows(NormalizeNewlines(body), text);
    var end := |body|;
    assert s[0] == body[0];
    assert !StartsAt(s, 0, "<![CDATA[") && !StartsAt(s, 0, "<!--") by {
      assert "<![CDATA["[0] == '<' && "<!--"[0] == '<';
    }
    assert StartsAt(s, end, "<") by {
      assert s[end] == r[0];
    }
    forall k | 0 <= k < end ensures !StartsAt(s, k, "<") {
      assert s[k] == body[k] && "<"[0] == '<';
    }
    assert Find("<", s, 0) == end;
    assert s[..end] == body && s[end..] == r;
    hide StartsAt;
  }

  /** Over every text: a document is read exactly when it consists of legal characters and is one element as the grammar
      has it, whose names are then resolved. */
  lemma DocumentExact(s: string, e: Element)
    ensures FromString(s) == Some(e) <==>
      LegalText(s) && exists raw :: ElementOf(s, raw, "") && Resolve(raw, []) == Some(e)
  {
    hide ParseElement, ElementOf, Resolve, LegalText;
    if ParseElement(s).Some? {
      ElementFound(s);
    }
    if raw :| ElementOf(s, raw, "") && Resolve(raw, []) == Some(e) {
      ElementFollows(s, raw, "");
    }
  }

  // ---------------------------------------------------------------- line ends

  /** Text without carriage returns stays; each carriage return, with the newline it may stand before, becomes one newline. */
  lemma {:induction false} NewlinesExact(t: string, b: string)
    requires '\r' !in t
    ensures NormalizeNewlines(t) == t
    ensures NormalizeNewlines(t + "\r\n" + b) == t + "\n" + NormalizeNewlines(b)
    ensures b == "" || b[0] != '\n' ==> NormalizeNewlines(t + "\r" + b) == t + "\n" + NormalizeNewlines(b)
    decreases |t|
  {
    if t == "" {
      assert ("" + "\r\n" + b)[2..] == b && ("" + "\r" + b)[1..] == b;
      assert "" + "\r\n" + b == "\r\n" + b && "" + "\r" + b == "\r" + b && "" + "\n" == "\n";
    } else {
      NewlinesExact(t[1..], b);
      assert (t + "\r\n" + b)[1..] == t[1..] + "\r\n" + b && (t + "\r" + b)[1..] == t[1..] + "\r" + b;
      assert t == [t[0]] + t[1..];
    }
  }
}
