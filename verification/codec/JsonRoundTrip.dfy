/** Whatever JsonCodec prints, JsonCodec reads back, whatever text follows. */
module JsonRoundTrip {
  import opened Text
  import opened JsonCodec

  lemma DigitRoundTrip(d: nat)
    requires d < 16
    ensures HexValue(DigitChar(d)) == d
  {
  }

  lemma HexRoundTrip(n: nat, rest: string)
    requires n < 0x10000
    ensures ReadHex4(Hex4(n) + rest) == Some(n)
  {
    var s := Hex4(n) + rest;
    var n1, n2, n3 := n / 16, n / 256, n / 4096;
    assert n2 == n1 / 16 && n3 == n2 / 16;
    DigitRoundTrip(n % 16);
    DigitRoundTrip(n1 % 16);
    DigitRoundTrip(n2 % 16);
    DigitRoundTrip(n3);
    assert s[0] == DigitChar(n3) && s[1] == DigitChar(n2 % 16);
    assert s[2] == DigitChar(n1 % 16) && s[3] == DigitChar(n % 16);
  }

  lemma UnicodeEscape(n: nat, rest: string)
    requires n < 0xD800 || 0xE000 <= n < 0x10000
    ensures ReadEscape("u" + Hex4(n) + rest) == Some((n as char, rest))
  {
    hide ReadHex4, Hex4;
    var s := "u" + Hex4(n) + rest;
    assert s[1..] == Hex4(n) + rest && s[5..] == rest;
    HexRoundTrip(n, rest);
  }

  lemma SurrogateEscape(n: nat, rest: string)
    requires 0x10000 <= n < 0x110000
    ensures ReadEscape("u" + Hex4(0xD800 + (n - 0x10000) / 0x400) + ("\\u" + Hex4(0xDC00 + (n - 0x10000) % 0x400)) + rest)
         == Some((n as char, rest))
  {
    hide ReadHex4, Hex4;
    var hi, lo := 0xD800 + (n - 0x10000) / 0x400, 0xDC00 + (n - 0x10000) % 0x400;
    var tail := "\\u" + Hex4(lo) + rest;
    var s := "u" + Hex4(hi) + ("\\u" + Hex4(lo)) + rest;
    assert s[1..] == Hex4(hi) + tail && s[7..] == Hex4(lo) + rest && s[11..] == rest;
    HexRoundTrip(hi, tail);
    HexRoundTrip(lo, rest);
    assert s[5] == tail[0] == '\\' && s[6] == tail[1] == 'u';
    assert (n - 0x10000) / 0x400 < 0x400;
  }

  lemma EscapeRoundTrip(c: char, rest: string)
    requires EscapeChar(c) != [c]
    ensures EscapeChar(c)[0] == '\\'
    ensures ReadEscape(EscapeChar(c)[1..] + rest) == Some((c, rest))
  {
    hide Hex4;
    var n := c as int;
    if n >= 0x10000 {
      hide ReadEscape;
      assert EscapeChar(c)[1..] ==
        "u" + Hex4(0xD800 + (n - 0x10000) / 0x400) + ("\\u" + Hex4(0xDC00 + (n - 0x10000) % 0x400));
      SurrogateEscape(n, rest);
    } else if (n < 32 && n !in {8, 9, 10, 12, 13}) || n > 126 {
      hide ReadEscape;
      assert EscapeChar(c)[1..] == "u" + Hex4(n);
      UnicodeEscape(n, rest);
    } else {
      hide ReadHex4, StartsAt;
      var s := EscapeChar(c)[1..] + rest;
      assert s[1..] == rest;
    }
  }

  lemma PlainChar(c: char, tail: string)
    requires EscapeChar(c) == [c]
    ensures ReadString([c] + tail) ==
      match ReadString(tail)
      case None => None
      case Some((text, rest)) => Some(([c] + text, rest))
  {
    hide ReadEscape, Hex4;
    assert ([c] + tail)[1..] == tail;
  }

  lemma EscapedChar(c: char, tail: string)
    requires EscapeChar(c) != [c]
    ensures ReadString(EscapeChar(c) + tail) ==
      match ReadString(tail)
      case None => None
      case Some((text, rest)) => Some(([c] + text, rest))
  {
    hide ReadEscape, EscapeChar;
    EscapeRoundTrip(c, tail);
    assert (EscapeChar(c) + tail)[1..] == EscapeChar(c)[1..] + tail;
  }

  lemma {:induction false} StringRoundTrip(text: string, rest: string)
    ensures ReadString(EscapeText(text) + "\"" + rest) == Some((text, rest))
    decreases |text|
  {
    hide EscapeChar;
    if text == [] {
      hide ReadEscape;
      assert EscapeText(text) + "\"" + rest == "\"" + rest;
      assert ("\"" + rest)[1..] == rest;
    } else {
      hide ReadString;
      var c, tail := text[0], EscapeText(text[1..]) + "\"" + rest;
      assert EscapeText(text) + "\"" + rest == EscapeChar(c) + tail;
      StringRoundTrip(text[1..], rest);
      if EscapeChar(c) == [c] {
        PlainChar(c, tail);
      } else {
        EscapedChar(c, tail);
      }
      assert text == [c] + text[1..];
    }
  }

  lemma {:induction false} DigitsRead(n: nat)
    ensures forall i :: 0 <= i < |Digits(n)| ==> IsDigit(Digits(n)[i])
    ensures DigitsValue(Digits(n)) == n
    ensures n > 0 ==> Digits(n)[0] != '0'
    decreases n
  {
    var ds := Digits(n);
    if n < 10 {
      assert ds[..0] == [];
    } else {
      DigitsRead(n / 10);
      assert ds[..|ds| - 1] == Digits(n / 10);
    }
  }

  lemma {:induction false} TakeDigitsExact(ds: string, rest: string)
    requires forall i :: 0 <= i < |ds| ==> IsDigit(ds[i])
    requires rest != [] ==> !IsDigit(rest[0])
    ensures TakeDigits(ds + rest) == ds
    decreases |ds|
  {
    if ds == [] {
      assert ds + rest == rest;
    } else {
      assert (ds + rest)[1..] == ds[1..] + rest;
      TakeDigitsExact(ds[1..], rest);
    }
  }

  /** What may follow a printed value: anything a number cannot swallow. */
  predicate EndsValue(rest: string) {
    rest != [] ==> !IsDigit(rest[0]) && rest[0] != '.' && rest[0] != 'e' && rest[0] != 'E'
  }

  /** Reading printed digits back, after a sign or not. */
  lemma DigitsRoundTrip(n: nat, rest: string)
    requires EndsValue(rest)
    ensures var body := Digits(n) + rest;
      && TakeDigits(body) == Digits(n) && (Digits(n)[0] == '0' ==> Digits(n) == "0")
      && body[|Digits(n)|..] == rest && body != [] && IsDigit(body[0]) && IsDigit(Digits(n)[0])
  {
    hide DigitsValue, TakeDigits;
    DigitsRead(n);
    TakeDigitsExact(Digits(n), rest);
  }

  lemma IntRoundTrip(n: int, rest: string)
    requires EndsValue(rest)
    ensures ReadInt(EncodeInt(n) + rest) == Some((n, rest))
    ensures EncodeInt(n)[0] == '-' || IsDigit(EncodeInt(n)[0])
  {
    hide DigitsValue, TakeDigits, Digits, ReadInt;
    if n < 0 {
      ReadsNegative(n, rest);
    } else {
      ReadsNatural(n, rest);
    }
  }

  lemma ReadsNatural(n: nat, rest: string)
    requires EndsValue(rest)
    ensures ReadInt(Digits(n) + rest) == Some((n, rest)) && IsDigit(Digits(n)[0])
  {
    hide DigitsValue, TakeDigits, Digits;
    DigitsRead(n);
    DigitsRoundTrip(n, rest);
  }

  lemma ReadsNegative(n: int, rest: string)
    requires EndsValue(rest) && n < 0
    ensures ReadInt(EncodeInt(n) + rest) == Some((n, rest))
  {
    hide DigitsValue, TakeDigits, Digits, ReadInt;
    DigitsRead(-n);
    DigitsRoundTrip(-n, rest);
    SignOff(Digits(-n), rest);
    ReadsSigned(EncodeInt(n) + rest, Digits(-n), n, rest);
  }

  lemma SignOff(ds: string, rest: string)
    ensures var s := "-" + ds + rest; s != [] && s[0] == '-' && s[1..] == ds + rest
  {
  }

  lemma ReadsSigned(s: string, ds: string, n: int, rest: string)
    requires s != [] && s[0] == '-' && TakeDigits(s[1..]) == ds && ds != [] && (ds[0] == '0' ==> ds == "0")
    requires s[1..][|ds|..] == rest && EndsValue(rest) && n < 0
    requires (forall i :: 0 <= i < |ds| ==> IsDigit(ds[i])) && DigitsValue(ds) == -n
    ensures ReadInt(s) == Some((n, rest))
  {
    hide DigitsValue, TakeDigits;
  }

  lemma {:induction false} FirstChar(j: Json, compact: bool)
    ensures !IsJsonSpace(Encode(j, compact)[0])
    ensures Encode(j, compact)[0] != ']' && Encode(j, compact)[0] != '}'
  {
    if j.Int? {
      IntRoundTrip(j.number, "");
    }
  }

  lemma SkipSeparator(separator: string, mark: char, next: string)
    requires !IsJsonSpace(mark) && next != [] && !IsJsonSpace(next[0])
    requires separator == [mark] || separator == [mark] + " "
    ensures SkipWs(separator + next) == separator + next
    ensures SkipWs((separator + next)[1..]) == next
  {
    var s := separator + next;
    if separator == [mark] {
      assert s[1..] == next;
    } else {
      assert s[1..][0] == ' ';
      assert s[1..][1..] == next;
    }
  }

  lemma ReadWord(word: string, rest: string)
    requires word in {"null", "true", "false"}
    ensures ReadValue(word + rest) == Some((if word == "null" then Null else Bool(word == "true"), rest))
  {
    var s := word + rest;
    hide ReadInt;
    assert s[0] == word[0] && s[|word|..] == rest;
    assert StartsAt(s, 0, word);
    if word != "null" {
      NotStarting(s, 0, "null");
    }
    if word == "false" {
      NotStarting(s, 0, "true");
    }
  }

  lemma ReadNumber(n: int, rest: string)
    requires EndsValue(rest)
    ensures ReadValue(EncodeInt(n) + rest) == Some((Int(n), rest))
  {
    var s := EncodeInt(n) + rest;
    IntRoundTrip(n, rest);
    assert s[0] == EncodeInt(n)[0];
    hide ReadInt;
    NotStarting(s, 0, "null");
    NotStarting(s, 0, "true");
    NotStarting(s, 0, "false");
  }

  lemma ReadBracket(body: string)
    requires body != [] && !IsJsonSpace(body[0]) && body[0] != ']'
    ensures ReadValue("[" + body) ==
      match ReadItems(body)
      case None => None
      case Some((items, rest)) => Some((Arr(items), rest))
  {
    assert ("[" + body)[1..] == body;
  }

  lemma ReadBrace(body: string)
    requires body != [] && !IsJsonSpace(body[0]) && body[0] != '}'
    ensures ReadValue("{" + body) ==
      match ReadMembers(body)
      case None => None
      case Some((members, rest)) => Some((Dict(members), rest))
  {
    assert ("{" + body)[1..] == body;
  }

  lemma ReadEmpty(rest: string)
    ensures ReadValue("[]" + rest) == Some((Arr([]), rest))
    ensures ReadValue("{}" + rest) == Some((Dict(map[]), rest))
  {
    hide ReadString, ReadInt, ReadItems, ReadMembers;
    assert ("[]" + rest)[1..] == "]" + rest && ("]" + rest)[1..] == rest;
    assert ("{}" + rest)[1..] == "}" + rest && ("}" + rest)[1..] == rest;
  }

  /** Reading a printed value gives the value back and leaves exactly what follows it. */
  lemma {:induction false} ValueRoundTrip(j: Json, compact: bool, rest: string)
    requires EndsValue(rest)
    ensures ReadValue(Encode(j, compact) + rest) == Some((j, rest))
    decreases j, 1, 0
  {
    hide ReadString, ReadInt, EncodeInt, EscapeText, ReadItems, ReadMembers, SortedKeys;
    match j
    case Null => ReadWord("null", rest);
    case Bool(flag) => ReadWord(if flag then "true" else "false", rest);
    case Int(n) => ReadNumber(n, rest);
    case Str(text) =>
      var s := EncodeString(text) + rest;
      assert s[1..] == EscapeText(text) + "\"" + rest;
      StringRoundTrip(text, rest);
    case Arr(items) => ArrayRoundTrip(j, compact, rest);
    case Dict(members) => ObjectRoundTrip(j, compact, rest);
  }

  lemma {:induction false} ArrayRoundTrip(j: Json, compact: bool, rest: string)
    requires j.Arr?
    ensures ReadValue(Encode(j, compact) + rest) == Some((j, rest))
    decreases j, 0, |j.items| + 1
  {
    hide ReadItems, ReadValue;
    if j.items == [] {
      assert EncodeItems(j, j.items, compact) == "]";
      assert Encode(j, compact) + rest == "[]" + rest;
      ReadEmpty(rest);
      assert j == Arr([]);
    } else {
      var body := EncodeItems(j, j.items, compact) + rest;
      ItemsFirst(j, j.items, compact);
      ItemsRoundTrip(j, j.items, compact, rest);
      assert Encode(j, compact) + rest == "[" + body;
      ReadBracket(body);
    }
  }

  lemma DictUnfold(j: Json, compact: bool, rest: string)
    requires j.Dict?
    ensures Encode(j, compact) + rest == "{" + (EncodeMembers(j, SortedKeys(j.members.Keys), compact) + rest)
  {
    hide SortedKeys, EncodeMembers;
  }

  lemma {:induction false} ObjectRoundTrip(j: Json, compact: bool, rest: string)
    requires j.Dict?
    ensures ReadValue(Encode(j, compact) + rest) == Some((j, rest))
    decreases j, 0, |j.members| + 1
  {
    hide ReadMembers, Encode, ReadValue;
    var keys := SortedKeys(j.members.Keys);
    DictUnfold(j, compact, rest);
    if keys == [] {
      assert j.members == map[];
      assert "{" + ("}" + rest) == "{}" + rest;
      ReadEmpty(rest);
    } else {
      var body := EncodeMembers(j, keys, compact) + rest;
      MembersFirst(j, keys, compact);
      MembersRoundTrip(j, keys, compact, rest);
      assert j.members == MapOf(j.members, keys);
      ReadBrace(body);
    }
  }

  lemma ItemsStep(text: string, item: Json, tail: string)
    requires ReadValue(text + tail) == Some((item, tail))
    requires tail != [] && SkipWs(tail) == tail
    ensures ReadItems(text + tail) ==
      if tail[0] == ']' then Some(([item], tail[1..]))
      else if tail[0] != ',' then None
      else
        match ReadItems(SkipWs(tail[1..]))
        case None => None
        case Some((items, end)) => Some(([item] + items, end))
  {
  }

  lemma {:induction false} ItemsRoundTrip(whole: Json, items: seq<Json>, compact: bool, rest: string)
    requires items != [] && forall i :: 0 <= i < |items| ==> items[i] < whole
    ensures ReadItems(EncodeItems(whole, items, compact) + rest) == Some((items, rest))
    decreases whole, 0, |items|
  {
    hide ReadItems, EncodeItems, Encode, ReadValue;
    var text := Encode(items[0], compact);
    ItemsUnfold(whole, items, compact, rest);
    var more := if |items| == 1 then "" else EncodeItems(whole, items[1..], compact) + rest;
    var tail := if |items| == 1 then "]" + rest else Comma(compact) + more;
    if |items| > 1 {
      ItemsFirst(whole, items[1..], compact);
      SkipSeparator(Comma(compact), ',', more);
      ItemsRoundTrip(whole, items[1..], compact, rest);
    }
    ValueRoundTrip(items[0], compact, tail);
    ItemsStep(text, items[0], tail);
    assert items == [items[0]] + items[1..];
    assert |items| == 1 ==> tail[1..] == rest && items == [items[0]];
  }

  lemma ItemsFirst(whole: Json, items: seq<Json>, compact: bool)
    requires items != [] && forall i :: 0 <= i < |items| ==> items[i] < whole
    ensures !IsJsonSpace(EncodeItems(whole, items, compact)[0]) && EncodeItems(whole, items, compact)[0] != ']'
  {
    FirstChar(items[0], compact);
  }

  ghost function MapOf(members: map<string, Json>, keys: seq<string>): map<string, Json>
    requires forall k :: k in keys ==> k in members
  {
    map k | k in keys :: members[k]
  }

  lemma KeyRoundTrip(key: string, compact: bool, body: string)
    requires body != [] && !IsJsonSpace(body[0])
    ensures ReadKey(EncodeString(key) + Colon(compact) + body) == Some((key, body))
  {
    hide EscapeText, ReadString;
    var s := EncodeString(key) + Colon(compact) + body;
    var after := Colon(compact) + body;
    assert s[0] == '"' && s[1..] == EscapeText(key) + "\"" + after;
    StringRoundTrip(key, after);
    SkipSeparator(Colon(compact), ':', body);
  }

  lemma MembersStep(s: string, key: string, body: string, item: Json, tail: string)
    requires ReadKey(s) == Some((key, body))
    requires ReadValue(body) == Some((item, tail))
    requires tail != [] && SkipWs(tail) == tail
    ensures ReadMembers(s) ==
      if tail[0] == '}' then Some((map[key := item], tail[1..]))
      else if tail[0] != ',' then None
      else
        match ReadMembers(SkipWs(tail[1..]))
        case None => None
        case Some((members, end)) => Some((map[key := item] + members, end))
  {
  }

  lemma MembersUnfold(whole: Json, keys: seq<string>, compact: bool, rest: string)
    requires whole.Dict? && keys != [] && forall k :: k in keys ==> k in whole.members
    ensures EncodeMembers(whole, keys, compact) + rest ==
      EncodeString(keys[0]) + Colon(compact) + (Encode(whole.members[keys[0]], compact) +
        if |keys| == 1 then "}" + rest else Comma(compact) + (EncodeMembers(whole, keys[1..], compact) + rest))
  {
    hide SortedKeys, EncodeString, Encode;
  }

  lemma ItemsUnfold(whole: Json, items: seq<Json>, compact: bool, rest: string)
    requires items != [] && forall i :: 0 <= i < |items| ==> items[i] < whole
    ensures EncodeItems(whole, items, compact) + rest ==
      Encode(items[0], compact) +
        if |items| == 1 then "]" + rest else Comma(compact) + (EncodeItems(whole, items[1..], compact) + rest)
  {
    hide Encode;
  }

  lemma {:induction false} MembersRoundTrip(whole: Json, keys: seq<string>, compact: bool, rest: string)
    requires whole.Dict? && keys != [] && forall k :: k in keys ==> k in whole.members
    ensures ReadMembers(EncodeMembers(whole, keys, compact) + rest) == Some((MapOf(whole.members, keys), rest))
    decreases whole, 0, |keys|
  {
    hide ReadMembers, EncodeMembers, Encode, ReadKey, ReadValue, EncodeString, MapOf;
    var key, item := keys[0], whole.members[keys[0]];
    var text := Encode(item, compact);
    var s := EncodeMembers(whole, keys, compact) + rest;
    MembersUnfold(whole, keys, compact, rest);
    FirstChar(item, compact);
    var more := if |keys| == 1 then "" else EncodeMembers(whole, keys[1..], compact) + rest;
    var tail := if |keys| == 1 then "}" + rest else Comma(compact) + more;
    KeyRoundTrip(key, compact, text + tail);
    if |keys| > 1 {
      MembersFirst(whole, keys[1..], compact);
      SkipSeparator(Comma(compact), ',', more);
      MembersRoundTrip(whole, keys[1..], compact, rest);
    }
    ValueRoundTrip(item, compact, tail);
    MembersStep(s, key, text + tail, item, tail);
    MapOfCons(whole.members, keys);
    assert |keys| == 1 ==> tail[1..] == rest;
  }

  lemma MapOfCons(members: map<string, Json>, keys: seq<string>)
    requires keys != [] && forall k :: k in keys ==> k in members
    ensures MapOf(members, keys) == map[keys[0] := members[keys[0]]] + MapOf(members, keys[1..])
    ensures |keys| == 1 ==> MapOf(members, keys) == map[keys[0] := members[keys[0]]]
  {
  }

  lemma MembersFirst(whole: Json, keys: seq<string>, compact: bool)
    requires whole.Dict? && keys != [] && forall k :: k in keys ==> k in whole.members
    ensures EncodeMembers(whole, keys, compact)[0] == '"'
  {
  }
}
