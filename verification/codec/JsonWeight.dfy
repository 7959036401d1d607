/** A weight that printing a JSON value never raises and reading one never gains. */
module JsonWeight {
  import opened Text
  import opened JsonCodec

  // ---------------------------------------------------------------- the weight of a text

  /** An angle, a backslash, and `u` and `w` of either case weigh one; what is not printable ASCII weighs as much as
      the longest escape; nothing else weighs anything. */
  function CharWeight(c: char): nat {
    if !(32 <= c as int <= 126) then 4
    else if c == '<' || c == '\\' || c == 'u' || c == 'U' || c == 'w' || c == 'W' then 1
    else 0
  }

  function Weight(s: string): nat {
    if s == "" then 0 else CharWeight(s[0]) + Weight(s[1..])
  }

  lemma {:induction false} WeightConcat(a: string, b: string)
    ensures Weight(a + b) == Weight(a) + Weight(b)
    decreases |a|
  {
    if a == "" {
      assert a + b == b;
    } else {
      assert (a + b)[0] == a[0] && (a + b)[1..] == a[1..] + b;
      WeightConcat(a[1..], b);
    }
  }

  lemma WeightSplit(s: string, i: nat)
    requires i <= |s|
    ensures Weight(s) == Weight(s[..i]) + Weight(s[i..])
  {
    WeightConcat(s[..i], s[i..]);
    assert s == s[..i] + s[i..];
  }

  /** What is left of a text weighs no more than the text. */
  lemma EndsWeight(s: string, r: string)
    requires Ends(s, r)
    ensures Weight(r) <= Weight(s)
  {
    WeightSplit(s, |s| - |r|);
  }

  lemma {:induction false} Weightless(s: string)
    requires forall i :: 0 <= i < |s| ==> CharWeight(s[i]) == 0
    ensures Weight(s) == 0
    decreases |s|
  {
    if s != "" {
      assert forall i :: 0 <= i < |s| - 1 ==> s[1..][i] == s[i + 1];
      Weightless(s[1..]);
    }
  }

  // ---------------------------------------------------------------- printed strings

  /** The weight of a printed character. */
  function EscapeWeight(c: char): nat {
    var n := c as int;
    if c == '\\' then 2
    else if c == '"' || 8 <= n <= 10 || 12 <= n <= 13 then 1
    else if 32 <= n <= 126 then CharWeight(c)
    else if n < 0x10000 then 2
    else 4
  }

  lemma TwoChars(a: char, b: char)
    ensures Weight([a, b]) == CharWeight(a) + CharWeight(b)
  {
    OneChar(b);
    assert [a, b][1..] == [b];
  }

  lemma HexWeight(n: nat)
    requires n < 0x10000
    ensures Weight(Hex4(n)) == 0
  {
    Weightless(Hex4(n));
  }

  lemma UnicodeWeight(n: nat)
    requires n < 0x10000
    ensures Weight("\\u" + Hex4(n)) == 2
  {
    hide Hex4;
    HexWeight(n);
    TwoChars('\\', 'u');
    WeightConcat("\\u", Hex4(n));
  }

  lemma EscapedWeight(c: char)
    ensures Weight(EscapeChar(c)) == EscapeWeight(c)
  {
    hide Weight, Hex4;
    var n := c as int;
    if c in {'"', '\\', 10 as char, 13 as char, 9 as char, 12 as char, 8 as char} {
      TwoChars('\\', EscapeChar(c)[1]);
      assert EscapeChar(c) == ['\\', EscapeChar(c)[1]];
    } else if 32 <= n <= 126 {
      OneChar(c);
    } else if n < 0x10000 {
      UnicodeWeight(n);
    } else {
      var hi, lo := 0xD800 + (n - 0x10000) / 0x400, 0xDC00 + (n - 0x10000) % 0x400;
      UnicodeWeight(hi);
      UnicodeWeight(lo);
      WeightConcat("\\u" + Hex4(hi), "\\u" + Hex4(lo));
      assert EscapeChar(c) == ("\\u" + Hex4(hi)) + ("\\u" + Hex4(lo));
    }
  }

  lemma OneChar(c: char)
    ensures Weight([c]) == CharWeight(c)
  {
    assert [c][1..] == "";
  }

  /** The weight of a printed string; its quotes weigh nothing. */
  function StringWeight(s: string): nat {
    if s == "" then 0 else EscapeWeight(s[0]) + StringWeight(s[1..])
  }

  lemma {:induction false} TextWeight(s: string)
    ensures Weight(EscapeText(s)) == StringWeight(s)
    decreases |s|
  {
    hide EscapeWeight, EscapeChar;
    if s != "" {
      EscapedWeight(s[0]);
      TextWeight(s[1..]);
      WeightConcat(EscapeChar(s[0]), EscapeText(s[1..]));
    }
  }

  lemma EncodedStringWeight(s: string)
    ensures Weight(EncodeString(s)) == StringWeight(s)
  {
    hide Weight, EscapeText;
    TextWeight(s);
    OneChar('"');
    WeightConcat("\"", EscapeText(s));
    WeightConcat("\"" + EscapeText(s), "\"");
  }

  lemma {:induction false} StringWeightAt(s: string, i: nat)
    requires i < |s|
    ensures EscapeWeight(s[i]) <= StringWeight(s)
    decreases i
  {
    if i > 0 {
      StringWeightAt(s[1..], i - 1);
    }
  }

  // ---------------------------------------------------------------- the weight of a value

  /** The sum over the entries of a map, in no particular order. */
  ghost function Total(f: map<string, nat>): nat
    decreases |f.Keys|
  {
    if f.Keys == {} then 0
    else
      var k :| k in f.Keys;
      f[k] + Total(f - {k})
  }

  lemma {:induction false} TotalPick(f: map<string, nat>, k: string)
    requires k in f
    ensures Total(f) == f[k] + Total(f - {k})
    decreases |f.Keys|
  {
    var first :| first in f.Keys && Total(f) == f[first] + Total(f - {first});
    if first != k {
      TotalPick(f - {first}, k);
      TotalPick(f - {k}, first);
      assert f - {first} - {k} == f - {k} - {first};
    }
  }

  function Sum(s: seq<nat>): nat {
    if s == [] then 0 else s[0] + Sum(s[1..])
  }

  ghost function Weights(items: seq<Json>): (r: seq<nat>)
    ensures |r| == |items|
    decreases items
  {
    seq(|items|, i requires 0 <= i < |items| => ValueWeight(items[i]))
  }

  ghost function Entries(j: Json): (r: map<string, nat>)
    requires j.Dict?
    ensures r.Keys == j.members.Keys
    decreases j, 0
  {
    map k | k in j.members :: StringWeight(k) + ValueWeight(j.members[k])
  }

  /** What a value weighs when it is printed. */
  ghost function ValueWeight(j: Json): nat
    decreases j, 1
  {
    match j
    case Null => 1
    case Bool(flag) => if flag then 1 else 0
    case Int(_) => 0
    case Str(text) => StringWeight(text)
    case Arr(items) => Sum(Weights(items))
    case Dict(_) => Total(Entries(j))
  }

  // ---------------------------------------------------------------- printing

  lemma {:induction false} DigitsWeight(n: nat)
    ensures Weight(Digits(n)) == 0
    decreases n
  {
    if n < 10 {
      OneChar(DigitChar(n));
    } else {
      DigitsWeight(n / 10);
      OneChar(DigitChar(n % 10));
      WeightConcat(Digits(n / 10), [DigitChar(n % 10)]);
    }
  }

  lemma IntWeight(n: int)
    ensures Weight(EncodeInt(n)) == 0
  {
    hide Digits, Weight;
    if n < 0 {
      DigitsWeight(-n);
      OneChar('-');
      WeightConcat("-", Digits(-n));
    } else {
      DigitsWeight(n);
    }
  }

  lemma Words()
    ensures Weight("null") == 1 && Weight("true") == 1 && Weight("false") == 0
    ensures Weight("[") == 0 && Weight("]") == 0 && Weight("{") == 0 && Weight("}") == 0
  {
    hide Weight;
    TwoChars('n', 'u');
    TwoChars('l', 'l');
    WeightConcat("nu", "ll");
    assert "nu" + "ll" == "null";
    TwoChars('t', 'r');
    TwoChars('u', 'e');
    WeightConcat("tr", "ue");
    assert "tr" + "ue" == "true";
    Weightless("false");
    OneChar('[');
    OneChar(']');
    OneChar('{');
    OneChar('}');
  }

  lemma SeparatorWeight(compact: bool)
    ensures Weight(Comma(compact)) == 0 && Weight(Colon(compact)) == 0
  {
    Weightless(Comma(compact));
    Weightless(Colon(compact));
  }

  lemma WeightsCons(item: Json, items: seq<Json>)
    ensures Weights([item] + items) == [ValueWeight(item)] + Weights(items)
    ensures Sum(Weights([item] + items)) == ValueWeight(item) + Sum(Weights(items))
  {
    hide ValueWeight;
    assert Weights([item] + items) == [ValueWeight(item)] + Weights(items);
  }

  /** Printing a value weighs what the value weighs, with or without spaces. */
  lemma {:induction false} PrintedWeight(j: Json, compact: bool)
    ensures Weight(Encode(j, compact)) == ValueWeight(j)
    decreases j, 1, 0
  {
    hide Weight, EncodeString, EncodeInt, StringWeight, EncodeItems, EncodeMembers, SortedKeys, Weights, Sum, Total;
    Words();
    match j
    case Null =>
    case Bool(_) =>
    case Int(n) => IntWeight(n);
    case Str(text) => EncodedStringWeight(text);
    case Arr(items) =>
      PrintedItems(j, items, compact);
      WeightConcat("[", EncodeItems(j, items, compact));
    case Dict(members) =>
      var keys := SortedKeys(members.Keys);
      PrintedMembers(j, keys, Entries(j), compact);
      WeightConcat("{", EncodeMembers(j, keys, compact));
  }

  lemma {:induction false} PrintedItems(whole: Json, items: seq<Json>, compact: bool)
    requires forall i :: 0 <= i < |items| ==> items[i] < whole
    ensures Weight(EncodeItems(whole, items, compact)) == Sum(Weights(items))
    decreases whole, 0, |items|
  {
    hide Weight, Encode, ValueWeight, Comma;
    Words();
    if items != [] {
      var head, rest := Encode(items[0], compact), items[1..];
      PrintedWeight(items[0], compact);
      assert items == [items[0]] + rest;
      WeightsCons(items[0], rest);
      if |items| == 1 {
        WeightConcat(head, "]");
      } else {
        PrintedItems(whole, rest, compact);
        SeparatorWeight(compact);
        WeightConcat(head, Comma(compact));
        WeightConcat(head + Comma(compact), EncodeItems(whole, rest, compact));
      }
    }
  }

  lemma {:induction false} PrintedMembers(whole: Json, keys: seq<string>, f: map<string, nat>, compact: bool)
    requires whole.Dict? && (forall k :: k in keys ==> k in whole.members)
    requires (forall k :: k in f.Keys <==> k in keys) && |f.Keys| == |keys|
    requires forall k :: k in f ==> f[k] == StringWeight(k) + ValueWeight(whole.members[k])
    ensures Weight(EncodeMembers(whole, keys, compact)) == Total(f)
    decreases whole, 0, |keys|
  {
    hide Weight, Encode, EncodeString, ValueWeight, StringWeight, Comma, Colon, Total;
    Words();
    if keys == [] {
      NothingTotal(f);
    } else {
      var name, value, rest := EncodeString(keys[0]), Encode(whole.members[keys[0]], compact), keys[1..];
      var head := name + Colon(compact) + value;
      PrintedWeight(whole.members[keys[0]], compact);
      EncodedStringWeight(keys[0]);
      SeparatorWeight(compact);
      WeightConcat(name, Colon(compact));
      WeightConcat(name + Colon(compact), value);
      TotalPick(f, keys[0]);
      KeysRest(keys, f.Keys);
      if |keys| == 1 {
        NothingTotal(f - {keys[0]});
        WeightConcat(head, "}");
      } else {
        PrintedMembers(whole, rest, f - {keys[0]}, compact);
        WeightConcat(head, Comma(compact));
        WeightConcat(head + Comma(compact), EncodeMembers(whole, rest, compact));
      }
    }
  }

  lemma NothingTotal(f: map<string, nat>)
    ensures |f.Keys| == 0 ==> Total(f) == 0
  {
  }

  /** A list that names every key of a set as often as the set is large names none twice. */
  lemma KeysRest(keys: seq<string>, all: set<string>)
    requires keys != [] && (forall k :: k in all <==> k in keys) && |all| == |keys|
    ensures forall k :: k in all - {keys[0]} <==> k in keys[1..]
    ensures |all - {keys[0]}| == |keys| - 1
  {
    if keys[0] in keys[1..] {
      assert forall k :: k in all ==> k in keys[1..];
      FewKeys(keys[1..], all);
    }
    assert forall k :: k in keys <==> k == keys[0] || k in keys[1..];
  }

  lemma {:induction false} FewKeys(keys: seq<string>, all: set<string>)
    requires forall k :: k in all ==> k in keys
    ensures |all| <= |keys|
    decreases |keys|
  {
    if keys == [] {
      assert all == {};
    } else {
      FewKeys(keys[1..], all - {keys[0]});
    }
  }

  // ---------------------------------------------------------------- reading

  lemma {:induction false} SpaceLeft(s: string)
    ensures Ends(s, SkipWs(s)) && Weight(SkipWs(s)) <= Weight(s)
    decreases |s|
  {
    if s != "" && IsJsonSpace(s[0]) {
      SpaceLeft(s[1..]);
      EndsThrough(s, s[1..], SkipWs(s[1..]));
    }
  }

  /** Dropping characters that have a known weight. */
  lemma DropWeight(s: string, n: nat)
    requires n <= |s|
    ensures Ends(s, s[n..]) && Weight(s) == Weight(s[..n]) + Weight(s[n..])
  {
    WeightSplit(s, n);
  }

  lemma PrefixWeight(s: string, lit: string)
    requires StartsAt(s, 0, lit)
    ensures |lit| <= |s| && s[..|lit|] == lit && Weight(s) == Weight(lit) + Weight(s[|lit|..]) && Ends(s, s[|lit|..])
  {
    DropWeight(s, |lit|);
    assert s[..|lit|] == lit;
  }

  /** An escape weighs, with its backslash, at least as much as the character it stands for does when printed. */
  lemma EscapeRead(s: string)
    requires ReadEscape(s).Some?
    ensures var (c, rest) := ReadEscape(s).value; Ends(s, rest) && EscapeWeight(c) + Weight(rest) <= 1 + Weight(s)
  {
    hide ReadEscape, Weight, EscapeWeight, CharWeight;
    EscapeNotEmpty(s);
    if s[0] == 'u' {
      UnicodeRead(s);
    } else {
      DropWeight(s, 1);
      OneChar(s[0]);
      assert s[..1] == [s[0]];
      SimpleRead(s);
    }
  }

  lemma EscapeNotEmpty(s: string)
    requires ReadEscape(s).Some?
    ensures s != ""
  {
  }

  lemma SimpleRead(s: string)
    requires ReadEscape(s).Some? && s != "" && s[0] != 'u'
    ensures ReadEscape(s).value.1 == s[1..] && EscapeWeight(ReadEscape(s).value.0) <= 1 + CharWeight(s[0])
  {
    hide ReadHex4, StartsAt;
  }

  lemma UnicodeRead(s: string)
    requires ReadEscape(s).Some? && s[0] == 'u'
    ensures var (c, rest) := ReadEscape(s).value; Ends(s, rest) && EscapeWeight(c) + Weight(rest) <= 1 + Weight(s)
  {
    hide ReadHex4, Weight, Ends, EscapeWeight;
    var hi := ReadHex4(s[1..]).value;
    HexLength(s[1..]);
    if hi < 0xD800 || 0xE000 <= hi {
      FourDigits(s);
      BasicWeight(hi as char);
    } else {
      HexLength(s[7..]);
      PairRead(s);
      AnyWeight(ReadEscape(s).value.0);
    }
  }

  lemma BasicWeight(c: char)
    ensures c as int < 0x10000 ==> EscapeWeight(c) <= 2
  {
  }

  lemma AnyWeight(c: char)
    ensures EscapeWeight(c) <= 4
  {
  }

  lemma FourDigits(s: string)
    requires |s| >= 5 && s[0] == 'u'
    ensures Ends(s, s[5..]) && 1 + Weight(s[5..]) <= Weight(s)
  {
    hide Weight;
    DropWeight(s, 1);
    OneChar('u');
    assert s[..1] == ['u'];
    DropWeight(s[1..], 4);
    assert s[1..][4..] == s[5..];
  }

  lemma HexLength(s: string)
    ensures ReadHex4(s).Some? ==> |s| >= 4
  {
  }

  lemma PairRead(s: string)
    requires |s| >= 11 && s[0] == 'u' && StartsAt(s, 5, "\\u")
    ensures Ends(s, s[11..]) && 3 + Weight(s[11..]) <= Weight(s)
  {
    hide Weight, Ends;
    FourDigits(s);
    TwoChars('\\', 'u');
    OneChar('\\');
    assert s[5] == "\\u"[0] && s[6] == "\\u"[1];
    DropWeight(s[5..], 1);
    assert s[5..][..1] == ['\\'] && s[5..][1..] == s[6..];
    FourDigits(s[6..]);
    assert s[6..][5..] == s[11..];
    EndsThrough(s, s[5..], s[6..]);
    EndsThrough(s, s[6..], s[11..]);
  }

  lemma {:induction false} StringRead(s: string)
    requires ReadString(s).Some?
    ensures var (text, rest) := ReadString(s).value; Ends(s, rest) && StringWeight(text) + Weight(rest) <= Weight(s)
    decreases |s|
  {
    hide ReadEscape, EscapeWeight;
    assert Weight(s) == CharWeight(s[0]) + Weight(s[1..]);
    var (text, rest) := ReadString(s).value;
    if s[0] == '\\' {
      EscapeRead(s[1..]);
      var (c, after) := ReadEscape(s[1..]).value;
      StringRead(after);
      EndsThrough(s[1..], after, rest);
      EndsThrough(s, s[1..], rest);
      StringCons(c, ReadString(after).value.0);
    } else if s[0] != '"' {
      StringRead(s[1..]);
      EndsThrough(s, s[1..], rest);
      RawWeight(s[0]);
      StringCons(s[0], ReadString(s[1..]).value.0);
    }
  }

  lemma StringCons(c: char, s: string)
    ensures StringWeight([c] + s) == EscapeWeight(c) + StringWeight(s)
  {
    assert ([c] + s)[1..] == s;
  }

  /** A character that may stand for itself in a string weighs no less than its printing. */
  lemma RawWeight(c: char)
    ensures c >= ' ' && c != '"' && c != '\\' ==> EscapeWeight(c) <= CharWeight(c)
  {
  }

  lemma IntRead(s: string)
    requires ReadInt(s).Some?
    ensures Ends(s, ReadInt(s).value.1)
  {
    hide TakeDigits, DigitsValue;
    var negative := s != [] && s[0] == '-';
    var body := if negative then s[1..] else s;
    var run := TakeDigits(body);
    var ds := if run != [] && run[0] == '0' then "0" else run;
    Drop(body, |ds|);
    if negative {
      EndsThrough(s, body, body[|ds|..]);
    }
  }

  lemma ScalarRead(s: string)
    requires ReadScalar(s).Some?
    ensures var (j, rest) := ReadScalar(s).value; Ends(s, rest) && ValueWeight(j) + Weight(rest) <= Weight(s)
  {
    hide ReadString, ReadInt, StringWeight, StartsAt, Weight, Ends;
    Words();
    if s != [] && s[0] == '"' {
      StringRead(s[1..]);
      DropWeight(s, 1);
      EndsThrough(s, s[1..], ReadString(s[1..]).value.1);
    } else if StartsAt(s, 0, "null") {
      PrefixWeight(s, "null");
    } else if StartsAt(s, 0, "true") {
      PrefixWeight(s, "true");
    } else if StartsAt(s, 0, "false") {
      PrefixWeight(s, "false");
    } else {
      IntRead(s);
      EndsWeight(s, ReadInt(s).value.1);
    }
  }

  lemma KeyRead(s: string)
    requires ReadKey(s).Some?
    ensures var (key, rest) := ReadKey(s).value; Ends(s, rest) && StringWeight(key) + Weight(rest) <= Weight(s)
  {
    hide ReadString, StringWeight, Weight, SkipWs, Ends;
    StringRead(s[1..]);
    DropWeight(s, 1);
    var (key, rest) := ReadString(s[1..]).value;
    var after := SkipWs(rest);
    SpaceLeft(rest);
    DropWeight(after, 1);
    SpaceLeft(after[1..]);
    EndsThrough(after, after[1..], SkipWs(after[1..]));
    EndsThrough(rest, after, SkipWs(after[1..]));
    EndsThrough(s[1..], rest, SkipWs(after[1..]));
    EndsThrough(s, s[1..], SkipWs(after[1..]));
  }

  lemma EmptyWeight()
    ensures ValueWeight(Arr([])) == 0 && ValueWeight(Dict(map[])) == 0
  {
    assert Weights([]) == [];
    assert Entries(Dict(map[])) == map[];
  }

  /** One member more, or one that a later member of its name overrides. */
  lemma MemberAdds(key: string, value: Json, members: map<string, Json>)
    ensures ValueWeight(Dict(map[key := value] + members)) <= StringWeight(key) + ValueWeight(value) + ValueWeight(Dict(members))
  {
    hide Total, StringWeight;
    var all := Dict(map[key := value] + members);
    if key in members {
      assert map[key := value] + members == members;
    } else {
      TotalPick(Entries(all), key);
      assert Entries(all) - {key} == Entries(Dict(members));
    }
  }

  lemma OneMember(key: string, value: Json)
    ensures ValueWeight(Dict(map[key := value])) == StringWeight(key) + ValueWeight(value)
  {
    hide Total, StringWeight;
    var all := Dict(map[key := value]);
    TotalPick(Entries(all), key);
    NothingTotal(Entries(all) - {key});
    assert (Entries(all) - {key}).Keys == {};
  }

  /** Reading takes from the text at least what the value it gives weighs. */
  lemma {:induction false} ValueRead(s: string)
    requires ReadValue(s).Some?
    ensures var (j, rest) := ReadValue(s).value; Ends(s, rest) && ValueWeight(j) + Weight(rest) <= Weight(s)
    decreases |s|, 1
  {
    hide ReadScalar, ReadItems, ReadMembers, ValueWeight, Weight, SkipWs, Ends;
    if s != [] && (s[0] == '[' || s[0] == '{') {
      var after, rest := SkipWs(s[1..]), ReadValue(s).value.1;
      DropWeight(s, 1);
      SpaceLeft(s[1..]);
      EndsThrough(s, s[1..], after);
      EmptyWeight();
      if after != [] && after[0] == (if s[0] == '[' then ']' else '}') {
        DropWeight(after, 1);
      } else if s[0] == '[' {
        ItemsRead(after);
      } else {
        MembersRead(after);
      }
      EndsThrough(s, after, rest);
    } else {
      ScalarRead(s);
    }
  }

  lemma {:induction false} ItemsRead(s: string)
    requires ReadItems(s).Some?
    ensures var (items, rest) := ReadItems(s).value; Ends(s, rest) && ValueWeight(Arr(items)) + Weight(rest) <= Weight(s)
    decreases |s|, 2
  {
    hide ReadValue, Weight, SkipWs, Ends;
    ValueRead(s);
    var (item, rest) := ReadValue(s).value;
    var after, end := SkipWs(rest), ReadItems(s).value.1;
    SpaceLeft(rest);
    DropWeight(after, 1);
    if after[0] == ']' {
      WeightsCons(item, []);
      EmptyWeight();
      assert [item] + [] == [item];
      EndsThrough(rest, after, end);
      EndsThrough(s, rest, end);
    } else {
      var next := SkipWs(after[1..]);
      SpaceLeft(after[1..]);
      ItemsRead(next);
      WeightsCons(item, ReadItems(next).value.0);
      EndsThrough(after, after[1..], next);
      EndsThrough(rest, after, next);
      EndsThrough(s, rest, next);
      EndsThrough(s, next, end);
    }
  }

  lemma {:induction false} MembersRead(s: string)
    requires ReadMembers(s).Some?
    ensures var (members, rest) := ReadMembers(s).value;
      Ends(s, rest) && ValueWeight(Dict(members)) + Weight(rest) <= Weight(s)
    decreases |s|, 2
  {
    hide ReadKey, ReadValue, Weight, SkipWs, Ends, ValueWeight, StringWeight;
    KeyRead(s);
    var (key, body) := ReadKey(s).value;
    ValueRead(body);
    var (item, rest) := ReadValue(body).value;
    var after, end := SkipWs(rest), ReadMembers(s).value.1;
    SpaceLeft(rest);
    DropWeight(after, 1);
    EndsThrough(s, body, rest);
    EndsThrough(s, rest, after);
    if after[0] == '}' {
      OneMember(key, item);
      EndsThrough(s, after, end);
    } else {
      var next := SkipWs(after[1..]);
      SpaceLeft(after[1..]);
      MembersRead(next);
      MemberAdds(key, item, ReadMembers(next).value.0);
      EndsThrough(after, after[1..], next);
      EndsThrough(s, after, next);
      EndsThrough(s, next, end);
    }
  }
}
