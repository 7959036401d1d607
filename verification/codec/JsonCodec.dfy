/** The JSON the codec prints (RFC 8259, sections 2 to 7) and json.JSONDecoder.raw_decode on it. Values are
    everything json.loads can return except floating-point numbers. */
module JsonCodec {
  import opened Text

  datatype Json =
    | Null
    | Bool(flag: bool)
    | Int(number: int)
    | Str(text: string)
    | Arr(items: seq<Json>)
    | Dict(members: map<string, Json>)

  // ---------------------------------------------------------------- printing

  function DigitChar(d: nat): (c: char)
    requires d < 16
  {
    if d < 10 then ('0' as int + d) as char else ('a' as int + d - 10) as char
  }

  function Hex4(n: nat): (r: string)
    requires n < 0x10000
    ensures |r| == 4
  {
    [DigitChar(n / 4096), DigitChar(n / 256 % 16), DigitChar(n / 16 % 16), DigitChar(n % 16)]
  }

  /** One character of a string printed with ensure_ascii; beyond the basic plane as a surrogate pair. */
  function EscapeChar(c: char): (r: string)
    ensures r != []
  {
    var n := c as int;
    if c == '"' then "\\\""
    else if c == '\\' then "\\\\"
    else if n == 10 then "\\n"
    else if n == 13 then "\\r"
    else if n == 9 then "\\t"
    else if n == 12 then "\\f"
    else if n == 8 then "\\b"
    else if 32 <= n <= 126 then [c]
    else if n < 0x10000 then "\\u" + Hex4(n)
    else "\\u" + Hex4(0xD800 + (n - 0x10000) / 0x400) + "\\u" + Hex4(0xDC00 + (n - 0x10000) % 0x400)
  }

  function EscapeText(s: string): string {
    if s == [] then "" else EscapeChar(s[0]) + EscapeText(s[1..])
  }

  function EncodeString(s: string): string {
    "\"" + EscapeText(s) + "\""
  }

  function Digits(n: nat): (r: string)
    ensures r != []
  {
    if n < 10 then [DigitChar(n)] else Digits(n / 10) + [DigitChar(n % 10)]
  }

  function EncodeInt(n: int): (r: string) {
    if n < 0 then "-" + Digits(-n) else Digits(n)
  }

  /** Python's ordering of str: by code point, a prefix first. */
  predicate LexLe(a: string, b: string) {
    a == [] || (b != [] && (a[0] < b[0] || (a[0] == b[0] && LexLe(a[1..], b[1..]))))
  }

  lemma {:induction false} LexTotal(a: string, b: string)
    ensures LexLe(a, b) || LexLe(b, a)
    decreases |a|
  {
    if a != [] && b != [] && a[0] == b[0] {
      LexTotal(a[1..], b[1..]);
    }
  }

  lemma {:induction false} LexTransitive(a: string, b: string, c: string)
    requires LexLe(a, b) && LexLe(b, c)
    ensures LexLe(a, c)
    decreases |a|
  {
    if a != [] && a[0] == b[0] && b[0] == c[0] {
      LexTransitive(a[1..], b[1..], c[1..]);
    }
  }

  ghost predicate IsLeast(k: string, keys: set<string>) {
    k in keys && forall x :: x in keys ==> LexLe(k, x)
  }

  lemma {:induction false} LeastExists(keys: set<string>)
    requires keys != {}
    ensures exists k :: IsLeast(k, keys)
    decreases |keys|
  {
    var k :| k in keys;
    LexTotal(k, k);
    if keys == {k} {
      assert IsLeast(k, keys);
    } else {
      LeastExists(keys - {k});
      var least :| IsLeast(least, keys - {k});
      LexTotal(k, least);
      if LexLe(k, least) {
        forall x | x in keys ensures LexLe(k, x) {
          if x != k {
            LexTransitive(k, least, x);
          }
        }
        assert IsLeast(k, keys);
      } else {
        assert IsLeast(least, keys);
      }
    }
  }

  /** sorted(keys) */
  ghost function SortedKeys(keys: set<string>): (r: seq<string>)
    ensures forall k :: k in keys <==> k in r
    ensures |r| == |keys|
    decreases |keys|
  {
    if keys == {} then []
    else
      LeastExists(keys);
      var least :| IsLeast(least, keys);
      [least] + SortedKeys(keys - {least})
  }

  /** The text of a value; `compact` drops the space after separators. Objects print in key order. */
  ghost function Encode(j: Json, compact: bool): (r: string)
    ensures r != []
    decreases j, 1, 0
  {
    match j
    case Null => "null"
    case Bool(flag) => if flag then "true" else "false"
    case Int(n) => EncodeInt(n)
    case Str(text) => EncodeString(text)
    case Arr(items) => "[" + EncodeItems(j, items, compact)
    case Dict(members) => "{" + EncodeMembers(j, SortedKeys(members.Keys), compact)
  }

  function Comma(compact: bool): string {
    if compact then "," else ", "
  }

  function Colon(compact: bool): string {
    if compact then ":" else ": "
  }

  /** The items still to print, with the closing bracket. */
  ghost function EncodeItems(whole: Json, items: seq<Json>, compact: bool): (r: string)
    requires forall i :: 0 <= i < |items| ==> items[i] < whole
    ensures r != []
    decreases whole, 0, |items|
  {
    if items == [] then "]"
    else if |items| == 1 then Encode(items[0], compact) + "]"
    else Encode(items[0], compact) + Comma(compact) + EncodeItems(whole, items[1..], compact)
  }

  /** The members still to print, in the order of `keys`, with the closing brace. */
  ghost function EncodeMembers(whole: Json, keys: seq<string>, compact: bool): (r: string)
    requires whole.Dict? && forall k :: k in keys ==> k in whole.members
    ensures r != []
    decreases whole, 0, |keys|
  {
    if keys == [] then "}"
    else
      var head := EncodeString(keys[0]) + Colon(compact) + Encode(whole.members[keys[0]], compact);
      if |keys| == 1 then head + "}"
      else head + Comma(compact) + EncodeMembers(whole, keys[1..], compact)
  }

  // ---------------------------------------------------------------- reading

  predicate IsJsonSpace(c: char) {
    c == ' ' || c == '\t' || c == '\n' || c == '\r'
  }

  function SkipWs(s: string): (r: string)
    ensures |r| <= |s|
  {
    if s != [] && IsJsonSpace(s[0]) then SkipWs(s[1..]) else s
  }

  function HexValue(c: char): (d: nat)
    ensures d <= 16
  {
    if '0' <= c <= '9' then c as int - '0' as int
    else if 'a' <= c <= 'f' then c as int - 'a' as int + 10
    else if 'A' <= c <= 'F' then c as int - 'A' as int + 10
    else 16
  }

  function ReadHex4(s: string): (r: Option<nat>)
    ensures r.Some? ==> r.value < 0x10000
  {
    if |s| < 4 || HexValue(s[0]) == 16 || HexValue(s[1]) == 16 || HexValue(s[2]) == 16 || HexValue(s[3]) == 16 then None
    else Some(4096 * HexValue(s[0]) + 256 * HexValue(s[1]) + 16 * HexValue(s[2]) + HexValue(s[3]))
  }

  /** The character an escape denotes and the text after it; `s` starts after the backslash.
      A surrogate that is not half of a pair has no character here. */
  function ReadEscape(s: string): (r: Option<(char, string)>)
    ensures r.Some? ==> |r.value.1| < |s|
  {
    if s == [] then None
    else if s[0] == '"' || s[0] == '\\' || s[0] == '/' then Some((s[0], s[1..]))
    else if s[0] == 'b' then Some((8 as char, s[1..]))
    else if s[0] == 'f' then Some((12 as char, s[1..]))
    else if s[0] == 'n' then Some((10 as char, s[1..]))
    else if s[0] == 'r' then Some((13 as char, s[1..]))
    else if s[0] == 't' then Some((9 as char, s[1..]))
    else if s[0] != 'u' then None
    else
      match ReadHex4(s[1..])
      case None => None
      case Some(hi) =>
        if hi < 0xD800 || 0xE000 <= hi then Some((hi as char, s[5..]))
        else if hi < 0xDC00 && StartsAt(s, 5, "\\u") then
          match ReadHex4(s[7..])
          case None => None
          case Some(lo) =>
            if 0xDC00 <= lo < 0xE000
            then Some(((0x10000 + (hi - 0xD800) * 0x400 + (lo - 0xDC00)) as char, s[11..]))
            else None
        else None
  }

  /** The rest of a string literal after its opening quote, and what follows it. */
  function ReadString(s: string): (r: Option<(string, string)>)
    ensures r.Some? ==> |r.value.1| < |s|
    decreases |s|
  {
    if s == [] || s[0] < ' ' then None
    else if s[0] == '"' then Some(("", s[1..]))
    else if s[0] == '\\' then
      match ReadEscape(s[1..])
      case None => None
      case Some((c, after)) =>
        match ReadString(after)
        case None => None
        case Some((text, rest)) => Some(([c] + text, rest))
    else
      match ReadString(s[1..])
      case None => None
      case Some((text, rest)) => Some(([s[0]] + text, rest))
  }

  predicate IsDigit(c: char) {
    '0' <= c <= '9'
  }

  function TakeDigits(s: string): (r: string)
    ensures r <= s && forall i :: 0 <= i < |r| ==> IsDigit(r[i])
    ensures |r| < |s| ==> !IsDigit(s[|r|])
  {
    if s != [] && IsDigit(s[0]) then [s[0]] + TakeDigits(s[1..]) else ""
  }

  function DigitsValue(ds: string): (n: nat)
    requires forall i :: 0 <= i < |ds| ==> IsDigit(ds[i])
  {
    if ds == [] then 0
    else
      assert IsDigit(ds[|ds| - 1]);
      10 * DigitsValue(ds[..|ds| - 1]) + (ds[|ds| - 1] as int - '0' as int)
  }

  /** A number; one with a fraction or an exponent is outside the model. */
  function ReadInt(s: string): (r: Option<(int, string)>)
    ensures r.Some? ==> |r.value.1| < |s|
  {
    var negative := s != [] && s[0] == '-';
    var body := if negative then s[1..] else s;
    var run := TakeDigits(body);
    var ds := if run != [] && run[0] == '0' then "0" else run;
    if ds == [] then None
    else
      var rest := body[|ds|..];
      if rest != [] && (rest[0] == '.' || rest[0] == 'e' || rest[0] == 'E') then None
      else
        var n: int := DigitsValue(ds);
        Some((if negative then -n else n, rest))
  }

  /** A value that is neither an array nor an object. */
  function ReadScalar(s: string): (r: Option<(Json, string)>)
    ensures r.Some? ==> |r.value.1| < |s|
  {
    if s != [] && s[0] == '"' then
      match ReadString(s[1..])
      case None => None
      case Some((text, rest)) => Some((Str(text), rest))
    else if StartsAt(s, 0, "null") then Some((Null, s[4..]))
    else if StartsAt(s, 0, "true") then Some((Bool(true), s[4..]))
    else if StartsAt(s, 0, "false") then Some((Bool(false), s[5..]))
    else
      match ReadInt(s)
      case None => None
      case Some((n, rest)) => Some((Int(n), rest))
  }

  /** A member's name and colon: the name and the text of its value. */
  function ReadKey(s: string): (r: Option<(string, string)>)
    ensures r.Some? ==> |r.value.1| < |s|
  {
    if s == [] || s[0] != '"' then None
    else
      match ReadString(s[1..])
      case None => None
      case Some((key, rest)) =>
        var after := SkipWs(rest);
        if after == [] || after[0] != ':' then None else Some((key, SkipWs(after[1..])))
  }

  /** scan_once: the value at the start of `s` and the text after it. */
  function ReadValue(s: string): (r: Option<(Json, string)>)
    ensures r.Some? ==> |r.value.1| < |s|
    decreases |s|, 1
  {
    if s != [] && s[0] == '[' then
      var after := SkipWs(s[1..]);
      if after != [] && after[0] == ']' then Some((Arr([]), after[1..]))
      else
        match ReadItems(after)
        case None => None
        case Some((items, rest)) => Some((Arr(items), rest))
    else if s != [] && s[0] == '{' then
      var after := SkipWs(s[1..]);
      if after != [] && after[0] == '}' then Some((Dict(map[]), after[1..]))
      else
        match ReadMembers(after)
        case None => None
        case Some((members, rest)) => Some((Dict(members), rest))
    else ReadScalar(s)
  }

  function ReadItems(s: string): (r: Option<(seq<Json>, string)>)
    ensures r.Some? ==> |r.value.1| < |s|
    decreases |s|, 2
  {
    match ReadValue(s)
    case None => None
    case Some((item, rest)) =>
      var after := SkipWs(rest);
      if after == [] then None
      else if after[0] == ']' then Some(([item], after[1..]))
      else if after[0] != ',' then None
      else
        match ReadItems(SkipWs(after[1..]))
        case None => None
        case Some((items, end)) => Some(([item] + items, end))
  }

  /** Members up to the closing brace; a repeated key keeps its last value. */
  function ReadMembers(s: string): (r: Option<(map<string, Json>, string)>)
    ensures r.Some? ==> |r.value.1| < |s|
    decreases |s|, 2
  {
    match ReadKey(s)
    case None => None
    case Some((key, body)) =>
      match ReadValue(body)
      case None => None
      case Some((item, rest)) =>
        var after := SkipWs(rest);
        if after == [] then None
        else if after[0] == '}' then Some((map[key := item], after[1..]))
        else if after[0] != ',' then None
        else
          match ReadMembers(SkipWs(after[1..]))
          case None => None
          case Some((members, end)) => Some((map[key := item] + members, end))
  }
}
