/** The element scanner on rendered XML, seen as a list of pieces. */
module ScannerExact {
  import opened Text
  import opened ActionRender
  import opened ElementScanner

  /** Rendered XML is a sequence of start tags, end tags, escaped text and CDATA sections. */
  datatype Piece = OpenTag(text: string) | CloseTag(name: string) | Plain(text: string) | CData(text: string)

  function PieceText(p: Piece): string {
    match p
    case OpenTag(text) => "<" + text + ">"
    case CloseTag(name) => "</" + name + ">"
    case Plain(text) => text
    case CData(text) => CDATA_START + text + CDATA_END
  }

  function Flat(ps: seq<Piece>): string {
    if ps == [] then "" else PieceText(ps[0]) + Flat(ps[1..])
  }

  lemma Associative(a: string, b: string, c: string)
    ensures (a + b) + c == a + (b + c)
  {
  }

  lemma {:induction false} FlatConcat(a: seq<Piece>, b: seq<Piece>)
    ensures Flat(a + b) == Flat(a) + Flat(b)
  {
    hide PieceText;
    if a == [] {
      assert a + b == b;
    } else {
      FlatConcat(a[1..], b);
      assert (a + b)[0] == a[0] && (a + b)[1..] == a[1..] + b;
      Associative(PieceText(a[0]), Flat(a[1..]), Flat(b));
    }
  }

  /** Scanning the text of a tag from quote state `q` meets no closing `>` and ends outside quotes. */
  predicate Quiet(t: string, q: Option<char>) {
    if t == [] then q == None
    else if q == None then
      t[0] != '>' && Quiet(t[1..], if t[0] == '"' || t[0] == '\'' then Some(t[0]) else None)
    else Quiet(t[1..], if t[0] == q.value then None else q)
  }

  predicate TagTextOk(t: string) {
    && t != [] && Stripped(t) && Quiet(t, None)
    && t[0] != '?' && t[0] != '!' && t[0] != '/' && t[|t| - 1] != '/'
  }

  /** A built-in reference, or what can only become a character reference. */
  predicate ReferenceAt(s: string, i: nat) {
    || StartsAt(s, i, "&lt;") || StartsAt(s, i, "&gt;") || StartsAt(s, i, "&amp;")
    || StartsAt(s, i, "&quot;") || StartsAt(s, i, "&apos;") || StartsAt(s, i, "&#")
  }

  /** Every `&` opens a reference. */
  predicate References(s: string) {
    forall i :: 0 <= i < |s| && s[i] == '&' ==> ReferenceAt(s, i)
  }

  predicate NoOpenAngle(s: string) {
    forall i :: 0 <= i < |s| ==> s[i] != '<'
  }

  predicate PieceOk(p: Piece) {
    match p
    case OpenTag(text) => TagTextOk(text) && NoOpenAngle(text) && '&' !in text
    case CloseTag(name) => name != [] && TagTextOk(name) && NoOpenAngle(name) && '&' !in name
    case Plain(text) => NoOpenAngle(text) && References(text)
    case CData(text) => Find(CDATA_END, text, 0) == -1
  }

  predicate PiecesOk(ps: seq<Piece>) {
    forall i :: 0 <= i < |ps| ==> PieceOk(ps[i])
  }

  // ---------------------------------------------------------------- one piece

  lemma {:induction false} TagEndOver(s: string, i: nat, t: string, q: Option<char>)
    requires Quiet(t, q) && StartsAt(s, i, t) && i + |t| < |s| && s[i + |t|] == '>'
    ensures TagEndFrom(s, i, q) == Some(i + |t| + 1)
    decreases |t|
  {
    if t != [] {
      assert s[i] == t[0];
      assert t == [t[0]] + t[1..];
      SplitAt(s, i, [t[0]], t[1..]);
      TagEndOver(s, i + 1, t[1..],
        if q == None then (if t[0] == '"' || t[0] == '\'' then Some(t[0]) else None)
        else if t[0] == q.value then None else q);
    }
  }

  lemma TagChars(s: string, i: nat, t: string)
    requires StartsAt(s, i, "<" + t + ">") && t != []
    ensures i + |t| + 2 <= |s|
    ensures s[i] == '<' && s[i + 1] == t[0] && s[i + 1 + |t|] == '>'
    ensures StartsAt(s, i + 1, t)
  {
    var tag := "<" + t + ">";
    assert s[i] == tag[0] && s[i + 1] == tag[1] && s[i + (|t| + 1)] == tag[|t| + 1];
    StartsInside(s, i, tag, 1, t);
  }

  lemma StepIsTagStep(s: string, i: nat, depth: nat)
    requires i + 1 < |s| && s[i] == '<' && s[i + 1] != '!'
    ensures ScanStep(s, i, depth) == TagStep(s, i, depth)
  {
    hide TagStep, Find;
    NotStarting(s, i, CDATA_START);
    NotStarting(s, i, "<!--");
  }

  lemma TagStepIs(s: string, i: nat, t: string, depth: nat)
    requires StartsAt(s, i + 1, t) && i + 1 + |t| < |s|
    requires TagEndFrom(s, i + 1, None) == Some(i + |t| + 2)
    requires Strip(t) == t
    ensures TagStep(s, i, depth) == AfterTag(t, i + |t| + 2, depth)
  {
    hide AfterTag, TagEndFrom, Strip;
    StartsIsSlice(s, i + 1, t);
  }

  lemma StepAtTag(s: string, i: nat, t: string, depth: nat)
    requires StartsAt(s, i, "<" + t + ">")
    requires t != [] && t[0] != '!' && Stripped(t) && Quiet(t, None)
    ensures i + |t| + 2 <= |s| && ScanStep(s, i, depth) == AfterTag(t, i + |t| + 2, depth)
  {
    hide *;
    TagChars(s, i, t);
    StepIsTagStep(s, i, depth);
    TagEndOver(s, i + 1, t, None);
    StripProperties(t);
    TagStepIs(s, i, t, depth);
  }

  lemma StepIsCData(s: string, i: nat, end: nat, depth: nat)
    requires StartsAt(s, i, CDATA_START) && Find(CDATA_END, s, i + 9) == end
    ensures i < |s| && ScanStep(s, i, depth) == Move(end + 3, depth)
  {
    hide Find, TagStep;
  }

  lemma StepAtCData(s: string, i: nat, t: string, depth: nat)
    requires Find(CDATA_END, t, 0) == -1
    requires StartsAt(s, i, CDATA_START + t + CDATA_END)
    ensures i < |s| && ScanStep(s, i, depth) == Move(i + |CDATA_START + t + CDATA_END|, depth)
  {
    hide Find, ScanStep, StartsAt;
    SplitAt(s, i, CDATA_START + t, CDATA_END);
    SplitAt(s, i, CDATA_START, t);
    FindCDataEnd(s, i + 9, t);
    StepIsCData(s, i, i + 9 + |t|, depth);
  }

  lemma StepAtChar(s: string, i: nat, depth: nat)
    requires i < |s| && s[i] != '<'
    ensures ElementEndFrom(s, i, depth) == ElementEndFrom(s, i + 1, depth)
  {
    hide Find, TagStep;
    NotStarting(s, i, CDATA_START);
    NotStarting(s, i, "<!--");
    assert ScanStep(s, i, depth) == Move(i + 1, depth);
  }

  lemma {:induction false} ScanPlain(s: string, i: nat, t: string, depth: nat)
    requires StartsAt(s, i, t) && NoOpenAngle(t)
    ensures ElementEndFrom(s, i, depth) == ElementEndFrom(s, i + |t|, depth)
    decreases |t|
  {
    hide ElementEndFrom;
    if t != [] {
      assert s[i] == t[0];
      StepAtChar(s, i, depth);
      assert t == [t[0]] + t[1..];
      SplitAt(s, i, [t[0]], t[1..]);
      ScanPlain(s, i + 1, t[1..], depth);
    }
  }

  /** A step that moves on is a step of the whole scan. */
  lemma ScanOn(s: string, i: nat, depth: nat, next: nat, newDepth: nat)
    requires i < |s| && ScanStep(s, i, depth) == Move(next, newDepth)
    ensures ElementEndFrom(s, i, depth) == ElementEndFrom(s, next, newDepth)
  {
    hide ScanStep;
  }

  // ---------------------------------------------------------------- a run of pieces

  /** The element depth after `ps`, when the element entered before them is not closed by them. */
  function DepthAfter(ps: seq<Piece>, depth: nat): Option<nat> {
    if depth == 0 then None
    else if ps == [] then Some(depth)
    else
      match ps[0]
      case OpenTag(_) => DepthAfter(ps[1..], depth + 1)
      case CloseTag(_) => DepthAfter(ps[1..], depth - 1)
      case _ => DepthAfter(ps[1..], depth)
  }

  lemma TagFacts(t: string)
    requires TagTextOk(t)
    ensures t != [] && Stripped(t) && Quiet(t, None)
    ensures t[0] != '?' && t[0] != '!' && t[0] != '/' && t[|t| - 1] != '/'
  {
  }

  lemma ScanPiece(s: string, i: nat, p: Piece, depth: nat)
    requires PieceOk(p) && StartsAt(s, i, PieceText(p)) && 0 < depth
    requires p.CloseTag? ==> 1 < depth
    ensures ElementEndFrom(s, i, depth) == ElementEndFrom(s, i + |PieceText(p)|,
      match p case OpenTag(_) => depth + 1 case CloseTag(_) => depth - 1 case _ => depth)
  {
    hide ElementEndFrom, ScanStep, StartsAt, Find, Quiet, Stripped, References, NoOpenAngle;
    hide TagTextOk;
    match p
    case OpenTag(t) =>
      TagFacts(t);
      StepAtTag(s, i, t, depth);
      ScanOn(s, i, depth, i + |t| + 2, depth + 1);
    case CloseTag(name) =>
      CloseTagText(name);
      StepAtTag(s, i, "/" + name, depth);
      ScanOn(s, i, depth, i + |name| + 3, depth - 1);
    case Plain(t) => ScanPlain(s, i, t, depth);
    case CData(t) =>
      StepAtCData(s, i, t, depth);
      ScanOn(s, i, depth, i + |PieceText(p)|, depth);
  }

  lemma CloseTagText(name: string)
    requires TagTextOk(name)
    ensures "</" + name + ">" == "<" + ("/" + name) + ">"
    ensures Stripped("/" + name) && Quiet("/" + name, None) && ("/" + name)[0] == '/'
  {
    assert ("/" + name)[1..] == name;
  }

  /** Text, CDATA and balanced tags never stop the scanner before the element around them ends. */
  lemma {:induction false} ScanPieces(s: string, i: nat, ps: seq<Piece>, depth: nat)
    requires PiecesOk(ps) && StartsAt(s, i, Flat(ps)) && DepthAfter(ps, depth).Some?
    ensures ElementEndFrom(s, i, depth) == ElementEndFrom(s, i + |Flat(ps)|, DepthAfter(ps, depth).value)
    decreases |ps|
  {
    hide ElementEndFrom, StartsAt, PieceText, PieceOk;
    if ps != [] {
      SplitAt(s, i, PieceText(ps[0]), Flat(ps[1..]));
      ScanPiece(s, i, ps[0], depth);
      var after: nat := match ps[0] case OpenTag(_) => depth + 1 case CloseTag(_) => depth - 1 case _ => depth;
      ScanPieces(s, i + |PieceText(ps[0])|, ps[1..], after);
    }
  }

  /** An element's pieces: its start tag, its balanced content and its end tag. */
  predicate IsElement(ps: seq<Piece>) {
    && |ps| >= 2 && PiecesOk(ps)
    && ps[0].OpenTag? && ps[|ps| - 1].CloseTag?
    && DepthAfter(ps[1..|ps| - 1], 1) == Some(1)
  }

  lemma ElementIsOk(ps: seq<Piece>)
    requires IsElement(ps)
    ensures PiecesOk(ps)
  {
  }

  lemma ElementParts(ps: seq<Piece>)
    requires |ps| >= 2
    ensures Flat(ps) == PieceText(ps[0]) + (Flat(ps[1..|ps| - 1]) + PieceText(ps[|ps| - 1]))
  {
    hide PieceText;
    var body, last := ps[1..|ps| - 1], ps[|ps| - 1];
    FlatOne(last);
    FlatCons(ps);
    hide Flat;
    assert ps[1..] == body + [last];
    FlatConcat(body, [last]);
  }

  lemma FlatOne(p: Piece)
    ensures Flat([p]) == PieceText(p)
  {
    hide PieceText;
    assert [p][1..] == [];
    assert PieceText(p) + "" == PieceText(p);
  }

  lemma FlatCons(ps: seq<Piece>)
    requires ps != []
    ensures Flat(ps) == PieceText(ps[0]) + Flat(ps[1..])
  {
  }

  lemma EnterElement(s: string, i: nat, t: string)
    requires StartsAt(s, i, "<" + t + ">") && TagTextOk(t)
    ensures ElementEnd(s, i) == ElementEndFrom(s, i + |t| + 2, 1)
  {
    hide ScanStep, ElementEndFrom, Quiet, Stripped, StartsAt;
    TagChars(s, i, t);
    StepAtTag(s, i, t, 0);
    ScanOn(s, i, 0, i + |t| + 2, 1);
  }

  lemma LeaveElement(s: string, i: nat, name: string)
    requires StartsAt(s, i, "</" + name + ">") && TagTextOk(name)
    ensures ElementEndFrom(s, i, 1) == Some(i + |name| + 3)
  {
    hide ScanStep, Quiet, Stripped, StartsAt;
    CloseTagText(name);
    StepAtTag(s, i, "/" + name, 1);
  }

  /** _find_xml_element_end stops exactly at the end of a rendered element, whatever its text contains. */
  lemma ElementEndExact(s: string, i: nat, ps: seq<Piece>)
    requires IsElement(ps) && StartsAt(s, i, Flat(ps))
    ensures ElementEnd(s, i) == Some(i + |Flat(ps)|)
  {
    hide ElementEnd, ElementEndFrom, StartsAt, Flat, Quiet, Stripped;
    var body, last := ps[1..|ps| - 1], ps[|ps| - 1];
    ElementParts(ps);
    var open, close := PieceText(ps[0]), PieceText(last);
    SplitAt(s, i, open, Flat(body) + close);
    SplitAt(s, i + |open|, Flat(body), close);
    EnterElement(s, i, ps[0].text);
    ScanPieces(s, i + |open|, body, 1);
    LeaveElement(s, i + |open| + |Flat(body)|, last.name);
  }
}
