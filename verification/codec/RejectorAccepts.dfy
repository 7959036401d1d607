/** The construct rejector accepts every payload the XML printer can emit: clean markup and whole CDATA sections
    in any order. */
module RejectorAccepts {
  import opened Text
  import opened ActionRender
  import opened ElementScanner
  import opened ScannerExact

  /** Markup without declarations, instructions or comments, and with built-in and character references only. */
  predicate Clean(m: string) {
    References(m)
    && forall k :: 0 <= k < |m| && m[k] == '<' ==> k + 1 < |m| && m[k + 1] != '!' && m[k + 1] != '?'
  }

  lemma ReferencesConcat(a: string, b: string)
    requires References(a) && References(b)
    ensures References(a + b)
  {
    hide ReferenceAt, StartsAt;
    var ab := a + b;
    WholeStands(ab);
    SplitAt(ab, 0, a, b);
    forall i | 0 <= i < |ab| && ab[i] == '&' ensures ReferenceAt(ab, i) {
      if i < |a| {
        assert a[i] == '&';
        ReferenceInside(ab, 0, a, i);
      } else {
        assert b[i - |a|] == '&';
        ReferenceInside(ab, |a|, b, i - |a|);
      }
    }
  }

  lemma WholeStands(s: string)
    ensures StartsAt(s, 0, s)
  {
  }

  lemma ReferenceInside(s: string, i: nat, t: string, k: nat)
    requires StartsAt(s, i, t) && ReferenceAt(t, k)
    ensures ReferenceAt(s, i + k)
  {
    hide StartsAt;
    StartsInsideAny(s, i, t, k);
  }

  lemma StartsInsideAny(s: string, i: nat, t: string, k: nat)
    requires StartsAt(s, i, t)
    ensures forall lit :: StartsAt(t, k, lit) ==> StartsAt(s, i + k, lit)
  {
    hide StartsAt;
    forall lit | StartsAt(t, k, lit) ensures StartsAt(s, i + k, lit) {
      WithinLength(t, k, lit);
      StartsInside(s, i, t, k, lit);
    }
  }

  lemma WithinLength(t: string, k: nat, lit: string)
    requires StartsAt(t, k, lit)
    ensures k + |lit| <= |t|
  {
  }

  lemma CleanConcat(a: string, b: string)
    requires Clean(a) && Clean(b)
    ensures Clean(a + b)
  {
    hide References;
    ReferencesConcat(a, b);
    var ab := a + b;
    forall k | 0 <= k < |ab| && ab[k] == '<' ensures k + 1 < |ab| && ab[k + 1] != '!' && ab[k + 1] != '?' {
      if k < |a| {
        assert a[k] == '<' && ab[k + 1] == a[k + 1];
      } else {
        assert b[k - |a|] == '<' && ab[k + 1] == b[k - |a| + 1];
      }
    }
  }

  lemma PieceIsClean(p: Piece)
    requires PieceOk(p) && !p.CData?
    ensures Clean(PieceText(p))
  {
    hide Quiet, Stripped, StartsAt;
    var text := PieceText(p);
    match p
    case OpenTag(t) =>
      assert forall k :: 0 < k < |text| - 1 ==> text[k] == t[k - 1];
      assert text[0] == '<' && text[1] == t[0] && text[|text| - 1] == '>';
      assert forall k :: 0 <= k < |t| ==> t[k] in t;
    case CloseTag(t) =>
      assert forall k :: 1 < k < |text| - 1 ==> text[k] == t[k - 2];
      assert text[0] == '<' && text[1] == '/' && text[|text| - 1] == '>';
      assert forall k :: 0 <= k < |t| ==> t[k] in t;
    case Plain(t) =>
  }

  lemma NoMarkupIn(m: string, snippet: string)
    requires Clean(m) && |snippet| >= 2 && snippet[0] == '<' && (snippet[1] == '!' || snippet[1] == '?')
    ensures Find(snippet, Lower(m), 0) == -1
  {
    hide References;
    var low := Lower(m);
    hide StartsAt;
    NotBeyond(low, snippet);
    forall k | 0 <= k < |low| ensures !StartsAt(low, k, snippet) {
      FirstTwo(low, k, snippet);
      assert low[k] == LowerChar(m[k]) && (k + 1 < |low| ==> low[k + 1] == LowerChar(m[k + 1]));
    }
  }

  lemma {:induction false} TakeEntityExact(name: string, rest: string)
    requires forall i :: 0 <= i < |name| ==> EntityChar(name[i])
    requires rest != [] && rest[0] == ';'
    ensures TakeEntity(name + rest) == name
    decreases |name|
  {
    if name == [] {
      assert name + rest == rest;
    } else {
      assert (name + rest)[1..] == name[1..] + rest;
      TakeEntityExact(name[1..], rest);
    }
  }

  lemma AllowedReference(m: string, i: nat, name: string)
    requires i < |m| && m[i] == '&' && StartsAt(m, i, "&" + name + ";")
    requires name in ["lt", "gt", "amp", "quot", "apos"]
    ensures ReferenceAllowed(m, i)
  {
    var whole := "&" + name + ";";
    SplitAt(m, i, "&", name + ";");
    assert whole == "&" + (name + ";");
    SplitAt(m, i + 1, name, ";");
    StartsIsSlice(m, i + 1, name);
    var rest := m[i + 1 + |name|..];
    assert m[i + 1..] == name + rest;
    assert rest[0] == m[i + 1 + |name|] == ";"[0];
    TakeEntityExact(name, rest);
  }

  lemma CleanSegment(m: string)
    requires Clean(m)
    ensures SegmentAllowed(m)
  {
    hide ReferenceAllowed, Find, StartsAt;
    NoMarkupIn(m, "<!doctype");
    NoMarkupIn(m, "<!entity");
    NoMarkupIn(m, "<?");
    NoMarkupIn(m, "<!--");
    forall i | 0 <= i < |m| && m[i] == '&' ensures ReferenceAllowed(m, i) {
      ReferencePasses(m, i);
    }
  }

  lemma ReferencePasses(m: string, i: nat)
    requires i < |m| && m[i] == '&' && ReferenceAt(m, i)
    ensures ReferenceAllowed(m, i)
  {
    hide ReferenceAllowed, StartsAt;
    assert "&lt;" == "&" + "lt" + ";" && "&gt;" == "&" + "gt" + ";" && "&amp;" == "&" + "amp" + ";";
    assert "&quot;" == "&" + "quot" + ";" && "&apos;" == "&" + "apos" + ";";
    if StartsAt(m, i, "&lt;") {
      AllowedReference(m, i, "lt");
    } else if StartsAt(m, i, "&gt;") {
      AllowedReference(m, i, "gt");
    } else if StartsAt(m, i, "&amp;") {
      AllowedReference(m, i, "amp");
    } else if StartsAt(m, i, "&quot;") {
      AllowedReference(m, i, "quot");
    } else if StartsAt(m, i, "&apos;") {
      AllowedReference(m, i, "apos");
    } else {
      NoNameAfterHash(m, i);
    }
  }

  lemma NoNameAfterHash(m: string, i: nat)
    requires i < |m| && m[i] == '&' && StartsAt(m, i, "&#")
    ensures ReferenceAllowed(m, i)
  {
    assert m[i + 1] == "&#"[1];
    assert TakeEntity(m[i + 1..]) == "";
  }

  /** No CDATA section opens inside clean markup. */
  lemma NoCDataIn(s: string, i: nat, j: nat)
    requires i <= j <= |s| && Clean(s[i..j])
    ensures forall k :: i <= k < j ==> !StartsAt(s, k, CDATA_START)
  {
    hide References, StartsAt;
    var m := s[i..j];
    forall k | i <= k < j ensures !StartsAt(s, k, CDATA_START) {
      FirstTwo(s, k, CDATA_START);
      assert m[k - i] == s[k] && (k + 1 < j ==> m[k - i + 1] == s[k + 1]);
    }
  }

  lemma AllowedEnd(s: string, i: nat)
    requires i <= |s| && Clean(s[i..])
    ensures AllowedFrom(s, i)
  {
    hide SegmentAllowed, Clean, StartsAt;
    assert s[i..|s|] == s[i..];
    NoCDataIn(s, i, |s|);
    CleanSegment(s[i..]);
    NotBeyond(s, CDATA_START);
  }

  lemma AllowedCData(s: string, i: nat, j: nat, t: string)
    requires i <= j <= |s| && Clean(s[i..j]) && Find(CDATA_END, t, 0) == -1
    requires StartsAt(s, j, CDATA_START + t + CDATA_END)
    requires AllowedFrom(s, j + |CDATA_START + t + CDATA_END|)
    ensures AllowedFrom(s, i)
  {
    hide SegmentAllowed, Clean, StartsAt;
    NoCDataIn(s, i, j);
    CleanSegment(s[i..j]);
    SplitAt(s, j, CDATA_START + t, CDATA_END);
    SplitAt(s, j, CDATA_START, t);
    FindCDataEnd(s, j + 9, t);
    assert Find(CDATA_START, s, i) == j;
  }

  /** From clean markup s[i..j] followed by the pieces `ps` up to the end, nothing is rejected. */
  lemma {:induction false} AllowedPieces(s: string, i: nat, j: nat, ps: seq<Piece>)
    requires i <= j <= |s| && Clean(s[i..j]) && PiecesOk(ps)
    requires StartsAt(s, j, Flat(ps)) && j + |Flat(ps)| == |s|
    ensures AllowedFrom(s, i)
    decreases |ps|
  {
    hide AllowedFrom, Clean, StartsAt, PieceOk;
    if ps == [] {
      assert s[i..j] == s[i..];
      AllowedEnd(s, i);
    } else {
      var text := PieceText(ps[0]);
      var next := j + |text|;
      SplitAt(s, j, text, Flat(ps[1..]));
      if ps[0].CData? {
        CleanNothing();
        assert s[next..next] == "";
        AllowedPieces(s, next, next, ps[1..]);
        PieceIsOk(ps, 0);
        AllowedCData(s, i, j, ps[0].text);
      } else {
        CleanGrows(s, i, j, ps[0]);
        AllowedPieces(s, i, next, ps[1..]);
      }
    }
  }

  lemma CleanGrows(s: string, i: nat, j: nat, p: Piece)
    requires i <= j <= |s| && Clean(s[i..j]) && PieceOk(p) && !p.CData? && StartsAt(s, j, PieceText(p))
    ensures j + |PieceText(p)| <= |s| && Clean(s[i..j + |PieceText(p)|])
  {
    hide Clean, StartsAt, PieceOk, PieceText;
    var text := PieceText(p);
    PieceIsClean(p);
    CleanConcat(s[i..j], text);
    StartsIsSlice(s, j, text);
    assert s[i..j] + s[j..j + |text|] == s[i..j + |text|];
  }

  lemma CleanNothing()
    ensures Clean("")
  {
  }

  lemma PieceIsOk(ps: seq<Piece>, i: nat)
    requires PiecesOk(ps) && i < |ps| && ps[i].CData?
    ensures Find(CDATA_END, ps[i].text, 0) == -1
  {
    hide Find;
    assert PieceOk(ps[i]);
  }

  /** _reject_disallowed_xml_constructs accepts any well-formed list of printed pieces. */
  lemma RejectorAcceptsPieces(ps: seq<Piece>)
    requires PiecesOk(ps)
    ensures AllowedFrom(Flat(ps), 0)
  {
    hide AllowedFrom, PieceOk, Flat;
    CleanNothing();
    assert Flat(ps)[0..0] == "";
    AllowedPieces(Flat(ps), 0, 0, ps);
  }
}
