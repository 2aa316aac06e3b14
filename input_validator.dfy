/**
  `InputValidator`: the title rule and text clean-up of `validate_and_clean`, the keyword scan of
  `check_sensitive_content`, and `_clean_text`.
*/
module InputValidation {
  import opened Wrappers
  import opened Text
  import opened Requests

  // ------------------------------------------------------------ clean-up

  /** The four entity rewrites of `_clean_text`, applied in this order. */
  function DecodeEntities(s: string): string {
    ReplaceAll(ReplaceAll(ReplaceAll(ReplaceAll(s, "&nbsp;", " "), "&amp;", "&"), "&lt;", "<"), "&gt;", ">")
  }

  /**
    `_clean_text`: an empty text is returned as it is; otherwise whitespace is stripped and collapsed,
    then `<...>` tags are removed, then the entities are decoded.
  */
  function CleanText(s: string): string {
    if s == "" then s else DecodeEntities(RemoveTags(NormalizeSpace(s)))
  }

  /** Text with no whitespace, no '<' and no '&' comes out of `_clean_text` unchanged. */
  lemma CleanTextPlain(s: string)
    requires NoSpace(s) && '<' !in s && '&' !in s
    ensures CleanText(s) == s
  {
    if s != "" {
      NormalizeNoSpace(s);
      RemoveTagsNoTag(s);
      ReplaceFreeChar(s, "&nbsp;", " ");
      ReplaceFreeChar(s, "&amp;", "&");
      ReplaceFreeChar(s, "&lt;", "<");
      ReplaceFreeChar(s, "&gt;", ">");
    }
  }

  /**
    On text with no '<' and no '&', `_clean_text` changes whitespace only: every other
    character stays, in order.
  */
  lemma CleanTextKeepsText(s: string)
    requires '<' !in s && '&' !in s
    ensures NonSpace(CleanText(s)) == NonSpace(s)
  {
    if s != "" {
      var t := NormalizeSpace(s);
      NormalizeKeepsText(s);
      NonSpaceMembers(t, '<');
      NonSpaceMembers(s, '<');
      NonSpaceMembers(t, '&');
      NonSpaceMembers(s, '&');
      RemoveTagsNoTag(t);
      ReplaceFreeChar(t, "&nbsp;", " ");
      ReplaceFreeChar(t, "&amp;", "&");
      ReplaceFreeChar(t, "&lt;", "<");
      ReplaceFreeChar(t, "&gt;", ">");
    }
  }

  /**
    A tag `<x>` in text without whitespace or entities is removed whole: the text before it is
    kept and the text after it is cleaned on its own.
  */
  lemma CleanTextDropsTag(a: string, x: string, b: string)
    requires var s := a + "<" + x + ">" + b; NoSpace(s) && '&' !in s
    requires '<' !in a && x != [] && '>' !in x
    ensures CleanText(a + "<" + x + ">" + b) == a + CleanText(b)
  {
    var p := a + "<" + x + ">";
    assert p + b == a + "<" + x + ">" + b;
    assert NoSpace(b) && '&' !in b by {
      assert forall i :: 0 <= i < |b| ==> b[i] == (p + b)[|p| + i];
    }
    CleanTextIsTagRemoval(p + b);
    CleanTextIsTagRemoval(b);
    RemoveTagsSkipsTag(a, x, b);
  }

  /** Without whitespace and entities, `_clean_text` is tag removal alone. */
  lemma CleanTextIsTagRemoval(s: string)
    requires NoSpace(s) && '&' !in s
    ensures CleanText(s) == RemoveTags(s)
  {
    if s != "" {
      NormalizeNoSpace(s);
      var r := RemoveTags(s);
      assert '&' !in r;
      ReplaceFreeChar(r, "&nbsp;", " ");
      ReplaceFreeChar(r, "&amp;", "&");
      ReplaceFreeChar(r, "&lt;", "<");
      ReplaceFreeChar(r, "&gt;", ">");
    }
  }

  /** The whitespace step leaves neither edge whitespace nor two adjacent whitespace characters, and only blanks. */
  lemma CleanTextSpaceStep(s: string)
    ensures var t := NormalizeSpace(s); EdgeFree(t) && NoSpaceRun(t)
    ensures var t := NormalizeSpace(s); forall i :: 0 <= i < |t| && IsSpace(t[i]) ==> t[i] == ' '
  {
  }

  /** After tag removal and before decoding no `<...>` match is left. */
  lemma CleanTextTagStep(s: string)
    ensures TagFree(RemoveTags(NormalizeSpace(s)))
  {
    RemoveTagsTagFree(NormalizeSpace(s));
  }

  /** `&amp;` is decoded before `&lt;`, so a doubly encoded '<' ends as '<'. */
  lemma CleanTextEntityOrder()
    ensures CleanText("&amp;lt;") == "<"
  {
    var s := "&amp;lt;";
    PlainNoTag(s);
    DecodeDoubleLt();
  }

  /**
    Tags are removed before entities are decoded: a literal tag disappears, while an
    entity-encoded one survives as a tag.
  */
  lemma CleanTextTagsBeforeEntities()
    ensures CleanText("<b>") == ""
    ensures CleanText("&lt;b&gt;") == "<b>"
  {
    RemoveLiteralTag();
    EncodedTagSurvives();
  }

  lemma EncodedTagSurvives()
    ensures CleanText("&lt;b&gt;") == "<b>"
  {
    PlainNoTag("&lt;b&gt;");
    DecodeEncodedTag();
  }

  /** Neither whitespace step nor tag removal touches a text without whitespace and '<'. */
  lemma PlainNoTag(s: string)
    requires s != "" && NoSpace(s) && '<' !in s
    ensures CleanText(s) == DecodeEntities(s)
  {
    NormalizeNoSpace(s);
    RemoveTagsNoTag(s);
  }

  lemma RemoveLiteralTag()
    ensures CleanText("<b>") == ""
  {
    var t := "<b>";
    assert NoSpace(t);
    NormalizeNoSpace(t);
    LiteralTagRemoved();
    assert DecodeEntities("") == "";
  }

  /** `<b>` is one whole tag. */
  lemma LiteralTagRemoved()
    ensures RemoveTags("<b>") == ""
  {
    var t := "<b>";
    assert t[1..][1..] == ">";
    assert CloseIndex(t[1..][1..]) == 0;
    assert CloseIndex(t[1..]) == 1;
    assert CloseIndex(t) == 2;
    assert TagStart(t);
    assert t[3..] == [];
    assert RemoveTags(t) == RemoveTags([]);
  }

  lemma DecodeDoubleLt()
    ensures DecodeEntities("&amp;lt;") == "<"
  {
    AmpNoMatch("amp;lt;", "", "&nbsp;", " ");
    assert "&" + "amp;lt;" + "" == "&amp;lt;";
    AmpFirstMatch();
    assert ReplaceAll("&lt;", "&lt;", "<") == "<" + ReplaceAll("", "&lt;", "<");
    ReplaceFreeChar("<", "&gt;", ">");
  }

  /** The single `&amp;` of `&amp;lt;` is decoded, and the `lt;` after it is left alone. */
  lemma AmpFirstMatch()
    ensures ReplaceAll("&amp;lt;", "&amp;", "&") == "&lt;"
  {
    var s := "&amp;lt;";
    assert "&amp;" <= s;
    assert s[5..] == "lt;";
    ReplaceFreeChar("lt;", "&amp;", "&");
  }

  lemma DecodeEncodedTag()
    ensures DecodeEntities("&lt;b&gt;") == "<b>"
  {
    ReplaceNoMatchSplit("&nbsp;", " ");
    ReplaceNoMatchSplit("&amp;", "&");
    DecodeLtStep();
    DecodeGtStep();
  }

  lemma DecodeLtStep()
    ensures ReplaceAll("&lt;b&gt;", "&lt;", "<") == "<b&gt;"
  {
    var s := "&lt;b&gt;";
    assert "&lt;" <= s;
    assert s[4..] == "b" + "&gt;";
    ReplaceConcatFree("b", "&gt;", "&lt;", "<");
    assert !("&lt;" <= "&gt;") by { assert "&gt;"[1] == 'g'; }
    assert "&gt;"[1..] == "gt;";
    ReplaceFreeChar("gt;", "&lt;", "<");
  }

  lemma DecodeGtStep()
    ensures ReplaceAll("<b&gt;", "&gt;", ">") == "<b>"
  {
    ReplaceConcatFree("<b", "&gt;", "&gt;", ">");
    assert "<b&gt;" == "<b" + "&gt;";
    assert "&gt;" <= "&gt;";
    assert ReplaceAll("&gt;", "&gt;", ">") == ">" + ReplaceAll("", "&gt;", ">");
  }

  /** `&lt;b&gt;` has no `&nbsp;` and no `&amp;`, so those two rewrites leave it alone. */
  lemma ReplaceNoMatchSplit(pat: string, rep: string)
    requires |pat| >= 2 && pat[0] == '&' && pat[1] != 'l' && pat[1] != 'g'
    ensures ReplaceAll("&lt;b&gt;", pat, rep) == "&lt;b&gt;"
  {
    assert ReplaceAll("", pat, rep) == "";
    AmpNoMatch("gt;", "", pat, rep);
    assert "&" + "gt;" + "" == "&gt;";
    var tail := ReplaceAll("&gt;", pat, rep);
    assert tail == "&gt;";
    AmpNoMatch("lt;b", "&gt;", pat, rep);
    assert "&" + "lt;b" + "&gt;" == "&lt;b&gt;";
    assert "&" + "lt;b" + tail == "&lt;b&gt;";
  }

  /** A pattern `&c...` does not match at an `&` that is followed by something other than `c`. */
  lemma AmpNoMatch(t: string, u: string, pat: string, rep: string)
    requires |pat| >= 2 && pat[0] == '&' && t != [] && t[0] != pat[1] && '&' !in t
    ensures ReplaceAll("&" + t + u, pat, rep) == "&" + t + ReplaceAll(u, pat, rep)
  {
    var s := "&" + t + u;
    assert !(pat <= s) by { assert s[1] == t[0]; }
    assert s[1..] == t + u;
    ReplaceConcatFree(t, u, pat, rep);
  }

  /** Replacing in `a + b` where no match starts inside `a`, and `a` carries no first character of the pattern. */
  lemma {:induction false} ReplaceConcatFree(a: string, b: string, pat: string, rep: string)
    requires |pat| > 0 && pat[0] !in a
    ensures ReplaceAll(a + b, pat, rep) == a + ReplaceAll(b, pat, rep)
    decreases |a|
  {
    if a != [] {
      assert (a + b)[0] == a[0] != pat[0];
      assert !(pat <= a + b);
      assert (a + b)[1..] == a[1..] + b;
      assert pat[0] !in a[1..];
      ReplaceConcatFree(a[1..], b, pat, rep);
    } else {
      assert a + b == b;
    }
  }

  // ---------------------------------------------------------- validation

  const TitleTooShortMessage := "ArrangementTitel skal v\U{E6}re mindst 3 tegn"

  /** The title rule: a title that is empty or shorter than 3 characters once stripped is refused. */
  predicate TitleTooShort(title: string) {
    title == "" || |Strip(title)| < 3
  }

  /** `_clean_text` applied to an optional field when it is truthy. */
  function CleanField(o: Option<string>): (r: Option<string>)
    ensures r.None? <==> o.None?
    ensures o.Some? ==> r == Some(CleanText(o.value))
  {
    if Truthy(o) then Some(CleanText(o.value)) else o
  }

  /** The field values of the copy `validate_and_clean` returns. */
  function Cleaned(f: RequestFields): RequestFields {
    f.(arrangementTitel := if f.arrangementTitel != "" then CleanText(f.arrangementTitel) else f.arrangementTitel,
       ncTeaser := CleanField(f.ncTeaser),
       ncBeskrivelse := CleanField(f.ncBeskrivelse),
       beskrivelseHtmlFri := CleanField(f.beskrivelseHtmlFri))
  }

  /** Only the four text fields change, each to its cleaned text; every other field is kept. */
  lemma CleanedFields(f: RequestFields)
    ensures Cleaned(f).arrangementTitel == CleanText(f.arrangementTitel)
    ensures Cleaned(f).ncTeaser == CleanField(f.ncTeaser)
    ensures Cleaned(f).ncBeskrivelse == CleanField(f.ncBeskrivelse)
    ensures Cleaned(f).beskrivelseHtmlFri == CleanField(f.beskrivelseHtmlFri)
    ensures Cleaned(f).(arrangementTitel := f.arrangementTitel, ncTeaser := f.ncTeaser,
                        ncBeskrivelse := f.ncBeskrivelse, beskrivelseHtmlFri := f.beskrivelseHtmlFri) == f
  {
  }

  /**
    `validate_and_clean`: refuses a too-short title with a `ValueError`; otherwise returns a new
    request whose text fields are cleaned. The argument is not changed.
  */
  method ValidateAndClean(a: EventTagRequest) returns (r: Result<EventTagRequest>)
    ensures r.Err? <==> TitleTooShort(a.arrangementTitel)
    ensures r.Err? ==> r.error == TitleTooShortMessage
    ensures r.Ok? ==> fresh(r.value) && r.value.Fields() == Cleaned(a.Fields())
  {
    if a.arrangementTitel == "" || |Strip(a.arrangementTitel)| < 3 {
      return Err(TitleTooShortMessage);
    }
    var c := a.Copy();
    var title, teaser, beskrivelse, htmlFri := c.arrangementTitel, c.ncTeaser, c.ncBeskrivelse, c.beskrivelseHtmlFri;
    if title != "" {
      title := CleanText(title);
    }
    if Truthy(teaser) {
      teaser := Some(CleanText(teaser.value));
    }
    if Truthy(beskrivelse) {
      beskrivelse := Some(CleanText(beskrivelse.value));
    }
    if Truthy(htmlFri) {
      htmlFri := Some(CleanText(htmlFri.value));
    }
    c.SetTextFields(title, teaser, beskrivelse, htmlFri);
    r := Ok(c);
  }

  // ------------------------------------------------------ sensitive words

  const SensitiveKeywords: seq<string> :=
    ["klassificeret", "hemmeligt", "fortroligt", "privat", "personf\U{F8}lsomme", "gdpr", "databeskyttelse"]

  const SensitiveConfidence: real := 0.8

  datatype SensitivityCheckResult = SensitivityCheckResult(
    containsSensitiveContent: bool,
    reason: Option<string>,
    confidence: real)

  function OrEmpty(o: Option<string>): string {
    if o.Some? then o.value else ""
  }

  /** The four text fields joined by single blanks, lower-cased; a missing field contributes "". */
  function TextToCheck(f: RequestFields): string {
    Lower(f.arrangementTitel + " " + OrEmpty(f.ncTeaser) + " " + OrEmpty(f.ncBeskrivelse)
          + " " + OrEmpty(f.beskrivelseHtmlFri))
  }

  function Reason(keyword: string): string {
    "Indeholder f\U{F8}lsomt n\U{F8}gleord: " + keyword
  }

  /** The index of the first keyword, in list order, whose lower-case form occurs in `text`. */
  function FirstHit(keywords: seq<string>, text: string): (r: Option<nat>)
    ensures r.Some? ==> r.value < |keywords| && Contains(text, Lower(keywords[r.value]))
    ensures r.Some? ==> forall j :: 0 <= j < r.value ==> !Contains(text, Lower(keywords[j]))
    ensures r.None? <==> forall j :: 0 <= j < |keywords| ==> !Contains(text, Lower(keywords[j]))
    decreases |keywords|
  {
    if keywords == [] then None
    else if Contains(text, Lower(keywords[0])) then Some(0)
    else
      match FirstHit(keywords[1..], text)
      case None => None
      case Some(i) => Some(i + 1)
  }

  /** `check_sensitive_content` on the request's field values. */
  function CheckSensitiveContent(f: RequestFields): (r: SensitivityCheckResult)
    ensures r.containsSensitiveContent <==>
              exists j :: 0 <= j < |SensitiveKeywords| && Contains(TextToCheck(f), Lower(SensitiveKeywords[j]))
    ensures r.containsSensitiveContent ==>
              r.confidence == SensitiveConfidence
              && exists j :: 0 <= j < |SensitiveKeywords| && r.reason == Some(Reason(SensitiveKeywords[j]))
                             && Contains(TextToCheck(f), Lower(SensitiveKeywords[j]))
                             && forall k :: 0 <= k < j ==> !Contains(TextToCheck(f), Lower(SensitiveKeywords[k]))
    ensures !r.containsSensitiveContent ==> r.reason == None && r.confidence == 0.0
  {
    match FirstHit(SensitiveKeywords, TextToCheck(f))
    case Some(j) => SensitivityCheckResult(true, Some(Reason(SensitiveKeywords[j])), SensitiveConfidence)
    case None => SensitivityCheckResult(false, None, 0.0)
  }

  /** An occurrence in either part is an occurrence in the concatenation. */
  lemma ContainsConcat(a: string, b: string, pat: string)
    ensures Contains(a, pat) ==> Contains(a + b, pat)
    ensures Contains(b, pat) ==> Contains(a + b, pat)
  {
    if i :| OccursAt(a, pat, i) {
      assert (a + b)[i..i + |pat|] == a[i..i + |pat|];
      assert OccursAt(a + b, pat, i);
    }
    if i :| OccursAt(b, pat, i) {
      assert (a + b)[|a| + i..|a| + i + |pat|] == b[i..i + |pat|];
      assert OccursAt(a + b, pat, |a| + i);
    }
  }

  /** A keyword found in any one of the four fields (compared lower-cased) flags the request. */
  lemma KeywordInFieldFlagged(f: RequestFields, j: nat)
    requires j < |SensitiveKeywords|
    requires var k := Lower(SensitiveKeywords[j]);
      Contains(Lower(f.arrangementTitel), k) || Contains(Lower(OrEmpty(f.ncTeaser)), k)
      || Contains(Lower(OrEmpty(f.ncBeskrivelse)), k) || Contains(Lower(OrEmpty(f.beskrivelseHtmlFri)), k)
    ensures CheckSensitiveContent(f).containsSensitiveContent
  {
    var k := Lower(SensitiveKeywords[j]);
    var t, te, be, ht := f.arrangementTitel, OrEmpty(f.ncTeaser), OrEmpty(f.ncBeskrivelse), OrEmpty(f.beskrivelseHtmlFri);
    LowerConcat(t + " " + te + " " + be + " ", ht);
    LowerConcat(t + " " + te + " " + be, " ");
    LowerConcat(t + " " + te + " ", be);
    LowerConcat(t + " " + te, " ");
    LowerConcat(t + " ", te);
    LowerConcat(t, " ");
    var l := Lower(t) + Lower(" ");
    ContainsConcat(Lower(t), Lower(" "), k);
    ContainsConcat(l, Lower(te), k);
    ContainsConcat(l + Lower(te), Lower(" "), k);
    ContainsConcat(l + Lower(te) + Lower(" "), Lower(be), k);
    ContainsConcat(l + Lower(te) + Lower(" ") + Lower(be), Lower(" "), k);
    ContainsConcat(l + Lower(te) + Lower(" ") + Lower(be) + Lower(" "), Lower(ht), k);
    assert TextToCheck(f) == l + Lower(te) + Lower(" ") + Lower(be) + Lower(" ") + Lower(ht);
  }
}
