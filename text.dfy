/**
  The string operations of Python's `str` and `re` that the modelled code relies on:
  `isspace`/`\s`, `strip`, `upper`, `lower`, `in`, `replace`, `re.sub(r'\s+', ' ', ...)`
  and `re.sub(r'<[^>]+>', '', ...)`, written out as explicit scans over `seq<char>`.
*/
module Text {

  /** Python's `str.isspace`, which is also what `\s` matches in a `str` pattern. */
  predicate IsSpace(c: char) {
    var n := c as int;
    n == 0x20 || 0x09 <= n <= 0x0D || 0x1C <= n <= 0x1F || n == 0x85 || n == 0xA0
    || n == 0x1680 || 0x2000 <= n <= 0x200A || n == 0x2028 || n == 0x2029
    || n == 0x202F || n == 0x205F || n == 0x3000
  }

  predicate AllSpace(s: string) {
    forall i :: 0 <= i < |s| ==> IsSpace(s[i])
  }

  predicate NoSpace(s: string) {
    forall i :: 0 <= i < |s| ==> !IsSpace(s[i])
  }

  /** No leading and no trailing whitespace. */
  predicate EdgeFree(s: string) {
    s == [] || (!IsSpace(s[0]) && !IsSpace(s[|s| - 1]))
  }

  /** No two adjacent whitespace characters. */
  predicate NoSpaceRun(s: string) {
    forall i :: 0 <= i < |s| - 1 ==> !IsSpace(s[i]) || !IsSpace(s[i + 1])
  }

  // ---------------------------------------------------------------- strip

  /** Length of the leading whitespace run. */
  function LeadCount(s: string): (n: nat)
    ensures n <= |s| && forall k :: 0 <= k < n ==> IsSpace(s[k])
    ensures n < |s| ==> !IsSpace(s[n])
  {
    if |s| > 0 && IsSpace(s[0]) then 1 + LeadCount(s[1..]) else 0
  }

  /** Length of the trailing whitespace run. */
  function TrailCount(s: string): (n: nat)
    ensures n <= |s| && forall k :: |s| - n <= k < |s| ==> IsSpace(s[k])
    ensures n < |s| ==> !IsSpace(s[|s| - n - 1])
  {
    if |s| > 0 && IsSpace(s[|s| - 1]) then 1 + TrailCount(s[..|s| - 1]) else 0
  }

  /** `str.strip()`: the whitespace-bounded middle of `s`. */
  function Strip(s: string): (r: string)
    ensures EdgeFree(r)
    ensures LeadCount(s) + |r| <= |s|
    ensures r == s[LeadCount(s)..LeadCount(s) + |r|]
    ensures AllSpace(s[..LeadCount(s)]) && AllSpace(s[LeadCount(s) + |r|..])
  {
    var i := LeadCount(s);
    var t := s[i..];
    var j := TrailCount(t);
    assert AllSpace(s[..i]);
    assert AllSpace(s[i + (|t| - j)..]) by {
      assert s[i + (|t| - j)..] == t[|t| - j..];
    }
    t[..|t| - j]
  }

  /** Stripping a string that has no edge whitespace changes nothing, so `Strip` is idempotent. */
  lemma StripKeepsEdgeFree(s: string)
    requires EdgeFree(s)
    ensures Strip(s) == s
  {
    if s != [] {
      assert LeadCount(s) == 0;
      assert TrailCount(s) == 0;
    }
  }

  lemma StripIdempotent(s: string)
    ensures Strip(Strip(s)) == Strip(s)
  {
    StripKeepsEdgeFree(Strip(s));
  }

  // ---------------------------------------------------------- upper, lower

  /** `str.upper` on one character: ASCII and Latin-1 letters; everything else is unchanged. */
  function UpperChar(c: char): char {
    if 'a' <= c <= 'z' then (c as int - 32) as char
    else if '\U{E0}' <= c <= '\U{FE}' && c != '\U{F7}' then (c as int - 32) as char
    else if c == '\U{B5}' then '\U{39C}'
    else if c == '\U{FF}' then '\U{178}'
    else c
  }

  /** `str.lower` on one character: ASCII and Latin-1 letters; everything else is unchanged. */
  function LowerChar(c: char): char {
    if 'A' <= c <= 'Z' then (c as int + 32) as char
    else if '\U{C0}' <= c <= '\U{DE}' && c != '\U{D7}' then (c as int + 32) as char
    else c
  }

  function Upper(s: string): (r: string)
    ensures |r| == |s|
    ensures forall i :: 0 <= i < |s| ==> r[i] == UpperChar(s[i])
  {
    seq(|s|, i requires 0 <= i < |s| => UpperChar(s[i]))
  }

  function Lower(s: string): (r: string)
    ensures |r| == |s|
    ensures forall i :: 0 <= i < |s| ==> r[i] == LowerChar(s[i])
  {
    seq(|s|, i requires 0 <= i < |s| => LowerChar(s[i]))
  }

  /** An upper-cased string holds no ASCII lower-case letter, and upper-casing it again changes nothing. */
  lemma UpperIsUpper(s: string)
    ensures forall i :: 0 <= i < |Upper(s)| ==> !('a' <= Upper(s)[i] <= 'z')
    ensures Upper(Upper(s)) == Upper(s)
  {
  }

  lemma LowerConcat(a: string, b: string)
    ensures Lower(a + b) == Lower(a) + Lower(b)
  {
  }

  // ------------------------------------------------------------ substring

  predicate OccursAt(text: string, pat: string, i: int) {
    0 <= i && i + |pat| <= |text| && text[i..i + |pat|] == pat
  }

  /** Python's `pat in text` on strings. */
  function Contains(text: string, pat: string): (b: bool)
    ensures b <==> exists i :: OccursAt(text, pat, i)
    decreases |text|
  {
    if pat <= text then
      assert OccursAt(text, pat, 0);
      true
    else if text == [] then
      assert forall i :: !OccursAt(text, pat, i);
      false
    else
      var b := Contains(text[1..], pat);
      ShiftOccurrence(text, pat);
      b
  }

  /** `pat` occurs in `text` iff it is a prefix or occurs in `text[1..]` (one position earlier). */
  lemma ShiftOccurrence(text: string, pat: string)
    requires text != []
    ensures (exists i :: OccursAt(text, pat, i)) <==> pat <= text || (exists i :: OccursAt(text[1..], pat, i))
  {
    if i :| OccursAt(text, pat, i) {
      if i == 0 {
        assert text[..|pat|] == pat;
      } else {
        assert text[1..][i - 1..i - 1 + |pat|] == text[i..i + |pat|];
        assert OccursAt(text[1..], pat, i - 1);
      }
    }
    if pat <= text {
      assert OccursAt(text, pat, 0);
    }
    if i :| OccursAt(text[1..], pat, i) {
      assert text[1..][i..i + |pat|] == text[i + 1..i + 1 + |pat|];
      assert OccursAt(text, pat, i + 1);
    }
  }

  // -------------------------------------------------------------- replace

  /** `s.replace(pat, rep)`: leftmost, non-overlapping occurrences, scanned left to right. */
  function ReplaceAll(s: string, pat: string, rep: string): (r: string)
    requires |pat| > 0
    decreases |s|
  {
    if pat <= s then rep + ReplaceAll(s[|pat|..], pat, rep)
    else if s == [] then []
    else [s[0]] + ReplaceAll(s[1..], pat, rep)
  }

  /** A string that does not contain the pattern comes back unchanged. */
  lemma {:induction false} ReplaceAbsent(s: string, pat: string, rep: string)
    requires |pat| > 0 && !Contains(s, pat)
    ensures ReplaceAll(s, pat, rep) == s
    decreases |s|
  {
    assert !OccursAt(s, pat, 0);
    if s != [] {
      ShiftOccurrence(s, pat);
      ReplaceAbsent(s[1..], pat, rep);
    }
  }

  /** A pattern whose first character does not occur in `s` is never replaced. */
  lemma {:induction false} ReplaceFreeChar(s: string, pat: string, rep: string)
    requires |pat| > 0 && pat[0] !in s
    ensures ReplaceAll(s, pat, rep) == s
    decreases |s|
  {
    if s != [] {
      assert s[0] != pat[0];
      assert !(pat <= s);
      assert pat[0] !in s[1..];
      ReplaceFreeChar(s[1..], pat, rep);
    }
  }

  /**
    Replacing a one-character pattern by text that does not hold that character leaves no
    occurrence of it, and keeps the length when the replacement is one character too.
  */
  lemma {:induction false} ReplaceCharRemoves(s: string, c: char, rep: string)
    requires c !in rep
    ensures c !in ReplaceAll(s, [c], rep)
    ensures |rep| == 1 ==> |ReplaceAll(s, [c], rep)| == |s|
    decreases |s|
  {
    if [c] <= s {
      ReplaceCharRemoves(s[1..], c, rep);
    } else if s != [] {
      ReplaceCharRemoves(s[1..], c, rep);
    }
  }

  /** Replacing a one-character pattern brings in no character that neither the text nor the replacement holds. */
  lemma {:induction false} ReplaceCharKeepsAbsent(s: string, c: char, rep: string, d: char)
    requires d !in s && d !in rep
    ensures d !in ReplaceAll(s, [c], rep)
    decreases |s|
  {
    if s != [] {
      assert d !in s[1..];
      ReplaceCharKeepsAbsent(s[1..], c, rep, d);
    }
  }

  // --------------------------------------------------- whitespace collapse

  /** `re.sub(r'\s+', ' ', s)`: every maximal whitespace run becomes one blank. */
  function CollapseSpace(s: string): (r: string)
    ensures NoSpaceRun(r)
    ensures forall i :: 0 <= i < |r| && IsSpace(r[i]) ==> r[i] == ' '
    ensures (r == []) == (s == [])
    ensures r != [] ==> (IsSpace(r[0]) <==> IsSpace(s[0]))
    ensures r != [] ==> (IsSpace(r[|r| - 1]) <==> IsSpace(s[|s| - 1]))
    decreases |s|
  {
    if s == [] then []
    else if IsSpace(s[0]) then
      var n := LeadCount(s);
      var rest := s[n..];
      assert n == |s| ==> IsSpace(s[|s| - 1]);
      " " + CollapseSpace(rest)
    else [s[0]] + CollapseSpace(s[1..])
  }

  /** The first step of `_clean_text`: strip, then collapse whitespace runs. */
  function NormalizeSpace(s: string): (r: string)
    ensures EdgeFree(r) && NoSpaceRun(r)
    ensures forall i :: 0 <= i < |r| && IsSpace(r[i]) ==> r[i] == ' '
  {
    CollapseSpace(Strip(s))
  }

  /** A string without whitespace passes through both whitespace steps unchanged. */
  lemma {:induction false} CollapseNoSpace(s: string)
    requires NoSpace(s)
    ensures CollapseSpace(s) == s
    decreases |s|
  {
    if s != [] {
      CollapseNoSpace(s[1..]);
    }
  }

  lemma NormalizeNoSpace(s: string)
    requires NoSpace(s)
    ensures NormalizeSpace(s) == s
  {
    StripKeepsEdgeFree(s);
    CollapseNoSpace(s);
  }

  /** The non-whitespace characters of `s`, in order. */
  function NonSpace(s: string): (r: string)
    ensures NoSpace(r) && |r| <= |s|
    decreases |s|
  {
    if s == [] then [] else (if IsSpace(s[0]) then [] else [s[0]]) + NonSpace(s[1..])
  }

  lemma {:induction false} NonSpaceConcat(a: string, b: string)
    ensures NonSpace(a + b) == NonSpace(a) + NonSpace(b)
    decreases |a|
  {
    if a != [] {
      assert (a + b)[1..] == a[1..] + b;
      NonSpaceConcat(a[1..], b);
    } else {
      assert a + b == b;
    }
  }

  lemma {:induction false} NonSpaceOfSpace(s: string)
    requires AllSpace(s)
    ensures NonSpace(s) == []
    decreases |s|
  {
    if s != [] {
      NonSpaceOfSpace(s[1..]);
    }
  }

  /** A non-whitespace character occurs in `NonSpace(s)` exactly when it occurs in `s`. */
  lemma {:induction false} NonSpaceMembers(s: string, c: char)
    requires !IsSpace(c)
    ensures c in NonSpace(s) <==> c in s
    decreases |s|
  {
    if s != [] {
      NonSpaceMembers(s[1..], c);
      assert c in s <==> c == s[0] || c in s[1..];
    }
  }

  /** Collapsing whitespace runs keeps every other character, in order. */
  lemma {:induction false} CollapseKeepsText(s: string)
    ensures NonSpace(CollapseSpace(s)) == NonSpace(s)
    decreases |s|
  {
    if s == [] {
    } else if IsSpace(s[0]) {
      var n, c := LeadCount(s), CollapseSpace(s[LeadCount(s)..]);
      CollapseKeepsText(s[n..]);
      SkipSpaceRun(s);
      assert (" " + c)[1..] == c;
    } else {
      CollapseKeepsText(s[1..]);
    }
  }

  /** A leading whitespace run contributes nothing to `NonSpace`. */
  lemma SkipSpaceRun(s: string)
    ensures NonSpace(s) == NonSpace(s[LeadCount(s)..])
  {
    var n := LeadCount(s);
    assert s == s[..n] + s[n..];
    NonSpaceConcat(s[..n], s[n..]);
    NonSpaceOfSpace(s[..n]);
  }

  /** Stripping removes whitespace only. */
  lemma StripKeepsText(s: string)
    ensures NonSpace(Strip(s)) == NonSpace(s)
  {
    var r, i := Strip(s), LeadCount(s);
    assert s == s[..i] + r + s[i + |r|..];
    NonSpaceConcat(s[..i] + r, s[i + |r|..]);
    NonSpaceConcat(s[..i], r);
    NonSpaceOfSpace(s[..i]);
    NonSpaceOfSpace(s[i + |r|..]);
  }

  /** The whitespace step of `_clean_text` changes whitespace only: the other characters stay, in order. */
  lemma NormalizeKeepsText(s: string)
    ensures NonSpace(NormalizeSpace(s)) == NonSpace(s)
  {
    StripKeepsText(s);
    CollapseKeepsText(Strip(s));
  }

  /** A string whose whitespace is single blanks is already collapsed. */
  lemma {:induction false} CollapseCollapsed(s: string)
    requires NoSpaceRun(s) && forall i :: 0 <= i < |s| && IsSpace(s[i]) ==> s[i] == ' '
    ensures CollapseSpace(s) == s
    decreases |s|
  {
    if s != [] {
      if IsSpace(s[0]) {
        assert |s| > 1 ==> !IsSpace(s[1]);
        assert LeadCount(s) == 1;
      }
      CollapseCollapsed(s[1..]);
    }
  }

  /** The whitespace step is idempotent. */
  lemma NormalizeIdempotent(s: string)
    ensures NormalizeSpace(NormalizeSpace(s)) == NormalizeSpace(s)
  {
    var t := NormalizeSpace(s);
    StripKeepsEdgeFree(t);
    CollapseCollapsed(t);
  }

  // ---------------------------------------------------------- tag removal

  /** Index of the first '>' in `s`, or `|s|` when there is none. */
  function CloseIndex(s: string): (j: nat)
    ensures j <= |s| && '>' !in s[..j]
    ensures j < |s| ==> s[j] == '>'
  {
    if s == [] then 0
    else if s[0] == '>' then 0
    else
      var k := CloseIndex(s[1..]);
      assert s[..k + 1] == [s[0]] + s[1..][..k];
      k + 1
  }

  /** The pattern `<[^>]+>` matches at the start of `s`. */
  predicate TagStart(s: string) {
    s != [] && s[0] == '<' && 2 <= CloseIndex(s) < |s|
  }

  /** No position of `s` starts a match of `<[^>]+>`. */
  predicate TagFree(s: string) {
    forall i :: 0 <= i < |s| ==> !TagStart(s[i..])
  }

  /** `re.sub(r'<[^>]+>', '', s)`: scan left to right, dropping each match. */
  function RemoveTags(s: string): (r: string)
    ensures forall c :: c in r ==> c in s
    ensures s != [] && !TagStart(s) ==> r != [] && r[0] == s[0]
    decreases |s|
  {
    if s == [] then []
    else if TagStart(s) then RemoveTags(s[CloseIndex(s) + 1..])
    else [s[0]] + RemoveTags(s[1..])
  }

  /** What `RemoveTags` leaves holds no further match. */
  lemma {:induction false} RemoveTagsTagFree(s: string)
    ensures TagFree(RemoveTags(s))
    decreases |s|
  {
    if s == [] {
    } else if TagStart(s) {
      RemoveTagsTagFree(s[CloseIndex(s) + 1..]);
    } else {
      var rest := RemoveTags(s[1..]);
      RemoveTagsTagFree(s[1..]);
      var r := [s[0]] + rest;
      assert r == RemoveTags(s);
      forall i | 0 <= i < |r|
        ensures !TagStart(r[i..])
      {
        if i == 0 {
          if s[0] == '<' {
            // not a match: either no '>' follows or the next character is '>'
            if CloseIndex(s) == |s| {
              assert '>' !in s[1..] by {
                assert s[..|s|] == s;
              }
              assert '>' !in rest;
              assert '>' !in r;
              CloseOfNoClose(r);
            } else {
              assert CloseIndex(s) == 1;
              assert s[1] == '>';
              assert !TagStart(s[1..]);
              assert rest[0] == '>';
              assert r[1] == '>';
              assert CloseIndex(r) == 1 by {
                assert r[1..][0] == '>';
              }
            }
          }
          assert r[0..] == r;
        } else {
          assert r[i..] == rest[i - 1..];
        }
      }
    }
  }

  lemma {:induction false} CloseOfNoClose(s: string)
    requires '>' !in s
    ensures CloseIndex(s) == |s|
    decreases |s|
  {
    if s != [] {
      assert '>' !in s[1..];
      CloseOfNoClose(s[1..]);
    }
  }

  /** A string without '<' holds no tag, and tag removal leaves it unchanged. */
  lemma {:induction false} RemoveTagsNoTag(s: string)
    requires '<' !in s
    ensures RemoveTags(s) == s
    decreases |s|
  {
    if s != [] {
      assert s[0] != '<';
      assert '<' !in s[1..];
      RemoveTagsNoTag(s[1..]);
    }
  }

  /** The first '>' of `x + ">" + rest`, when `x` holds none, is the one right after `x`. */
  lemma {:induction false} CloseIndexAfter(x: string, rest: string)
    requires '>' !in x
    ensures CloseIndex(x + ">" + rest) == |x|
    decreases |x|
  {
    if x != [] {
      assert (x + ">" + rest)[1..] == x[1..] + ">" + rest;
      CloseIndexAfter(x[1..], rest);
    }
  }

  /**
    A tag `<x>` is dropped whole, together with nothing else: the text before it, which holds
    no '<', is kept as it is, and the scan goes on after its '>'.
  */
  lemma {:induction false} RemoveTagsSkipsTag(a: string, x: string, b: string)
    requires '<' !in a && x != [] && '>' !in x
    ensures RemoveTags(a + "<" + x + ">" + b) == a + RemoveTags(b)
    decreases |a|
  {
    var s := a + "<" + x + ">" + b;
    if a == [] {
      assert s[1..] == x + ">" + b;
      CloseIndexAfter(x, b);
      assert CloseIndex(s) == |x| + 1;
      assert s[|x| + 2..] == b;
    } else {
      assert s[1..] == a[1..] + "<" + x + ">" + b;
      assert s[0] == a[0] && a[0] != '<';
      RemoveTagsSkipsTag(a[1..], x, b);
    }
  }
}
