/** The layout helpers of the transactional e-mails (lib/email/base.ts): the
    HTML escape chain, the tag stripper, the HTML-to-plain-text reduction and
    the parts of `renderEmail` that are not markup (subject, plain-text body,
    colour defaults).  Each global regular-expression replacement is a
    left-to-right scan that rewrites a match and resumes after it, as
    `String.prototype.replace` with the `g` flag does. */
module EmailBase {
  import opened Wrappers
  import opened TextUtil

  // ----- escapeHtml -----

  /** `s.replace(/c/g, rep)` for a one-character pattern. */
  function ReplaceChar(s: string, c: char, rep: string): string {
    if s == [] then [] else (if s[0] == c then rep else [s[0]]) + ReplaceChar(s[1..], c, rep)
  }

  /** `escapeHtml`: `&` first, then `<`, `>`, `"` and `'`. */
  function EscapeHtml(s: string): string {
    ReplaceChar(ReplaceChar(ReplaceChar(ReplaceChar(ReplaceChar(s, '&', "&amp;"), '<', "&lt;"), '>', "&gt;"),
                            '"', "&quot;"), '\'', "&#039;")
  }

  /** The characters HTML gives a meaning to. */
  predicate IsSpecial(c: char) {
    c == '&' || c == '<' || c == '>' || c == '"' || c == '\''
  }

  /** What each character becomes: reference definition of the escape, one
      character at a time. */
  function EscapeChar(c: char): (e: string)
    ensures e != [] && (IsSpecial(c) <==> e[0] == '&')
    ensures !IsSpecial(c) ==> e == [c]
  {
    if c == '&' then "&amp;"
    else if c == '<' then "&lt;"
    else if c == '>' then "&gt;"
    else if c == '"' then "&quot;"
    else if c == '\'' then "&#039;"
    else [c]
  }

  function EscapeEach(s: string): string {
    if s == [] then [] else EscapeChar(s[0]) + EscapeEach(s[1..])
  }

  lemma {:induction false} ReplaceCharAppend(a: string, b: string, c: char, rep: string)
    ensures ReplaceChar(a + b, c, rep) == ReplaceChar(a, c, rep) + ReplaceChar(b, c, rep)
    decreases |a|
  {
    if a == [] {
      assert a + b == b;
    } else {
      assert (a + b)[1..] == a[1..] + b;
      ReplaceCharAppend(a[1..], b, c, rep);
    }
  }

  lemma EscapeHtmlAppend(a: string, b: string)
    ensures EscapeHtml(a + b) == EscapeHtml(a) + EscapeHtml(b)
  {
    var a1, b1 := ReplaceChar(a, '&', "&amp;"), ReplaceChar(b, '&', "&amp;");
    ReplaceCharAppend(a, b, '&', "&amp;");
    var a2, b2 := ReplaceChar(a1, '<', "&lt;"), ReplaceChar(b1, '<', "&lt;");
    ReplaceCharAppend(a1, b1, '<', "&lt;");
    var a3, b3 := ReplaceChar(a2, '>', "&gt;"), ReplaceChar(b2, '>', "&gt;");
    ReplaceCharAppend(a2, b2, '>', "&gt;");
    var a4, b4 := ReplaceChar(a3, '"', "&quot;"), ReplaceChar(b3, '"', "&quot;");
    ReplaceCharAppend(a3, b3, '"', "&quot;");
    ReplaceCharAppend(a4, b4, '\'', "&#039;");
  }

  /** A string free of the pattern character is left alone. */
  lemma {:induction false} ReplaceCharAbsent(s: string, c: char, rep: string)
    requires forall i :: 0 <= i < |s| ==> s[i] != c
    ensures ReplaceChar(s, c, rep) == s
    decreases |s|
  {
    if s != [] {
      assert forall i :: 0 <= i < |s[1..]| ==> s[1..][i] == s[i + 1];
      ReplaceCharAbsent(s[1..], c, rep);
    }
  }

  lemma ReplaceCharSingle(x: char, c: char, rep: string)
    ensures ReplaceChar([x], c, rep) == if x == c then rep else [x]
  {
    assert [x][1..] == [];
  }

  /** The chain on each special character: the stage for that character
      produces its entity, and no other stage finds anything. */
  lemma EscapeAmpersand()
    ensures EscapeHtml("&") == "&amp;"
  {
    var amp := "&amp;";
    var s1 := ReplaceChar("&", '&', amp);
    assert s1 == amp by {
      ReplaceCharSingle('&', '&', amp);
    }
    var s2 := ReplaceChar(s1, '<', "&lt;");
    assert s2 == amp by {
      ReplaceCharAbsent(amp, '<', "&lt;");
    }
    var s3 := ReplaceChar(s2, '>', "&gt;");
    assert s3 == amp by {
      ReplaceCharAbsent(amp, '>', "&gt;");
    }
    var s4 := ReplaceChar(s3, '"', "&quot;");
    assert s4 == amp by {
      ReplaceCharAbsent(amp, '"', "&quot;");
    }
    assert ReplaceChar(s4, '\'', "&#039;") == amp by {
      ReplaceCharAbsent(amp, '\'', "&#039;");
    }
  }

  lemma EscapeLess()
    ensures EscapeHtml("<") == "&lt;"
  {
    var lt := "&lt;";
    var s1 := ReplaceChar("<", '&', "&amp;");
    assert s1 == "<" by {
      ReplaceCharSingle('<', '&', "&amp;");
    }
    var s2 := ReplaceChar(s1, '<', lt);
    assert s2 == lt by {
      ReplaceCharSingle('<', '<', lt);
    }
    var s3 := ReplaceChar(s2, '>', "&gt;");
    assert s3 == lt by {
      ReplaceCharAbsent(lt, '>', "&gt;");
    }
    var s4 := ReplaceChar(s3, '"', "&quot;");
    assert s4 == lt by {
      ReplaceCharAbsent(lt, '"', "&quot;");
    }
    assert ReplaceChar(s4, '\'', "&#039;") == lt by {
      ReplaceCharAbsent(lt, '\'', "&#039;");
    }
  }

  lemma EscapeGreater()
    ensures EscapeHtml(">") == "&gt;"
  {
    var gt := "&gt;";
    var s2 := ReplaceChar(ReplaceChar(">", '&', "&amp;"), '<', "&lt;");
    assert s2 == ">" by {
      ReplaceCharSingle('>', '&', "&amp;");
      ReplaceCharSingle('>', '<', "&lt;");
    }
    var s3 := ReplaceChar(s2, '>', gt);
    assert s3 == gt by {
      ReplaceCharSingle('>', '>', gt);
    }
    var s4 := ReplaceChar(s3, '"', "&quot;");
    assert s4 == gt by {
      ReplaceCharAbsent(gt, '"', "&quot;");
    }
    assert ReplaceChar(s4, '\'', "&#039;") == gt by {
      ReplaceCharAbsent(gt, '\'', "&#039;");
    }
  }

  lemma EscapeQuote()
    ensures EscapeHtml("\"") == "&quot;"
  {
    var quot := "&quot;";
    var s3 := ReplaceChar(ReplaceChar(ReplaceChar("\"", '&', "&amp;"), '<', "&lt;"), '>', "&gt;");
    assert s3 == "\"" by {
      ReplaceCharSingle('"', '&', "&amp;");
      ReplaceCharSingle('"', '<', "&lt;");
      ReplaceCharSingle('"', '>', "&gt;");
    }
    var s4 := ReplaceChar(s3, '"', quot);
    assert s4 == quot by {
      ReplaceCharSingle('"', '"', quot);
    }
    assert ReplaceChar(s4, '\'', "&#039;") == quot by {
      ReplaceCharAbsent(quot, '\'', "&#039;");
    }
  }

  lemma EscapeApostrophe()
    ensures EscapeHtml("'") == "&#039;"
  {
    var s4 := ReplaceChar(ReplaceChar(ReplaceChar(ReplaceChar("'", '&', "&amp;"), '<', "&lt;"), '>', "&gt;"),
                          '"', "&quot;");
    assert s4 == "'" by {
      ReplaceCharSingle('\'', '&', "&amp;");
      ReplaceCharSingle('\'', '<', "&lt;");
      ReplaceCharSingle('\'', '>', "&gt;");
      ReplaceCharSingle('\'', '"', "&quot;");
    }
    assert ReplaceChar(s4, '\'', "&#039;") == "&#039;" by {
      ReplaceCharSingle('\'', '\'', "&#039;");
    }
  }

  lemma EscapeOrdinary(c: char)
    requires !IsSpecial(c)
    ensures EscapeHtml([c]) == [c]
  {
    ReplaceCharSingle(c, '&', "&amp;");
    ReplaceCharSingle(c, '<', "&lt;");
    ReplaceCharSingle(c, '>', "&gt;");
    ReplaceCharSingle(c, '"', "&quot;");
    ReplaceCharSingle(c, '\'', "&#039;");
  }

  lemma EscapeHtmlChar(c: char)
    ensures EscapeHtml([c]) == EscapeChar(c)
  {
    if c == '&' {
      EscapeAmpersand();
    } else if c == '<' {
      EscapeLess();
    } else if c == '>' {
      EscapeGreater();
    } else if c == '"' {
      EscapeQuote();
    } else if c == '\'' {
      EscapeApostrophe();
    } else {
      EscapeOrdinary(c);
    }
  }

  /** Because `&` is replaced first, the chain escapes each character on
      its own and never re-escapes an entity it produced. */
  lemma {:induction false} EscapeHtmlIsPerChar(s: string)
    ensures EscapeHtml(s) == EscapeEach(s)
    decreases |s|
  {
    if s == [] {
    } else {
      assert s == [s[0]] + s[1..];
      EscapeHtmlAppend([s[0]], s[1..]);
      EscapeHtmlChar(s[0]);
      EscapeHtmlIsPerChar(s[1..]);
    }
  }

  /** An escaped string holds no `<`, `>`, `"` or `'`. */
  lemma {:induction false} EscapedHasNoMarkup(s: string)
    ensures forall i :: 0 <= i < |EscapeHtml(s)| ==> IsSpecial(EscapeHtml(s)[i]) ==> EscapeHtml(s)[i] == '&'
    decreases |s|
  {
    EscapeHtmlIsPerChar(s);
    EscapeEachHasNoMarkup(s);
  }

  lemma {:induction false} EscapeEachHasNoMarkup(s: string)
    ensures forall i :: 0 <= i < |EscapeEach(s)| ==> IsSpecial(EscapeEach(s)[i]) ==> EscapeEach(s)[i] == '&'
    decreases |s|
  {
    if s != [] {
      EscapeEachHasNoMarkup(s[1..]);
      var e, rest := EscapeChar(s[0]), EscapeEach(s[1..]);
      forall i | 0 <= i < |e + rest| && IsSpecial((e + rest)[i]) ensures (e + rest)[i] == '&' {
        if i >= |e| {
          assert (e + rest)[i] == rest[i - |e|];
        }
      }
    }
  }

  /** The five entities the escape produces. */
  predicate StartsWithEntity(s: string) {
    StartsWith(s, "&amp;") || StartsWith(s, "&lt;") || StartsWith(s, "&gt;")
    || StartsWith(s, "&quot;") || StartsWith(s, "&#039;")
  }

  /** An escape's only `&` is its first character, and it opens an entity. */
  lemma EscapeCharShape(c: char, rest: string)
    ensures var e := EscapeChar(c);
      && (forall k :: 0 < k < |e| ==> e[k] != '&')
      && (e[0] == '&' ==> StartsWithEntity(e + rest))
  {
    var e := EscapeChar(c);
    assert (e + rest)[..|e|] == e;
  }

  /** Every `&` begins one of the five entities. */
  ghost predicate AmpersandsOpenEntities(t: string) {
    forall i :: 0 <= i < |t| && t[i] == '&' ==> StartsWithEntity(t[i..])
  }

  /** Every `&` of an escaped string begins one of the five entities. */
  lemma {:induction false} AmpersandsStartEntities(s: string)
    ensures AmpersandsOpenEntities(EscapeHtml(s))
  {
    EscapeHtmlIsPerChar(s);
    EachAmpersandStartsEntity(s);
  }

  lemma {:induction false} EachAmpersandStartsEntity(s: string)
    ensures AmpersandsOpenEntities(EscapeEach(s))
    decreases |s|
  {
    if s != [] {
      EachAmpersandStartsEntity(s[1..]);
      var e, rest := EscapeChar(s[0]), EscapeEach(s[1..]);
      var t := e + rest;
      forall i | 0 <= i < |t| && t[i] == '&' ensures StartsWithEntity(t[i..]) {
        if i >= |e| {
          assert t[i] == rest[i - |e|];
          assert t[i..] == rest[i - |e|..];
        } else {
          EscapeCharShape(s[0], rest);
          assert t[i] == e[i];
          assert t[i..] == t;
        }
      }
    }
  }

  /** A string without special characters is its own escape. */
  lemma {:induction false} EscapePlainIsIdentity(s: string)
    requires forall i :: 0 <= i < |s| ==> !IsSpecial(s[i])
    ensures EscapeHtml(s) == s
    decreases |s|
  {
    EscapeHtmlIsPerChar(s);
    EscapeEachPlain(s);
  }

  lemma {:induction false} EscapeEachPlain(s: string)
    requires forall i :: 0 <= i < |s| ==> !IsSpecial(s[i])
    ensures EscapeEach(s) == s
    decreases |s|
  {
    if s != [] {
      assert forall i :: 0 <= i < |s[1..]| ==> s[1..][i] == s[i + 1];
      EscapeEachPlain(s[1..]);
      assert s == [s[0]] + s[1..];
    }
  }

  /** Decoding the five entities: the inverse of the escape. */
  function UnescapeHtml(t: string): string
    decreases |t|
  {
    if t == [] then []
    else if StartsWith(t, "&amp;") then "&" + UnescapeHtml(t[5..])
    else if StartsWith(t, "&lt;") then "<" + UnescapeHtml(t[4..])
    else if StartsWith(t, "&gt;") then ">" + UnescapeHtml(t[4..])
    else if StartsWith(t, "&quot;") then "\"" + UnescapeHtml(t[6..])
    else if StartsWith(t, "&#039;") then "'" + UnescapeHtml(t[6..])
    else [t[0]] + UnescapeHtml(t[1..])
  }

  /** Decoding an entity (or a plain character) at the front. */
  lemma UnescapeAmpersand(rest: string)
    ensures UnescapeHtml("&amp;" + rest) == "&" + UnescapeHtml(rest)
  {
    var t := "&amp;" + rest;
    assert StartsWith(t, "&amp;") && t[5..] == rest by {
      assert t[..5] == "&amp;";
    }
  }

  lemma UnescapeLess(rest: string)
    ensures UnescapeHtml("&lt;" + rest) == "<" + UnescapeHtml(rest)
  {
    var t := "&lt;" + rest;
    assert !StartsWith(t, "&amp;") by {
      assert t[1] == 'l';
    }
    assert StartsWith(t, "&lt;") && t[4..] == rest by {
      assert t[..4] == "&lt;";
    }
  }

  lemma UnescapeGreater(rest: string)
    ensures UnescapeHtml("&gt;" + rest) == ">" + UnescapeHtml(rest)
  {
    var t := "&gt;" + rest;
    assert !StartsWith(t, "&amp;") && !StartsWith(t, "&lt;") by {
      assert t[1] == 'g';
    }
    assert StartsWith(t, "&gt;") && t[4..] == rest by {
      assert t[..4] == "&gt;";
    }
  }

  lemma UnescapeQuote(rest: string)
    ensures UnescapeHtml("&quot;" + rest) == "\"" + UnescapeHtml(rest)
  {
    var t := "&quot;" + rest;
    assert !StartsWith(t, "&amp;") && !StartsWith(t, "&lt;") && !StartsWith(t, "&gt;") by {
      assert t[1] == 'q';
    }
    assert StartsWith(t, "&quot;") && t[6..] == rest by {
      assert t[..6] == "&quot;";
    }
  }

  lemma UnescapeApostrophe(rest: string)
    ensures UnescapeHtml("&#039;" + rest) == "'" + UnescapeHtml(rest)
  {
    var t := "&#039;" + rest;
    assert !StartsWith(t, "&amp;") && !StartsWith(t, "&lt;") && !StartsWith(t, "&gt;") && !StartsWith(t, "&quot;") by {
      assert t[1] == '#';
    }
    assert StartsWith(t, "&#039;") && t[6..] == rest by {
      assert t[..6] == "&#039;";
    }
  }

  lemma UnescapeOrdinary(c: char, rest: string)
    requires c != '&'
    ensures UnescapeHtml([c] + rest) == [c] + UnescapeHtml(rest)
  {
    var t := [c] + rest;
    assert !StartsWith(t, "&amp;") && !StartsWith(t, "&lt;") && !StartsWith(t, "&gt;")
        && !StartsWith(t, "&quot;") && !StartsWith(t, "&#039;") by {
      assert t[0] == c;
    }
    assert t[1..] == rest;
  }

  lemma UnescapeStep(c: char, rest: string)
    ensures UnescapeHtml(EscapeChar(c) + rest) == [c] + UnescapeHtml(rest)
  {
    if c == '&' {
      UnescapeAmpersand(rest);
    } else if c == '<' {
      UnescapeLess(rest);
    } else if c == '>' {
      UnescapeGreater(rest);
    } else if c == '"' {
      UnescapeQuote(rest);
    } else if c == '\'' {
      UnescapeApostrophe(rest);
    } else {
      UnescapeOrdinary(c, rest);
    }
  }

  /** Decoding an escaped string gives the original back. */
  lemma {:induction false} EscapeRoundTrip(s: string)
    ensures UnescapeHtml(EscapeHtml(s)) == s
  {
    EscapeHtmlIsPerChar(s);
    EscapeEachRoundTrip(s);
  }

  lemma {:induction false} EscapeEachRoundTrip(s: string)
    ensures UnescapeHtml(EscapeEach(s)) == s
    decreases |s|
  {
    if s != [] {
      UnescapeStep(s[0], EscapeEach(s[1..]));
      EscapeEachRoundTrip(s[1..]);
      assert s == [s[0]] + s[1..];
    }
  }

  // ----- stripHtml -----

  /** The position of the first `>` of `s`. */
  function FirstGt(s: string): (r: Option<nat>)
    ensures r.None? <==> forall i :: 0 <= i < |s| ==> s[i] != '>'
    ensures r.Some? ==> r.value < |s| && s[r.value] == '>' && forall i :: 0 <= i < r.value ==> s[i] != '>'
  {
    if s == [] then None
    else if s[0] == '>' then Some(0)
    else
      var r := FirstGt(s[1..]);
      assert forall i :: 1 <= i < |s| ==> s[i] == s[1..][i - 1];
      if r.None? then None else Some(r.value + 1)
  }

  /** `html.replace(/<[^>]*>/g, '')`: a `<` and everything up to the next
      `>` is removed; a `<` with no `>` after it is kept, and so is the rest. */
  function StripHtml(s: string): string
    decreases |s|
  {
    if s == [] then []
    else if s[0] == '<' then
      match FirstGt(s[1..])
      case Some(j) => StripHtml(s[j + 2..])
      case None => s
    else [s[0]] + StripHtml(s[1..])
  }

  /** No `<` is followed, anywhere later, by a `>`. */
  ghost predicate NoTags(s: string) {
    forall i, j :: 0 <= i < j < |s| && s[i] == '<' ==> s[j] != '>'
  }

  /** `a` can be obtained from `b` by deleting characters. */
  predicate IsSubsequence(a: string, b: string)
    decreases |b|
  {
    a == [] || (b != [] && ((a[0] == b[0] && IsSubsequence(a[1..], b[1..])) || IsSubsequence(a, b[1..])))
  }

  lemma {:induction false} SubsequenceRefl(a: string)
    ensures IsSubsequence(a, a)
    decreases |a|
  {
    if a != [] {
      SubsequenceRefl(a[1..]);
    }
  }

  lemma {:induction false} SubsequenceDropPrefix(a: string, p: string, b: string)
    requires IsSubsequence(a, b)
    ensures IsSubsequence(a, p + b)
    decreases |p|
  {
    if p == [] {
      assert p + b == b;
    } else {
      SubsequenceDropPrefix(a, p[1..], b);
      assert (p + b)[1..] == p[1..] + b;
    }
  }

  /** The stripped text is the input with characters deleted. */
  lemma {:induction false} StripIsSubsequence(s: string)
    ensures IsSubsequence(StripHtml(s), s)
    decreases |s|
  {
    if s == [] {
    } else if s[0] == '<' {
      match FirstGt(s[1..])
      case Some(j) =>
        StripIsSubsequence(s[j + 2..]);
        assert s == s[..j + 2] + s[j + 2..];
        SubsequenceDropPrefix(StripHtml(s[j + 2..]), s[..j + 2], s[j + 2..]);
      case None =>
        SubsequenceRefl(s);
    } else {
      StripIsSubsequence(s[1..]);
    }
  }

  /** Nothing shaped like a tag survives. */
  lemma {:induction false} StripLeavesNoTags(s: string)
    ensures NoTags(StripHtml(s))
    decreases |s|
  {
    if s == [] {
    } else if s[0] == '<' {
      match FirstGt(s[1..])
      case Some(j) =>
        StripLeavesNoTags(s[j + 2..]);
      case None =>
        forall i, j | 0 <= i < j < |s| && s[i] == '<' ensures s[j] != '>' {
          assert s[j] == s[1..][j - 1];
        }
    } else {
      StripLeavesNoTags(s[1..]);
      var t := StripHtml(s[1..]);
      var out := [s[0]] + t;
      forall i, j | 0 <= i < j < |out| && out[i] == '<' ensures out[j] != '>' {
        assert i > 0;
        assert out[i] == t[i - 1] && out[j] == t[j - 1];
      }
    }
  }

  /** A string without tags is not changed. */
  lemma {:induction false} StripWithoutTagsIsIdentity(s: string)
    requires NoTags(s)
    ensures StripHtml(s) == s
    decreases |s|
  {
    if s != [] {
      if s[0] == '<' {
      } else {
        assert NoTags(s[1..]) by {
          forall i, j | 0 <= i < j < |s[1..]| && s[1..][i] == '<' ensures s[1..][j] != '>' {
            assert s[1..][i] == s[i + 1] && s[1..][j] == s[j + 1];
          }
        }
        StripWithoutTagsIsIdentity(s[1..]);
        assert s == [s[0]] + s[1..];
      }
    }
  }

  /** Stripping twice is stripping once. */
  lemma StripIdempotent(s: string)
    ensures StripHtml(StripHtml(s)) == StripHtml(s)
  {
    StripLeavesNoTags(s);
    StripWithoutTagsIsIdentity(StripHtml(s));
  }

  // ----- htmlToText -----

  /** The three tag patterns `htmlToText` rewrites before stripping, all
      matched without regard to ASCII case. */
  datatype Pattern =
    | BrTag           // <br\s*\/>
    | ClosingBlockTag // <\/(p|div|h1|h2|h3|li)>
    | LiTag           // <li>

  /** `s` starts with `word` up to ASCII case. */
  predicate StartsWithNoCase(s: string, word: string) {
    |word| <= |s| && forall i :: 0 <= i < |word| ==> LowerChar(s[i]) == word[i]
  }

  /** The length of the match of `p` at the start of `s`, if it matches there. */
  function MatchLength(p: Pattern, s: string): (r: Option<nat>)
    ensures r.Some? ==> 0 < r.value <= |s| && s[0] == '<'
  {
    match p
    case BrTag =>
      if StartsWithNoCase(s, "<br") then
        var k := 3 + LeadingSpace(s[3..]);
        if k + 1 < |s| && s[k] == '/' && s[k + 1] == '>' then Some(k + 2) else None
      else None
    case ClosingBlockTag =>
      if StartsWith(s, "</") then
        var name := s[2..];
        var n := if StartsWithNoCase(name, "p") then 1
                 else if StartsWithNoCase(name, "div") || StartsWithNoCase(name, "h1")
                      || StartsWithNoCase(name, "h2") || StartsWithNoCase(name, "h3") then
                   (if StartsWithNoCase(name, "div") then 3 else 2)
                 else if StartsWithNoCase(name, "li") then 2
                 else 0;
        if n > 0 && 2 + n < |s| && s[2 + n] == '>' then Some(3 + n) else None
      else None
    case LiTag =>
      if StartsWithNoCase(s, "<li>") then Some(4) else None
  }

  /** `s.replace(pattern, rep)` with the `g` flag. */
  function ReplaceAll(s: string, p: Pattern, rep: string): string
    decreases |s|
  {
    if s == [] then []
    else match MatchLength(p, s)
      case Some(n) => rep + ReplaceAll(s[n..], p, rep)
      case None => [s[0]] + ReplaceAll(s[1..], p, rep)
  }

  /** Text without `<` contains no match: every pattern starts with `<`. */
  lemma {:induction false} ReplaceAllPlain(s: string, p: Pattern, rep: string)
    requires forall i :: 0 <= i < |s| ==> s[i] != '<'
    ensures ReplaceAll(s, p, rep) == s
    decreases |s|
  {
    if s != [] {
      assert forall i :: 0 <= i < |s[1..]| ==> s[1..][i] == s[i + 1];
      ReplaceAllPlain(s[1..], p, rep);
      assert s == [s[0]] + s[1..];
    }
  }

  /** `s.replace(/\n{3,}/g, '\n\n')`. */
  function CollapseNewlines(s: string): string
    decreases |s|
  {
    if s == [] then []
    else
      var k := LeadingNewlines(s);
      if k >= 3 then "\n\n" + CollapseNewlines(s[k..]) else [s[0]] + CollapseNewlines(s[1..])
  }

  /** `htmlToText`: line-breaking tags to `\n`, list items to bullets, tags
      removed, runs of three or more newlines shortened to two, trimmed. */
  function HtmlToText(html: string): string {
    var marked := ReplaceAll(ReplaceAll(ReplaceAll(html, BrTag, "\n"), ClosingBlockTag, "\n"), LiTag, "\U{2022} ");
    Trim(CollapseNewlines(StripHtml(marked)))
  }

  /** No three consecutive newlines. */
  ghost predicate NoTripleNewline(s: string) {
    forall i :: 0 <= i < |s| - 2 ==> !(s[i] == '\n' && s[i + 1] == '\n' && s[i + 2] == '\n')
  }

  /** The run of newlines at the start of the collapsed text is the original
      run, cut to two. */
  lemma {:induction false} CollapseLeading(s: string)
    ensures var c := CollapseNewlines(s);
      LeadingNewlines(c) == if LeadingNewlines(s) >= 3 then 2 else LeadingNewlines(s)
    decreases |s|
  {
    var k := LeadingNewlines(s);
    var c := CollapseNewlines(s);
    if s == [] {
    } else if k >= 3 {
      var rest := CollapseNewlines(s[k..]);
      if s[k..] != [] {
        assert s[k..][0] == s[k];
        assert rest[0] == s[k];
      }
      LeadingNewlinesCons("\n\n", rest);
    } else {
      CollapseLeading(s[1..]);
      if k == 0 {
      } else {
        assert LeadingNewlines(s[1..]) == k - 1 by {
          LeadingNewlinesCons("\n", s[1..]);
          assert s == "\n" + s[1..];
        }
        LeadingNewlinesCons("\n", CollapseNewlines(s[1..]));
      }
    }
  }

  /** Newlines before a string add to its leading run. */
  lemma LeadingNewlinesCons(p: string, s: string)
    requires forall i :: 0 <= i < |p| ==> p[i] == '\n'
    ensures LeadingNewlines(p + s) == |p| + LeadingNewlines(s)
  {
    var n := LeadingNewlines(s);
    var t := p + s;
    var m := |p| + n;
    assert forall i :: 0 <= i < m ==> t[i] == '\n' by {
      forall i | 0 <= i < m ensures t[i] == '\n' {
        if i >= |p| {
          assert t[i] == s[i - |p|];
        }
      }
    }
    if m < |t| {
      assert t[m] == s[n];
    }
    LeadingNewlinesUnique(t, m);
  }

  lemma LeadingNewlinesUnique(t: string, m: nat)
    requires m <= |t| && (forall i :: 0 <= i < m ==> t[i] == '\n') && (m < |t| ==> t[m] != '\n')
    ensures LeadingNewlines(t) == m
  {
  }

  /** The collapsed text never holds three newlines in a row. */
  lemma {:induction false} CollapseHasNoTriple(s: string)
    ensures NoTripleNewline(CollapseNewlines(s))
    decreases |s|
  {
    if s != [] {
      var k := LeadingNewlines(s);
      var c := CollapseNewlines(s);
      if k >= 3 {
        var rest := CollapseNewlines(s[k..]);
        CollapseHasNoTriple(s[k..]);
        CollapseLeading(s[k..]);
        assert LeadingNewlines(s[k..]) == 0 by {
          if s[k..] != [] {
            assert s[k..][0] == s[k];
          }
        }
        NoTripleConsPair(rest);
      } else {
        CollapseHasNoTriple(s[1..]);
        var rest := CollapseNewlines(s[1..]);
        CollapseLeading(s[1..]);
        if k > 0 {
          assert LeadingNewlines(s[1..]) == k - 1 by {
            LeadingNewlinesCons("\n", s[1..]);
            assert s == "\n" + s[1..];
          }
        }
        NoTripleCons(s[0], rest);
      }
    }
  }

  /** One more character in front keeps the property unless it is a newline
      before a run of two. */
  lemma NoTripleCons(c: char, s: string)
    requires NoTripleNewline(s)
    requires c == '\n' ==> LeadingNewlines(s) <= 1
    ensures NoTripleNewline([c] + s)
  {
    var t := [c] + s;
    forall i | 1 <= i < |t| - 2 ensures !(t[i] == '\n' && t[i + 1] == '\n' && t[i + 2] == '\n') {
      assert t[i] == s[i - 1] && t[i + 1] == s[i] && t[i + 2] == s[i + 1];
    }
  }

  /** Two newlines in front of a string that does not start with one. */
  lemma NoTripleConsPair(s: string)
    requires NoTripleNewline(s) && LeadingNewlines(s) == 0
    ensures NoTripleNewline("\n\n" + s)
  {
    NoTripleCons('\n', s);
    LeadingNewlinesCons("\n", s);
    NoTripleCons('\n', "\n" + s);
    assert "\n\n" + s == ['\n'] + (['\n'] + s);
  }

  /** A slice keeps the property. */
  lemma NoTripleSlice(s: string, a: nat, b: nat)
    requires NoTripleNewline(s) && a <= b <= |s|
    ensures NoTripleNewline(s[a..b])
  {
    var t := s[a..b];
    forall i | 0 <= i < |t| - 2 ensures !(t[i] == '\n' && t[i + 1] == '\n' && t[i + 2] == '\n') {
      assert t[i] == s[a + i] && t[i + 1] == s[a + i + 1] && t[i + 2] == s[a + i + 2];
    }
  }

  /** The plain text starts and ends with a visible character and never
      holds three newlines in a row. */
  lemma HtmlToTextShape(html: string)
    ensures var text := HtmlToText(html);
      && (text != [] ==> !IsJsWhitespace(text[0]) && !IsJsWhitespace(text[|text| - 1]))
      && NoTripleNewline(text)
  {
    var marked := ReplaceAll(ReplaceAll(ReplaceAll(html, BrTag, "\n"), ClosingBlockTag, "\n"), LiTag, "\U{2022} ");
    var c := CollapseNewlines(StripHtml(marked));
    CollapseHasNoTriple(StripHtml(marked));
    var a := LeadingSpace(c);
    NoTripleSlice(c, a, |c| - TrailingSpace(c[a..]));
  }

  /** Text without any `<` is only collapsed and trimmed. */
  lemma HtmlToTextOfPlainText(s: string)
    requires forall i :: 0 <= i < |s| ==> s[i] != '<'
    ensures HtmlToText(s) == Trim(CollapseNewlines(s))
  {
    ReplaceAllPlain(s, BrTag, "\n");
    ReplaceAllPlain(s, ClosingBlockTag, "\n");
    ReplaceAllPlain(s, LiTag, "\U{2022} ");
    assert NoTags(s);
    StripWithoutTagsIsIdentity(s);
  }

  // ----- what the tag patterns match -----

  /** `t` is `word` up to ASCII case (`word` is lower case). */
  predicate EqualsNoCase(t: string, word: string) {
    |t| == |word| && forall i :: 0 <= i < |t| ==> LowerChar(t[i]) == word[i]
  }

  /** One of the names the closing-tag alternation `p|div|h1|h2|h3|li` accepts. */
  predicate IsBlockName(x: string) {
    || EqualsNoCase(x, "p") || EqualsNoCase(x, "div") || EqualsNoCase(x, "h1")
    || EqualsNoCase(x, "h2") || EqualsNoCase(x, "h3") || EqualsNoCase(x, "li")
  }

  /** The strings each pattern matches, read off the regular expressions:
      `<br`, any white space, `/>`; `</`, a block name, `>`; and `<li>`. */
  predicate IsTag(p: Pattern, t: string) {
    match p
    case BrTag =>
      && |t| >= 5 && EqualsNoCase(t[..3], "<br") && t[|t| - 2] == '/' && t[|t| - 1] == '>'
      && forall i :: 3 <= i < |t| - 2 ==> IsJsWhitespace(t[i])
    case ClosingBlockTag =>
      |t| >= 4 && t[0] == '<' && t[1] == '/' && t[|t| - 1] == '>' && IsBlockName(t[2..|t| - 1])
    case LiTag => EqualsNoCase(t, "<li>")
  }

  /** A match of `<br\s*\/>` is exactly a `<br` tag with a slash. */
  lemma BrMatch(s: string, n: nat)
    ensures MatchLength(BrTag, s) == Some(n) <==> n <= |s| && IsTag(BrTag, s[..n])
  {
    if n <= |s| && IsTag(BrTag, s[..n]) {
      var t := s[..n];
      assert StartsWithNoCase(s, "<br") by {
        forall i | 0 <= i < 3 ensures LowerChar(s[i]) == "<br"[i] {
          assert t[..3][i] == s[i];
        }
      }
      var rest := s[3..];
      var l := LeadingSpace(rest);
      assert forall i :: 0 <= i < n - 5 ==> rest[i] == t[3 + i];
      assert l == n - 5;
    }
    if MatchLength(BrTag, s) == Some(n) {
      var t := s[..n];
      var l := LeadingSpace(s[3..]);
      assert n == 5 + l;
      assert EqualsNoCase(t[..3], "<br") by {
        forall i | 0 <= i < 3 ensures LowerChar(t[..3][i]) == "<br"[i] {
          assert t[..3][i] == s[i];
        }
      }
      forall i | 3 <= i < n - 2 ensures IsJsWhitespace(t[i]) {
        assert t[i] == s[3..][i - 3];
      }
    }
  }

  /** A match of `<\/(p|div|h1|h2|h3|li)>` is exactly a closing block tag. */
  lemma ClosingMatch(s: string, n: nat)
    ensures MatchLength(ClosingBlockTag, s) == Some(n) <==> n <= |s| && IsTag(ClosingBlockTag, s[..n])
  {
    if |s| >= 2 && s[0] == '<' && s[1] == '/' {
      var name := s[2..];
      assert StartsWith(s, "</") by {
        assert s[..2] == ['<', '/'];
      }
      if n <= |s| && n >= 4 {
        var x := s[..n][2..n - 1];
        assert forall i :: 0 <= i < |x| ==> x[i] == name[i];
        if EqualsNoCase(x, "p") {
          assert StartsWithNoCase(name, "p");
        } else if EqualsNoCase(x, "div") {
          assert !StartsWithNoCase(name, "p") by { assert LowerChar(name[0]) == 'd'; }
          assert StartsWithNoCase(name, "div");
        } else if EqualsNoCase(x, "h1") || EqualsNoCase(x, "h2") || EqualsNoCase(x, "h3") {
          assert LowerChar(name[0]) == 'h';
          assert !StartsWithNoCase(name, "p") && !StartsWithNoCase(name, "div");
        } else if EqualsNoCase(x, "li") {
          assert LowerChar(name[0]) == 'l';
          assert StartsWithNoCase(name, "li");
        }
      }
      if MatchLength(ClosingBlockTag, s) == Some(n) {
        var x := s[..n][2..n - 1];
        assert forall i :: 0 <= i < |x| ==> x[i] == name[i];
        if StartsWithNoCase(name, "p") {
          assert EqualsNoCase(x, "p");
        } else if StartsWithNoCase(name, "div") {
          assert EqualsNoCase(x, "div");
        } else if StartsWithNoCase(name, "h1") {
          assert EqualsNoCase(x, "h1");
        } else if StartsWithNoCase(name, "h2") {
          assert EqualsNoCase(x, "h2");
        } else if StartsWithNoCase(name, "h3") {
          assert EqualsNoCase(x, "h3");
        } else {
          assert EqualsNoCase(x, "li");
        }
      }
    } else if |s| >= 2 {
      assert !StartsWith(s, "</") by {
        assert s[..2][0] == s[0] && s[..2][1] == s[1];
      }
    }
  }

  /** A match of `<li>` is exactly `<li>` in any ASCII case. */
  lemma LiMatch(s: string, n: nat)
    ensures MatchLength(LiTag, s) == Some(n) <==> n <= |s| && IsTag(LiTag, s[..n])
  {
    if n <= |s| && IsTag(LiTag, s[..n]) {
      assert forall i :: 0 <= i < n ==> s[..n][i] == s[i];
    }
  }

  /** For every pattern, `MatchLength` finds a match of length `n` exactly
      when the first `n` characters are a tag of that pattern. */
  lemma MatchLengthIsTag(p: Pattern, s: string, n: nat)
    ensures MatchLength(p, s) == Some(n) <==> n <= |s| && IsTag(p, s[..n])
  {
    match p
    case BrTag => BrMatch(s, n);
    case ClosingBlockTag => ClosingMatch(s, n);
    case LiTag => LiMatch(s, n);
  }

  /** A tag opens with `<` and holds no other `<`. */
  lemma TagShape(p: Pattern, t: string)
    requires IsTag(p, t)
    ensures t != [] && t[0] == '<' && forall i :: 1 <= i < |t| ==> t[i] != '<'
  {
    match p
    case BrTag =>
      assert t[..3][0] == t[0] && t[..3][1] == t[1] && t[..3][2] == t[2];
    case ClosingBlockTag =>
      var x := t[2..|t| - 1];
      assert forall i :: 0 <= i < |x| ==> LowerChar(x[i]) != '<';
      assert forall i :: 2 <= i < |t| - 1 ==> t[i] == x[i - 2];
    case LiTag =>
  }

  /** One step of a rewrite where the pattern does not match. */
  lemma ReplaceAllMiss(s: string, p: Pattern, rep: string)
    requires s != [] && MatchLength(p, s).None?
    ensures ReplaceAll(s, p, rep) == [s[0]] + ReplaceAll(s[1..], p, rep)
  {
  }

  /** One step of a rewrite where the pattern matches `n` characters. */
  lemma ReplaceAllHit(s: string, p: Pattern, rep: string, n: nat)
    requires MatchLength(p, s) == Some(n)
    ensures ReplaceAll(s, p, rep) == rep + ReplaceAll(s[n..], p, rep)
  {
  }

  /** Text without `<` passes through a rewrite unchanged, whatever follows. */
  lemma {:induction false} ReplaceAllAfterPlain(a: string, s: string, p: Pattern, rep: string)
    requires forall i :: 0 <= i < |a| ==> a[i] != '<'
    ensures ReplaceAll(a + s, p, rep) == a + ReplaceAll(s, p, rep)
    decreases |a|
  {
    if a != [] {
      var t := a + s;
      calc {
        ReplaceAll(t, p, rep);
      == { assert t[0] == a[0] && t[1..] == a[1..] + s;
           ReplaceAllMiss(t, p, rep); }
        [a[0]] + ReplaceAll(a[1..] + s, p, rep);
      == { ReplaceAllAfterPlain(a[1..], s, p, rep); }
        [a[0]] + (a[1..] + ReplaceAll(s, p, rep));
      == { assert a == [a[0]] + a[1..]; }
        a + ReplaceAll(s, p, rep);
      }
    } else {
      assert a + s == s;
    }
  }

  /** A tag of the pattern after `<`-free text is replaced by `rep`, and the
      text around it is kept. */
  lemma ReplaceAllAtTag(a: string, t: string, b: string, p: Pattern, rep: string)
    requires forall i :: 0 <= i < |a| ==> a[i] != '<'
    requires IsTag(p, t)
    ensures ReplaceAll(a + t + b, p, rep) == a + rep + ReplaceAll(b, p, rep)
  {
    var tb := t + b;
    assert tb[..|t|] == t && tb[|t|..] == b;
    MatchLengthIsTag(p, tb, |t|);
    ReplaceAllHit(tb, p, rep, |t|);
    ReplaceAllAfterPlain(a, tb, p, rep);
    assert a + t + b == a + tb;
  }

  /** A tag another pattern does not match, followed by `<`-free text, is
      left alone. */
  lemma ReplaceAllSkipsTag(t: string, b: string, q: Pattern, p: Pattern, rep: string)
    requires IsTag(q, t) && MatchLength(p, t + b).None?
    requires forall i :: 0 <= i < |b| ==> b[i] != '<'
    ensures ReplaceAll(t + b, p, rep) == t + b
  {
    TagShape(q, t);
    var tb := t + b;
    var tail := tb[1..];
    assert forall i :: 0 <= i < |tail| ==> tail[i] != '<' by {
      forall i | 0 <= i < |tail| ensures tail[i] != '<' {
        if i + 1 < |t| {
          assert tail[i] == t[i + 1];
        } else {
          assert tail[i] == b[i + 1 - |t|];
        }
      }
    }
    ReplaceAllPlain(tail, p, rep);
    assert tb == [tb[0]] + tail;
  }

  /** Each tag matches only its own pattern: a `<br/>` is no closing tag and
      no `<li>`, a closing tag is neither of the others, and so on. */
  lemma OtherPatternMisses(q: Pattern, t: string, b: string, p: Pattern)
    requires IsTag(q, t) && p != q
    ensures MatchLength(p, t + b).None?
  {
    var tb := t + b;
    assert tb[0] == t[0] && tb[1] == t[1];
    if q == BrTag {
      assert LowerChar(t[..3][1]) == 'b';
      assert t[..3][1] == t[1];
    } else if q == LiTag {
      assert LowerChar(t[1]) == 'l';
    }
    if MatchLength(p, tb).Some? {
      var n := MatchLength(p, tb).value;
      MatchLengthIsTag(p, tb, n);
    }
  }

  /** Once the rewrites leave text without `<`, stripping keeps it whole. */
  lemma HtmlToTextOfMarked(html: string, marked: string)
    requires forall i :: 0 <= i < |marked| ==> marked[i] != '<'
    requires ReplaceAll(ReplaceAll(ReplaceAll(html, BrTag, "\n"), ClosingBlockTag, "\n"), LiTag, "\U{2022} ") == marked
    ensures HtmlToText(html) == Trim(CollapseNewlines(marked))
  {
    assert NoTags(marked);
    StripWithoutTagsIsIdentity(marked);
  }

  /** `a + "\n" + b` has no `<` when `a` and `b` have none. */
  lemma JoinedPlain(a: string, mid: string, b: string)
    requires forall i :: 0 <= i < |a| ==> a[i] != '<'
    requires forall i :: 0 <= i < |mid| ==> mid[i] != '<'
    requires forall i :: 0 <= i < |b| ==> b[i] != '<'
    ensures forall i :: 0 <= i < |a + mid + b| ==> (a + mid + b)[i] != '<'
  {
    var out := a + mid + b;
    forall i | 0 <= i < |out| ensures out[i] != '<' {
      if i < |a| {
        assert out[i] == a[i];
      } else if i < |a| + |mid| {
        assert out[i] == mid[i - |a|];
      } else {
        assert out[i] == b[i - |a| - |mid|];
      }
    }
  }

  /** A tag that a rewrite does not match, between `<`-free texts, is kept. */
  lemma ReplaceAllKeepsOtherTag(a: string, t: string, b: string, q: Pattern, p: Pattern, rep: string)
    requires forall i :: 0 <= i < |a| ==> a[i] != '<'
    requires forall i :: 0 <= i < |b| ==> b[i] != '<'
    requires IsTag(q, t) && p != q
    ensures ReplaceAll(a + t + b, p, rep) == a + t + b
  {
    var tb := t + b;
    assert ReplaceAll(tb, p, rep) == tb by {
      OtherPatternMisses(q, t, b, p);
      ReplaceAllSkipsTag(t, b, q, p, rep);
    }
    ReplaceAllAfterPlain(a, tb, p, rep);
    assert a + tb == a + t + b;
  }

  /** The first two rewrites turn a break or closing block tag into `\n`. */
  lemma BreakRewritten(a: string, t: string, b: string)
    requires forall i :: 0 <= i < |a| ==> a[i] != '<'
    requires forall i :: 0 <= i < |b| ==> b[i] != '<'
    requires IsTag(BrTag, t) || IsTag(ClosingBlockTag, t)
    ensures ReplaceAll(ReplaceAll(a + t + b, BrTag, "\n"), ClosingBlockTag, "\n") == a + "\n" + b
  {
    var out := a + "\n" + b;
    JoinedPlain(a, "\n", b);
    if IsTag(BrTag, t) {
      ReplaceAllPlain(b, BrTag, "\n");
      ReplaceAllAtTag(a, t, b, BrTag, "\n");
      ReplaceAllPlain(out, ClosingBlockTag, "\n");
    } else {
      ReplaceAllKeepsOtherTag(a, t, b, ClosingBlockTag, BrTag, "\n");
      ReplaceAllPlain(b, ClosingBlockTag, "\n");
      ReplaceAllAtTag(a, t, b, ClosingBlockTag, "\n");
    }
  }

  /** `<br/>` and the closing p/div/h1/h2/h3/li tags, in any ASCII case,
      become a line break; the text around them is kept. */
  lemma HtmlToTextBreak(a: string, t: string, b: string)
    requires forall i :: 0 <= i < |a| ==> a[i] != '<'
    requires forall i :: 0 <= i < |b| ==> b[i] != '<'
    requires IsTag(BrTag, t) || IsTag(ClosingBlockTag, t)
    ensures HtmlToText(a + t + b) == Trim(CollapseNewlines(a + "\n" + b))
  {
    var out := a + "\n" + b;
    JoinedPlain(a, "\n", b);
    BreakRewritten(a, t, b);
    ReplaceAllPlain(out, LiTag, "\U{2022} ");
    HtmlToTextOfMarked(a + t + b, out);
  }

  /** `<li>`, in any ASCII case, becomes a bullet; the text around it is kept. */
  lemma HtmlToTextListItem(a: string, t: string, b: string)
    requires forall i :: 0 <= i < |a| ==> a[i] != '<'
    requires forall i :: 0 <= i < |b| ==> b[i] != '<'
    requires IsTag(LiTag, t)
    ensures HtmlToText(a + t + b) == Trim(CollapseNewlines(a + "\U{2022} " + b))
  {
    var s := a + t + b;
    JoinedPlain(a, "\U{2022} ", b);
    ReplaceAllKeepsOtherTag(a, t, b, LiTag, BrTag, "\n");
    ReplaceAllKeepsOtherTag(a, t, b, LiTag, ClosingBlockTag, "\n");
    ReplaceAllPlain(b, LiTag, "\U{2022} ");
    ReplaceAllAtTag(a, t, b, LiTag, "\U{2022} ");
    HtmlToTextOfMarked(s, a + "\U{2022} " + b);
  }

  /** `<br>` without a slash is not matched: it is left for `stripHtml`,
      which removes it without a line break. */
  lemma BareBreakMisses(rest: string)
    ensures MatchLength(BrTag, "<br>" + rest).None?
  {
    var s := "<br>" + rest;
    assert s[3..][0] == '>';
    assert LeadingSpace(s[3..]) == 0;
  }

  /** `a<BR />b` becomes two lines. */
  lemma UpperCaseBreakExample()
    ensures HtmlToText("a<BR />b") == "a\nb"
  {
    var t, html, out := "<BR />", "a<BR />b", "a\nb";
    assert EqualsNoCase(t[..3], "<br");
    assert "a" + t + "b" == html && "a" + "\n" + "b" == out;
    HtmlToTextBreak("a", t, "b");
    TwoLinesSettled();
  }

  /** Two short lines need no collapsing and no trimming. */
  lemma TwoLinesSettled()
    ensures Trim(CollapseNewlines("a\nb")) == "a\nb"
  {
    TwoLinesCollapsed();
    TwoLinesTrimmed();
  }

  /** A single newline is not a run to collapse. */
  lemma TwoLinesCollapsed()
    ensures CollapseNewlines("a\nb") == "a\nb"
  {
    var s := "a\nb";
    assert LeadingNewlines("b") == 0 && "b"[1..] == [];
    assert CollapseNewlines("b") == "b";
    assert LeadingNewlines("\nb") < 3 && "\nb"[1..] == "b";
    assert CollapseNewlines("\nb") == "\nb";
    assert LeadingNewlines(s) == 0 && s[1..] == "\nb";
  }

  /** Only the inner character of `a\nb` is white space. */
  lemma TwoLinesTrimmed()
    ensures Trim("a\nb") == "a\nb"
  {
    var s := "a\nb";
    assert LeadingSpace(s) == 0 && s[0..] == s;
    assert TrailingSpace(s) == 0;
  }

  // ----- renderEmail -----

  datatype EmailBrand = EmailBrand(appName: string, primaryColor: Option<string>, accentColor: Option<string>,
                                   logoUrl: Option<string>, supportEmail: Option<string>, companyAddress: Option<string>)

  datatype EmailRenderInput = EmailRenderInput(subject: string, previewText: Option<string>, heading: string,
                                               contentHtml: string, brand: EmailBrand)

  /** The parts of the rendered e-mail outside its markup: the subject, the
      plain-text body and the two colours the markup uses. */
  datatype RenderedEmail = RenderedEmail(subject: string, text: string, primary: string, accent: string)

  /** `value || fallback` for an optional string: absent and empty both
      fall back. */
  function OrDefault(value: Option<string>, fallback: string): (r: string)
    ensures value.Some? && value.value != "" ==> r == value.value
    ensures value.None? || value.value == "" ==> r == fallback
  {
    if value.Some? && value.value != "" then value.value else fallback
  }

  const DefaultPrimary: string := "#0b1e3a"
  const DefaultAccent: string := "#14b87a"

  function RenderEmail(input: EmailRenderInput): (e: RenderedEmail)
    ensures e.subject == input.subject
    ensures e.text == HtmlToText(input.heading + "\n\n" + StripHtml(input.contentHtml))
    ensures e.text != [] ==> !IsJsWhitespace(e.text[0]) && !IsJsWhitespace(e.text[|e.text| - 1])
    ensures NoTripleNewline(e.text)
    ensures input.brand.primaryColor.None? ==> e.primary == DefaultPrimary
    ensures input.brand.accentColor.None? ==> e.accent == DefaultAccent
    ensures e.primary == OrDefault(input.brand.primaryColor, DefaultPrimary)
    ensures e.accent == OrDefault(input.brand.accentColor, DefaultAccent)
  {
    var text := HtmlToText(input.heading + "\n\n" + StripHtml(input.contentHtml));
    HtmlToTextShape(input.heading + "\n\n" + StripHtml(input.contentHtml));
    RenderedEmail(input.subject, text, OrDefault(input.brand.primaryColor, DefaultPrimary),
                  OrDefault(input.brand.accentColor, DefaultAccent))
  }
}
