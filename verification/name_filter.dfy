/**
 * The entry-name test of the directory walk: the regular expression
 * `(.html|.css|.js)$` applied to an entry's base name. The dot is not
 * escaped, so it stands for any single character except a JavaScript line
 * terminator, and the pattern is anchored only at the end.
 */
module NameFilter {

  import opened Paths

  /** The characters JavaScript's `.` does not match without the `s` flag. */
  predicate IsLineTerminator(c: char) {
    c == '\n' || c == '\r' || c == '\U{2028}' || c == '\U{2029}'
  }

  const Extensions: seq<string> := ["html", "css", "js"]

  /** One alternative of the pattern, `.ext`, matched against the whole of `t`. */
  predicate MatchesAlternative(t: string, ext: string) {
    |t| == |ext| + 1 && !IsLineTerminator(t[0]) && t[1..] == ext
  }

  /** Some alternative matches the whole of `t`. */
  predicate MatchesSomeAlternative(t: string) {
    exists j :: 0 <= j < |Extensions| && MatchesAlternative(t, Extensions[j])
  }

  /**
   * What `RegExp.prototype.test` decides: a match may start at any index
   * and must reach the end of the name (`$` without the `m` flag).
   */
  ghost predicate RegexAccepts(name: string) {
    exists k :: 0 <= k <= |name| && MatchesSomeAlternative(name[k..])
  }

  /** The alternative `.ext` matches at the end of `name`. */
  predicate EndsWithAnyCharThen(name: string, ext: string) {
    |name| > |ext| && EndsWith(name, ext) && !IsLineTerminator(name[|name| - |ext| - 1])
  }

  /** The executable form of the test, checking the three possible match starts. */
  predicate IsWebFileName(name: string) {
    EndsWithAnyCharThen(name, "html") || EndsWithAnyCharThen(name, "css") || EndsWithAnyCharThen(name, "js")
  }

  /** The suffix test decides exactly what the regular expression decides. */
  lemma IsWebFileNameMatchesRegex(name: string)
    ensures IsWebFileName(name) <==> RegexAccepts(name)
  {
    if EndsWithAnyCharThen(name, "html") {
      SuffixMatchIsRegexMatch(name, 0);
    } else if EndsWithAnyCharThen(name, "css") {
      SuffixMatchIsRegexMatch(name, 1);
    } else if EndsWithAnyCharThen(name, "js") {
      SuffixMatchIsRegexMatch(name, 2);
    }
    if RegexAccepts(name) {
      var k :| 0 <= k <= |name| && MatchesSomeAlternative(name[k..]);
      var j :| 0 <= j < |Extensions| && MatchesAlternative(name[k..], Extensions[j]);
      RegexMatchIsSuffixMatch(name, k, j);
    }
  }

  lemma SuffixMatchIsRegexMatch(name: string, j: nat)
    requires j < |Extensions| && EndsWithAnyCharThen(name, Extensions[j])
    ensures RegexAccepts(name)
  {
    var k := |name| - |Extensions[j]| - 1;
    assert name[k..][1..] == name[|name| - |Extensions[j]|..];
    assert MatchesAlternative(name[k..], Extensions[j]);
    assert MatchesSomeAlternative(name[k..]);
  }

  lemma RegexMatchIsSuffixMatch(name: string, k: nat, j: nat)
    requires k <= |name| && j < |Extensions| && MatchesAlternative(name[k..], Extensions[j])
    ensures IsWebFileName(name)
  {
    var ext := Extensions[j];
    assert k == |name| - |ext| - 1;
    assert name[k..][1..] == name[|name| - |ext|..];
    assert name[k..][0] == name[k];
    assert EndsWithAnyCharThen(name, ext);
  }

  /** A match ends with the last character of its extension. */
  lemma LastCharOfMatch(name: string, ext: string)
    requires EndsWithAnyCharThen(name, ext) && ext != []
    ensures name[|name| - 1] == ext[|ext| - 1]
  {
    assert name[|name| - |ext|..][|ext| - 1] == name[|name| - 1];
  }

  /** A name whose last character is neither `l` nor `s` is rejected. */
  lemma RejectedByLastChar(name: string)
    requires name != [] && name[|name| - 1] != 'l' && name[|name| - 1] != 's'
    ensures !IsWebFileName(name)
  {
    if EndsWithAnyCharThen(name, "html") {
      LastCharOfMatch(name, "html");
    }
    if EndsWithAnyCharThen(name, "css") {
      LastCharOfMatch(name, "css");
    }
    if EndsWithAnyCharThen(name, "js") {
      LastCharOfMatch(name, "js");
    }
  }

  /** Every name with a proper `.html`, `.css` or `.js` extension is admitted. */
  lemma DottedExtensionIsAdmitted(name: string)
    requires EndsWith(name, ".html") || EndsWith(name, ".css") || EndsWith(name, ".js")
    ensures IsWebFileName(name)
  {
    if EndsWith(name, ".html") {
      DottedIsAnyChar(name, "html");
    } else if EndsWith(name, ".css") {
      DottedIsAnyChar(name, "css");
    } else {
      DottedIsAnyChar(name, "js");
    }
  }

  lemma DottedIsAnyChar(name: string, ext: string)
    requires EndsWith(name, ['.'] + ext)
    ensures EndsWithAnyCharThen(name, ext)
  {
    var k := |name| - |ext| - 1;
    assert name[k..] == ['.'] + ext;
    assert name[k] == name[k..][0] == '.';
    assert name[k + 1..] == name[k..][1..];
  }

  /**
   * The test is looser than an extension check: a name whose last
   * characters are `html`, `css` or `js` after any other character is
   * admitted.
   */
  lemma LooseMatches()
    ensures IsWebFileName("xhtml") && IsWebFileName("foo.mjs") && IsWebFileName("style_css")
  {
    assert "xhtml"[1..] == "html";
    assert "foo.mjs"[5..] == "js";
    assert "style_css"[6..] == "css";
  }

  /**
   * A name that is only the extension is rejected, as is one with a line
   * break before it, and the test is case-sensitive.
   */
  lemma StrictRejects()
    ensures !IsWebFileName("js") && !IsWebFileName("html") && !IsWebFileName("a\njs")
    ensures !IsWebFileName("readme.md") && !IsWebFileName("logo.png") && !IsWebFileName("index.HTML")
  {
    RejectedByLastChar("readme.md");
    RejectedByLastChar("logo.png");
    RejectedByLastChar("index.HTML");
  }
}
