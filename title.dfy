/** Title normalisation (`get_normalized_title`): the year and the
    comparable title that duplicate detection groups movies by. */
module Title {
  import opened Text

  /** `re.search(r'(19|20)\d{2}', s)` from `i`: the first start of a year. */
  function FirstYear(s: string, i: nat): (r: Option<nat>)
    requires i <= |s|
    ensures r.Some? ==> i <= r.value && YearAt(s, r.value)
    ensures r.Some? ==> forall j :: i <= j < r.value ==> !YearAt(s, j)
    ensures r.None? ==> forall j :: i <= j ==> !YearAt(s, j)
    decreases |s| - i
  {
    if YearAt(s, i) then Some(i)
    else if i + 4 > |s| then None
    else FirstYear(s, i + 1)
  }

  /** `[\(\[]?(19|20)\d{2}[\)\]]?.*$` matches at `p`. An opening bracket is
      taken when a year follows it; the closing bracket is a character other
      than a line feed, so whether `.*$` can finish depends only on the text
      after the year. */
  predicate YearCutsAt(s: string, p: nat) {
    || (YearAt(s, p) && TailOk(s, p + 4))
    || (p < |s| && (s[p] == '(' || s[p] == '[') && YearAt(s, p + 1) && TailOk(s, p + 5))
  }

  /** The first position from `p` on at which the year expression matches
      (`|s|` when there is none). */
  function YearCutAt(s: string, p: nat): (r: nat)
    requires p <= |s|
    ensures p <= r <= |s|
    ensures r < |s| ==> YearCutsAt(s, r)
    ensures forall q :: p <= q < r ==> !YearCutsAt(s, q)
    decreases |s| - p
  {
    if p == |s| || YearCutsAt(s, p) then p else YearCutAt(s, p + 1)
  }

  /** `re.sub(r'[\(\[]?(19|20)\d{2}[\)\]]?.*$', '', s)`: everything from
      the first year on is dropped; a final line feed, which `.*$` does not
      take, stays. */
  function CutYear(s: string): string {
    var p := YearCutAt(s, 0);
    if p < |s| then s[..p] + FinalNewline(s) else s
  }

  /** In line-feed-free text no year is left after the cut. */
  lemma NoYearAfterCut(s: string)
    requires '\n' !in s
    ensures forall i :: !YearAt(CutYear(s), i)
  {
    var p := YearCutAt(s, 0);
    assert CutYear(s) == s[..p];
    forall i | 0 <= i && i + 4 <= p
      ensures !YearAt(s[..p], i)
    {
      assert !YearCutsAt(s, i);
      assert TailOk(s, i + 4);
    }
  }

  /** The quality tags the title is cut at, lower-cased because they are
      matched ignoring case. */
  const TitleTags: seq<string> :=
    ["720p", "1080p", "2160p", "4k", "hdrip", "dvdrip", "brrip", "bluray",
     "web-dl", "webrip", "x264", "x265", "hevc"]

  lemma TitleTagsStartVisible()
    ensures forall t :: t in TitleTags ==> |t| > 0 && Visible(t[0])
  {
  }

  /** In line-feed-free text no quality tag is left after the tag cut. */
  lemma NoTagAfterCut(s: string)
    requires '\n' !in s
    ensures forall t :: t in TitleTags ==> !Contains(LowerStr(CutTags(s, TitleTags)), t)
  {
    TitleTagsStartVisible();
    NoTagBeforeCut(s, TitleTags);
  }

  /** `re.sub(r'\.', ' ', s)` followed by `re.sub(r'[_-]', ' ', s)`. */
  function Spaced(s: string): (r: string)
    ensures |r| == |s|
    ensures '.' !in r && '_' !in r && '-' !in r
    ensures forall i :: 0 <= i < |s| ==> r[i] == ' ' || r[i] == s[i]
    ensures forall i :: 0 <= i < |s| ==>
      r[i] == if s[i] == '.' || s[i] == '_' || s[i] == '-' then ' ' else s[i]
  {
    Replace(Replace(Replace(s, '.', ' '), '_', ' '), '-', ' ')
  }

  /** The articles `^(the|a|an)\s+` removes. */
  const Articles: seq<string> := ["the", "a", "an"]

  /** `article` followed by at least one whitespace character opens `t`;
      the result is where the whitespace run ends. */
  function ArticleEnd(t: string, article: string): (r: Option<nat>)
    ensures r.Some? ==> OccursAt(t, article, 0) && |article| < r.value <= |t|
    ensures r.Some? ==> forall k :: |article| <= k < r.value ==> IsSpace(t[k])
    ensures r.Some? ==> r.value == |t| || !IsSpace(t[r.value])
  {
    if OccursAt(t, article, 0) then
      var e := RunEnd(t, |article|, IsSpace);
      if e > |article| then Some(e) else None
    else None
  }

  /** Where `re.sub(r'^(the|a|an)\s+', '', t)` lets the text resume: the
      alternatives are tried in order at the start only, so at most one
      article and the whitespace after it go (0 when none opens `t`). */
  function ArticleCut(t: string): (k: nat)
    ensures k <= |t|
    ensures k > 0 ==> k == |t| || !IsSpace(t[k])
    ensures k > 0 ==> exists w :: w in Articles && ArticleEnd(t, w) == Some(k)
    ensures forall w :: w in Articles && ArticleEnd(t, w).Some? ==> k == ArticleEnd(t, w).value
  {
    var the := ArticleEnd(t, "the");
    if the.Some? then
      assert t[0] == 't';
      the.value
    else
      var a := ArticleEnd(t, "a");
      if a.Some? then
        // a space follows the "a", so no "an" opens the text
        assert IsSpace(t[1]);
        a.value
      else
        var an := ArticleEnd(t, "an");
        if an.Some? then an.value else 0
  }

  /** The text after a leading article and its whitespace; the whole text
      when no article leads. */
  function StripArticle(t: string): (r: string)
    ensures |r| <= |t| && r == t[|t| - |r|..]
    ensures forall w :: w in Articles && ArticleEnd(t, w).Some? ==> |r| == |t| - ArticleEnd(t, w).value
    ensures (forall w :: w in Articles ==> ArticleEnd(t, w).None?) ==> r == t
  {
    var k := ArticleCut(t);
    assert t[|t| - |t[k..]|..] == t[k..];
    t[k..]
  }

  lemma ArticleEndAfterSpace(article: string, rest: string)
    requires rest == [] || !IsSpace(rest[0])
    ensures ArticleEnd(article + " " + rest, article) == Some(|article| + 1)
  {
    var t := article + " " + rest;
    assert t[..|article|] == article;
    assert RunEnd(t, |article| + 1, IsSpace) == |article| + 1;
  }

  /** An article, one space and a text that does not start with whitespace:
      exactly the article and the space go. */
  lemma StripsOneArticle(article: string, rest: string)
    requires article in Articles
    requires rest == [] || !IsSpace(rest[0])
    ensures StripArticle(article + " " + rest) == rest
  {
    var t := article + " " + rest;
    ArticleEndAfterSpace(article, rest);
    if article == "a" {
      assert t[0] == 'a';
      assert ArticleEnd(t, "the").None?;
    } else if article == "an" {
      assert t[0] == 'a' && t[1] == 'n';
      assert ArticleEnd(t, "the").None? && ArticleEnd(t, "a").None?;
    }
    assert ArticleCut(t) == |article| + 1;
    assert t[|article| + 1..] == rest;
  }

  /** A second article is left in place, so normalising twice can give a
      different title than normalising once. */
  lemma ArticleStrippedOnce()
    ensures StripArticle("the the matrix") == "the matrix"
    ensures StripArticle(StripArticle("the the matrix")) == "matrix"
  {
    StripTheThe();
    StripTheMatrix();
  }

  lemma StripTheThe()
    ensures StripArticle("the the matrix") == "the matrix"
  {
    assert "the the matrix" == "the" + " " + "the matrix";
    StripsOneArticle("the", "the matrix");
  }

  lemma StripTheMatrix()
    ensures StripArticle("the matrix") == "matrix"
  {
    assert "the matrix" == "the" + " " + "matrix";
    StripsOneArticle("the", "matrix");
  }

  /** What `get_normalized_title` returns. */
  datatype TitleInfo = TitleInfo(normalizedTitle: string, year: Option<string>)

  /** The text the article is stripped from: the stem cut at the first year
      and at the first quality tag, separators turned into spaces,
      whitespace collapsed, stripped and lower-cased. */
  function Cleaned(basename: string): string {
    var cut := CutTags(CutYear(basename), TitleTags);
    LowerStr(Strip(CollapseSpaces(Spaced(cut))))
  }

  /** The year: the first `19xx` or `20xx` of the stem, present exactly
      when such a run of digits occurs. */
  function YearOf(basename: string): (y: Option<string>)
    ensures y.Some? ==> exists i :: YearAt(basename, i) && y.value == basename[i..i + 4]
                          && forall j :: 0 <= j < i ==> !YearAt(basename, j)
    ensures y.None? <==> forall i :: !YearAt(basename, i)
    ensures y.Some? ==> |y.value| == 4 && (y.value[..2] == "19" || y.value[..2] == "20")
                        && forall k :: 0 <= k < 4 ==> IsDigit(y.value[k])
  {
    var f := FirstYear(basename, 0);
    if f.Some? then
      var y := basename[f.value..f.value + 4];
      assert y[..2] == [basename[f.value], basename[f.value + 1]];
      Some(y)
    else
      assert forall i :: !YearAt(basename, i);
      None
  }

  /** The title of a name, normalised, and its year. The title is the
      cleaned stem with a leading article and its whitespace removed. */
  function NormalizedTitle(name: string): (r: TitleInfo)
    ensures Normalized(r.normalizedTitle)
    ensures var c := Cleaned(Stem(name));
      && |r.normalizedTitle| <= |c| && r.normalizedTitle == c[|c| - |r.normalizedTitle|..]
      && (forall w :: w in Articles && ArticleEnd(c, w).Some? ==> |r.normalizedTitle| == |c| - ArticleEnd(c, w).value)
      && ((forall w :: w in Articles ==> ArticleEnd(c, w).None?) ==> r.normalizedTitle == c)
    ensures r.year == YearOf(Stem(name))
  {
    var basename := Stem(name);
    CleanedShape(basename);
    ArticleShape(Cleaned(basename));
    TitleInfo(StripArticle(Cleaned(basename)), YearOf(basename))
  }

  predicate NoSeparators(t: string) {
    '.' !in t && '_' !in t && '-' !in t
  }

  /** Every whitespace character is a plain space. */
  predicate PlainSpaces(t: string) {
    forall c :: c in t && IsSpace(c) ==> c == ' '
  }

  predicate Trimmed(t: string) {
    t == [] || (!IsSpace(t[0]) && !IsSpace(t[|t| - 1]))
  }

  /** The shape the normalised title always has: lower-case, no `.`, `_` or
      `-`, every whitespace character a plain space, no two of them in a
      row, and none at either end. */
  predicate Normalized(t: string) {
    IsLowerCase(t) && NoSeparators(t) && PlainSpaces(t) && NoDoubleSpace(t) && Trimmed(t)
  }

  lemma CollapsedShape(s: string)
    requires NoSeparators(s)
    ensures var c := CollapseSpaces(s);
      NoSeparators(c) && PlainSpaces(c) && NoDoubleSpace(c)
  {
    var c := CollapseSpaces(s);
    CollapseSpacesShape(s);
    forall k | 0 <= k < |c|
      ensures c[k] != '.' && c[k] != '_' && c[k] != '-'
      ensures IsSpace(c[k]) ==> c[k] == ' '
    {
      assert c[k] == ' ' || c[k] in s;
    }
  }

  lemma StrippedShape(c: string)
    requires NoSeparators(c) && PlainSpaces(c) && NoDoubleSpace(c)
    ensures var t := Strip(c);
      NoSeparators(t) && PlainSpaces(t) && NoDoubleSpace(t) && Trimmed(t)
  {
    var t := Strip(c);
    InfixChars(t, c);
    InfixNoDoubleSpace(t, c);
  }

  /** Lower-casing changes only letters, so it keeps the shape. */
  lemma LoweredShape(t: string)
    requires NoSeparators(t) && PlainSpaces(t) && NoDoubleSpace(t) && Trimmed(t)
    ensures Normalized(LowerStr(t))
  {
    var l := LowerStr(t);
    forall k | 0 <= k < |t|
      ensures IsSpace(l[k]) <==> IsSpace(t[k])
      ensures l[k] != '.' && l[k] != '_' && l[k] != '-'
      ensures IsSpace(l[k]) ==> l[k] == ' '
    {
      assert l[k] == Lower(t[k]);
      assert t[k] in t;
    }
  }

  /** Dropping an article keeps the shape. */
  lemma ArticleShape(t: string)
    requires Normalized(t)
    ensures Normalized(StripArticle(t))
  {
    var k := ArticleCut(t);
    var r := t[k..];
    assert t[k..|t|] == r;
    InfixChars(r, t);
    InfixNoDoubleSpace(r, t);
    assert IsLowerCase(r) by {
      forall i | 0 <= i < |r|
        ensures !IsUpper(r[i])
      {
        assert r[i] == t[k + i];
      }
    }
    assert Trimmed(r) by {
      if r != [] {
        assert r[0] == t[k] && r[|r| - 1] == t[|t| - 1];
      }
    }
  }

  lemma CleanedShape(basename: string)
    ensures Normalized(Cleaned(basename))
  {
    var cut := CutTags(CutYear(basename), TitleTags);
    var spaced := Spaced(cut);
    CollapsedShape(spaced);
    var collapsed := CollapseSpaces(spaced);
    StrippedShape(collapsed);
    LoweredShape(Strip(collapsed));
  }

  /** The empty name gives an empty title and no year. */
  lemma EmptyName()
    ensures NormalizedTitle("") == TitleInfo("", None)
  {
    assert Stem("") == "";
    assert Cleaned("") == "";
  }
}
