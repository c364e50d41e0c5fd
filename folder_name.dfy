/** The name transform of `clean_folder_names`: release tags cut off,
    dots turned into spaces and a trailing year put in parentheses. */
module FolderName {
  import opened Text

  /** The configured tags, in the order the loop visits them. */
  const ConfigTags: seq<string> := [
    "1080p", "2160p", "720p", "480p", "4K", "2K", "UHD",
    "HDRip", "DVDRip", "BRRip", "BR-Rip", "BDRip", "BD-Rip", "WEB-DL", "WEBRip", "BluRay",
    "x264", "x265", "X265", "H264", "H265", "HEVC", "XviD", "DivX", "AVC",
    "AAC", "AC3", "DTS", "Atmos", "TrueHD", "DD5.1", "5.1", "7.1",
    "HDR", "HDR10", "HDR10+", "DolbyVision", "SDR", "10bit",
    "Extended", "Unrated", "Remastered", "REPACK", "PROPER",
    "YIFY", "YTS", "RARBG", "SPARKS", "NF", "AMZN", "HULU", "WEB"]

  /** The characters `strip(' .-')` removes. */
  predicate IsTrim(c: char) {
    c == ' ' || c == '.' || c == '-'
  }

  /** One pass of the tag loop: when `tag` occurs in `name` ignoring case,
      the part before its first occurrence, stripped of spaces, dots and
      dashes, replaces the name unless nothing is left of it. */
  function CutTag(name: string, tag: string): (r: string)
    ensures IsInfix(r, name)
    ensures name != [] ==> r != []
    ensures r == name || !Contains(LowerStr(r), LowerStr(tag))
    ensures var lower, t := LowerStr(name), LowerStr(tag);
      Contains(lower, t) && StripBy(name[..Find(lower, t, 0)], IsTrim) != [] ==>
        r == StripBy(name[..Find(lower, t, 0)], IsTrim)
    ensures var lower, t := LowerStr(name), LowerStr(tag);
      !(Contains(lower, t) && StripBy(name[..Find(lower, t, 0)], IsTrim) != []) ==> r == name
  {
    var lower := LowerStr(name);
    var t := LowerStr(tag);
    assert name[0..|name|] == name;
    if Contains(lower, t) then
      var i := Find(lower, t, 0);
      var head := StripBy(name[..i], IsTrim);
      if head != [] then
        HeadHasNoTag(name, tag, i, head);
        assert name[0..i] == name[..i];
        InfixTransitive(head, name[..i], name);
        head
      else name
    else name
  }

  /** The text before the first occurrence of a tag does not contain it,
      and neither does any piece of that text. */
  lemma HeadHasNoTag(name: string, tag: string, i: nat, head: string)
    requires i <= |name| && |LowerStr(name)| - |LowerStr(tag)| >= i
    requires forall k :: 0 <= k < i ==> !OccursAt(LowerStr(name), LowerStr(tag), k)
    requires IsInfix(head, name[..i]) && head != []
    ensures !Contains(LowerStr(head), LowerStr(tag))
  {
    var t := LowerStr(tag);
    if |t| == 0 {
      assert OccursAt(LowerStr(name), t, 0);
      assert false;
    }
    LowerStrSlice(name, 0, i);
    assert !Contains(LowerStr(name[..i]), t) by {
      if Contains(LowerStr(name[..i]), t) {
        var k :| 0 <= k <= i - |t| && OccursAt(LowerStr(name[..i]), t, k);
        assert LowerStr(name)[k..k + |t|] == LowerStr(name[..i])[k..k + |t|];
        assert OccursAt(LowerStr(name), t, k);
      }
    }
    LowerInfix(head, name[..i]);
    if Contains(LowerStr(head), t) {
      ContainsInfix(LowerStr(head), LowerStr(name[..i]), t);
    }
  }

  /** The name after the loop has visited `tags`, in order. */
  function StripTags(name: string, tags: seq<string>): string
    decreases |tags|
  {
    if tags == [] then name
    else CutTag(StripTags(name, tags[..|tags| - 1]), tags[|tags| - 1])
  }

  /** The tag loop only ever keeps a piece of the name, and never empties a
      non-empty name. */
  lemma {:induction false} StripTagsInfix(name: string, tags: seq<string>)
    ensures IsInfix(StripTags(name, tags), name)
    ensures name != [] ==> StripTags(name, tags) != []
    decreases |tags|
  {
    if tags != [] {
      var before := StripTags(name, tags[..|tags| - 1]);
      StripTagsInfix(name, tags[..|tags| - 1]);
      InfixTransitive(StripTags(name, tags), before, name);
    } else {
      assert name[0..|name|] == name;
    }
  }

  /** `re.sub(r'\.', ' ', n)`, `re.sub(r'\s+', ' ', n)` and `strip()`, done
      only when the name has a dot. */
  function Undotted(name: string): (r: string)
    ensures '.' !in r
    ensures '.' !in name ==> r == name
    ensures '.' in name ==> NoDoubleSpace(r) && (r == [] || (!IsSpace(r[0]) && !IsSpace(r[|r| - 1])))
    ensures '.' in name ==> r == Strip(CollapseSpaces(Replace(name, '.', ' ')))
  {
    if '.' in name then
      var spaced := Replace(name, '.', ' ');
      var collapsed := CollapseSpaces(spaced);
      CollapseSpacesShape(spaced);
      var r := Strip(collapsed);
      assert '.' !in collapsed by {
        forall k | 0 <= k < |collapsed|
          ensures collapsed[k] != '.'
        {
          assert collapsed[k] == ' ' || collapsed[k] in spaced;
        }
      }
      InfixChars(r, collapsed);
      InfixNoDoubleSpace(r, collapsed);
      r
    else name
  }

  /** `\s(19|20)\d{2}$` matches at `i`: a whitespace character and a year
      that ends the name or stands just before a final line feed. */
  predicate YearSuffixAt(name: string, i: int) {
    && 0 <= i && i + 5 <= |name|
    && IsSpace(name[i]) && YearAt(name, i + 1)
    && (i + 5 == |name| || (i + 6 == |name| && name[i + 5] == '\n'))
  }

  /** Where the trailing year starts, if the name has one. Only two places
      can hold it, and at most one of them does. */
  function YearSuffix(name: string): (r: Option<nat>)
    ensures r.Some? ==> YearSuffixAt(name, r.value)
    ensures r.None? <==> forall i :: !YearSuffixAt(name, i)
  {
    if |name| >= 5 && YearSuffixAt(name, |name| - 5) then Some(|name| - 5)
    else if |name| >= 6 && YearSuffixAt(name, |name| - 6) then Some(|name| - 6)
    else None
  }

  /** `re.sub(r'\s((19|20)\d{2})$', r' (\1)', n)`: the whitespace character
      before a trailing year becomes a space and the year is put in
      parentheses. */
  function FormatYear(name: string): (r: string)
    ensures r == name <==> YearSuffix(name).None?
    ensures YearSuffix(name).Some? ==> |r| == |name| + 2
    ensures YearSuffix(name).Some? ==> r[YearSuffix(name).value + 1] == '(' && r[YearSuffix(name).value + 6] == ')'
    ensures forall c :: c in r ==> c in name || c == ' ' || c == '(' || c == ')'
    ensures YearSuffix(name).Some? ==> var i := YearSuffix(name).value;
      && r[..i] == name[..i] && r[i] == ' '
      && r[i + 2..i + 6] == name[i + 1..i + 5]
      && r[i + 7..] == name[i + 5..]
  {
    var y := YearSuffix(name);
    if y.Some? then
      var i := y.value;
      assert forall c :: c in name[..i] ==> c in name;
      assert forall c :: c in name[i + 1..i + 5] ==> c in name;
      assert forall c :: c in name[i + 5..] ==> c in name;
      name[..i] + " (" + name[i + 1..i + 5] + ")" + name[i + 5..]
    else name
  }

  /** A formatted year ends in `)`, which no year can, so formatting a
      second time changes nothing. */
  lemma FormatYearIdempotent(name: string)
    ensures FormatYear(FormatYear(name)) == FormatYear(name)
  {
    var y := YearSuffix(name);
    if y.Some? {
      var i := y.value;
      var r := FormatYear(name);
      var tail := name[i + 5..];
      assert |tail| == 0 || tail == "\n";
      assert |r| == i + 7 + |tail|;
      assert r[i + 6] == ')';
      if |tail| == 0 {
        assert !YearSuffixAt(r, |r| - 5) by { assert r[|r| - 1] == ')'; }
        assert !YearSuffixAt(r, |r| - 6) by { assert r[|r| - 1] == ')'; }
      } else {
        assert !YearSuffixAt(r, |r| - 5) by { assert r[|r| - 1] == '\n'; }
        assert !YearSuffixAt(r, |r| - 6) by { assert r[|r| - 2] == ')'; }
      }
    }
  }

  /** What `clean_folder_names` renames a folder called `name` to. */
  function CleanedFolderName(name: string, tags: seq<string>): string {
    FormatYear(Undotted(StripTags(name, tags)))
  }

  /** The tag loop of `clean_folder_names`: each tag in turn may cut the
      name down to the stripped text before its first occurrence. */
  method RemoveTags(name: string, tags: seq<string>) returns (newName: string)
    ensures newName == StripTags(name, tags)
  {
    newName := name;
    for j := 0 to |tags|
      invariant newName == StripTags(name, tags[..j])
    {
      var tag := tags[j];
      if Contains(LowerStr(newName), LowerStr(tag)) {
        var i := Find(LowerStr(newName), LowerStr(tag), 0);
        var head := StripBy(newName[..i], IsTrim);
        if head != [] {
          newName := head;
        }
      }
      assert tags[..j + 1][..j] == tags[..j];
    }
    assert tags[..|tags|] == tags;
  }

  /** The transform of one folder name: the loop over the configured tags
      reassigns the name, then the dot and year steps follow. */
  method CleanFolderName(name: string) returns (newName: string)
    ensures newName == CleanedFolderName(name, ConfigTags)
  {
    newName := RemoveTags(name, ConfigTags);
    if '.' in newName {
      newName := Replace(newName, '.', ' ');
      newName := Strip(CollapseSpaces(newName));
    }

    var yearMatch := YearSuffix(newName);
    if yearMatch.Some? {
      newName := FormatYear(newName);
    }
  }

  /** A cleaned name has no dot: the dot step removes every one and the
      year step adds none. */
  lemma CleanedHasNoDot(name: string, tags: seq<string>)
    ensures '.' !in CleanedFolderName(name, tags)
  {
  }
}
