/** Worked inputs: a file name for each of the three episode patterns, and
    how the optional episode groups of the first pattern read a dash. */
module EpisodeExamples {
  import opened Text
  import opened Episode

  /** The title cannot end just before a character that is not a separator,
      since `[.\s_-]+` must follow it. */
  lemma NoSeparatorAt(p: Pattern, s: string, i: nat)
    requires i < |s| && !IsSep(s[i])
    ensures Attempt(p, s, i).None?
  {
  }

  const DashStem := "Show.S01E01-03"
  const DashCaptures := Captures("Show", "01", "01", Some("03"), None, "")

  lemma DashAttempt()
    ensures AttemptSxxExx(DashStem, 4) == Some(DashCaptures)
  {
    var stem := DashStem;
    assert RunEnd(stem, 4, IsSep) == 5;
    assert Digits2End(stem, 6) == 8;
    assert Digits2End(stem, 9) == 11;
    assert Digits2End(stem, 12) == 14;
    assert stem[12..14] == "03";
    assert OptionalNumber(stem, 11) == (Some("03"), 14);
    assert OptionalNumber(stem, 14) == (None, 14);
    assert stem[..4] == "Show" && stem[6..8] == "01" && stem[9..11] == "01";
    assert TailOk(stem, 14) && TailText(stem, 14) == "";
  }

  lemma DashNoShorterTitle()
    ensures forall j: nat :: j < 4 ==> !MatchesWith(SxxExx, DashStem, j)
  {
    NoSeparatorAt(SxxExx, DashStem, 1);
    NoSeparatorAt(SxxExx, DashStem, 2);
    NoSeparatorAt(SxxExx, DashStem, 3);
  }

  /** `S01E01-03`: the dash introduces a second episode number. */
  lemma DashMatch()
    ensures Match(SxxExx, DashStem) == Some(DashCaptures)
  {
    var stem := DashStem;
    DashNoShorterTitle();
    DashAttempt();
    assert stem[..4] == "Show";
    ShortestTitleWins(SxxExx, stem, 4);
  }

  /** The numbers are appended as captured: episodes 1 and 3, with no
      episode 2 filled in between. */
  lemma NoGapFilled()
    ensures FromCaptures(DashCaptures, true).episodes == [1, 3]
    ensures FromCaptures(DashCaptures, true).isMultiEpisode
  {
    assert Number("01") == 1;
    assert Number("03") == 3;
  }

  const DashLetterStem := "Show.S01E01-E03"
  const DashLetterCaptures := Captures("Show", "01", "01", None, None, "-E03")

  lemma DashLetterAttempt()
    ensures AttemptSxxExx(DashLetterStem, 4) == Some(DashLetterCaptures)
  {
    var stem := DashLetterStem;
    assert RunEnd(stem, 4, IsSep) == 5;
    assert Digits2End(stem, 6) == 8;
    assert Digits2End(stem, 9) == 11;
    assert Digits2End(stem, 12) == 12;
    assert OptionalNumber(stem, 11) == (None, 11);
    assert stem[..4] == "Show" && stem[6..8] == "01" && stem[9..11] == "01";
    assert TailOk(stem, 11) && TailText(stem, 11) == "-E03";
  }

  lemma DashLetterNoShorterTitle()
    ensures forall j: nat :: j < 4 ==> !MatchesWith(SxxExx, DashLetterStem, j)
  {
    NoSeparatorAt(SxxExx, DashLetterStem, 1);
    NoSeparatorAt(SxxExx, DashLetterStem, 2);
    NoSeparatorAt(SxxExx, DashLetterStem, 3);
  }

  /** `S01E01-E03`: a dash followed by a letter is not an episode marker,
      so the match has a single episode and leaves `-E03` to the last group. */
  lemma DashLetterMatch()
    ensures Match(SxxExx, DashLetterStem) == Some(DashLetterCaptures)
  {
    var stem := DashLetterStem;
    DashLetterNoShorterTitle();
    DashLetterAttempt();
    assert stem[..4] == "Show";
    ShortestTitleWins(SxxExx, stem, 4);
  }

  lemma DashLetterSingle()
    ensures FromCaptures(DashLetterCaptures, true).episodes == [1]
    ensures !FromCaptures(DashLetterCaptures, true).isMultiEpisode
  {
    var c := DashLetterCaptures;
    assert NumberList(c.second) == [] && NumberList(c.third) == [];
    assert Number(c.episode) == 1;
  }

  const PilotFile := "Breaking.Bad.S01E01.Pilot.720p.mkv"
  const PilotStem := "Breaking.Bad.S01E01.Pilot.720p"
  const PilotCaptures := Captures("Breaking.Bad", "01", "01", None, None, ".Pilot.720p")

  lemma PilotStemOf()
    ensures Stem(PilotFile) == PilotStem
  {
    var f := PilotFile;
    assert f[31..] == "mkv" && f[..30] == PilotStem;
    StemAtLastDot(f, 30);
  }

  /** A name without a slash is cut at its last dot. */
  lemma StemAtLastDot(f: string, i: nat)
    requires '/' !in f && f != "."
    requires 0 < i < |f| - 1 && f[i] == '.' && '.' !in f[i + 1..]
    ensures Stem(f) == f[..i]
  {
  }

  lemma PilotScan()
    ensures RunEnd(PilotStem, 12, IsSep) == 13
    ensures Digits2End(PilotStem, 14) == 16 && Digits2End(PilotStem, 17) == 19
    ensures OptionalNumber(PilotStem, 19) == (None, 19)
  {
    assert RunEnd(PilotStem, 13, IsSep) == 13;
  }

  lemma PilotSlices()
    ensures PilotStem[..12] == "Breaking.Bad" && PilotStem[14..16] == "01" && PilotStem[17..19] == "01"
    ensures '\n' !in PilotStem[..12]
    ensures TailOk(PilotStem, 19) && TailText(PilotStem, 19) == ".Pilot.720p"
  {
    assert PilotStem[19..] == ".Pilot.720p";
  }

  lemma PilotAttempt()
    ensures AttemptSxxExx(PilotStem, 12) == Some(PilotCaptures)
  {
    PilotScan();
    PilotSlices();
  }

  /** No title shorter than "Breaking.Bad" leaves a match: only the dot at
      8 is a separator, and a `B` follows it. */
  lemma PilotNoMatchAt(j: nat)
    requires 1 <= j < 12
    ensures Attempt(SxxExx, PilotStem, j).None?
  {
    if j == 8 {
      PilotDotAt8();
    } else {
      NoSeparatorAt(SxxExx, PilotStem, j);
    }
  }

  /** The dot at 8 is followed by `B`, not by an `S`. */
  lemma PilotDotAt8()
    ensures AttemptSxxExx(PilotStem, 8).None?
  {
    assert RunEnd(PilotStem, 9, IsSep) == 9;
    assert PilotStem[9] == 'B';
  }

  lemma PilotNoShorterTitle()
    ensures forall j: nat :: j < 12 ==> !MatchesWith(SxxExx, PilotStem, j)
  {
    forall j: nat | 1 <= j < 12
      ensures Attempt(SxxExx, PilotStem, j).None?
    {
      PilotNoMatchAt(j);
    }
  }

  lemma PilotMatch()
    ensures Match(SxxExx, PilotStem) == Some(PilotCaptures)
  {
    PilotNoShorterTitle();
    PilotAttempt();
    PilotSlices();
    ShortestTitleWins(SxxExx, PilotStem, 12);
  }

  /** Text without whitespace at either end is its own strip. */
  lemma StripKeeps(s: string)
    requires s != [] && !IsSpace(s[0]) && !IsSpace(s[|s| - 1])
    ensures Strip(s) == s
  {
    assert RunEnd(s, 0, IsSpace) == 0;
  }

  /** A run stops at the first character outside it. */
  lemma RunStops(s: string, i: nat, p: char -> bool)
    requires i < |s| && !p(s[i])
    ensures RunEnd(s, i, p) == i
  {
  }

  /** Every episode tag starts with one of these characters. */
  lemma TagInitials()
    ensures forall t :: t in EpisodeTags ==> |t| > 0 && t[0] in "7124hwbxa"
  {
  }

  /** No tag starts at a character that begins none of them. */
  lemma NoTagWithInitial(s: string, q: nat, tags: seq<string>, initials: string)
    requires forall t :: t in tags ==> |t| > 0 && t[0] in initials
    requires q < |s| && Lower(s[q]) !in initials
    ensures !TagAt(s, q, tags)
  {
  }

  /** So no episode tag starts at a character other than these. */
  lemma NoTagAt(s: string, q: nat)
    requires q < |s| && Lower(s[q]) !in "7124hwbxa"
    ensures !TagAt(s, q, EpisodeTags)
  {
    TagInitials();
    NoTagWithInitial(s, q, EpisodeTags, "7124hwbxa");
  }

  /** The cut falls at the first position from which a tag follows. */
  lemma CutAtIs(s: string, tags: seq<string>, k: nat)
    requires k < |s| && TagAt(s, RunEnd(s, k, IsSpace), tags)
    requires forall q :: 0 <= q < k ==> !TagAt(s, RunEnd(s, q, IsSpace), tags)
    ensures CutAt(s, 0, tags) == k
  {
  }

  lemma PilotShowTitle()
    ensures ShowTitle("Breaking.Bad") == "Breaking Bad"
  {
    assert Replace("Breaking.Bad", '.', ' ') == "Breaking Bad";
    StripKeeps("Breaking Bad");
  }

  /** "Pilot 720p": the title is cut before the space ahead of "720p". */
  lemma PilotCut()
    ensures CutAt("Pilot 720p", 0, EpisodeTags) == 5
  {
    var x := "Pilot 720p";
    PilotNoEarlyTag(x);
    assert RunEnd(x, 6, IsSpace) == 6 && RunEnd(x, 5, IsSpace) == 6;
    assert LowerStr(x)[6..10] == "720p";
    assert "720p" in EpisodeTags && OccursAt(LowerStr(x), "720p", 6) && TailOk(x, 10);
    CutAtIs(x, EpisodeTags, 5);
  }

  /** No tag starts inside "Pilot". */
  lemma PilotNoEarlyTag(x: string)
    requires x == "Pilot 720p"
    ensures forall q :: 0 <= q < 5 ==> !TagAt(x, RunEnd(x, q, IsSpace), EpisodeTags)
  {
    forall q | 0 <= q < 5
      ensures !TagAt(x, RunEnd(x, q, IsSpace), EpisodeTags)
    {
      assert RunEnd(x, q, IsSpace) == q;
      NoTagAt(x, q);
    }
  }

  lemma PilotRemainder()
    ensures Replace(LStrip(".Pilot.720p", IsSep), '.', ' ') == "Pilot 720p"
  {
    var rest := ".Pilot.720p";
    assert RunEnd(rest, 1, IsSep) == 1;
    assert LStrip(rest, IsSep) == "Pilot.720p";
  }

  /** Text without a final line feed keeps what comes before the cut. */
  lemma CutTagsBefore(s: string, tags: seq<string>, k: nat)
    requires CutAt(s, 0, tags) == k < |s| && s[|s| - 1] != '\n'
    ensures CutTags(s, tags) == s[..k]
  {
  }

  lemma PilotHead(x: string)
    requires x == "Pilot 720p"
    ensures x[..5] == "Pilot" && x[|x| - 1] != '\n'
  {
  }

  lemma PilotCutTags(x: string)
    requires x == "Pilot 720p"
    ensures CutTags(x, EpisodeTags) == "Pilot"
  {
    PilotCut();
    PilotHead(x);
    CutTagsBefore(x, EpisodeTags, 5);
  }

  lemma PilotBeforeTag(rest: string)
    requires rest == PilotCaptures.rest && '\n' !in rest
    ensures BeforeTag(rest) == "Pilot"
  {
    PilotRemainder();
    PilotCutTags("Pilot 720p");
  }

  lemma PilotEpisodeTitle(rest: string)
    requires rest == PilotCaptures.rest && '\n' !in rest
    ensures EpisodeTitleOf(rest) == Some("Pilot")
  {
    PilotBeforeTag(rest);
    PilotWord("Pilot");
    TitleBeforeTag(rest, "Pilot");
  }

  lemma PilotWord(w: string)
    requires w == "Pilot"
    ensures w != [] && !IsSpace(w[0]) && !IsSpace(w[|w| - 1])
  {
    assert w[0] == 'P' && w[|w| - 1] == 't';
  }

  lemma TitleBeforeTag(rest: string, title: string)
    requires '\n' !in rest && BeforeTag(rest) == title
    requires title != [] && !IsSpace(title[0]) && !IsSpace(title[|title| - 1])
    ensures EpisodeTitleOf(rest) == Some(title)
  {
    StripKeeps(title);
  }

  /** The record the first pattern fills when it matches the stem. */
  lemma FirstPatternInfo(f: string, c: Captures)
    requires Match(SxxExx, Stem(f)) == Some(c)
    ensures WellCaptured(c) && EpisodeInfoOf(f) == FromCaptures(c, true)
  {
  }

  /** The record filled from a single-episode match: the last group gives
      the episode title only to the first pattern. */
  lemma SingleEpisodeRecord(c: Captures, withTitle: bool)
    requires WellCaptured(c) && c.second.None? && (withTitle ==> c.rest != "")
    ensures FromCaptures(c, withTitle)
            == EpisodeInfo(Some(Number(c.season)), Some(Number(c.episode)), [Number(c.episode)],
                           Some(ShowTitle(c.title)), if withTitle then EpisodeTitleOf(c.rest) else None, false)
  {
    assert NumberList(c.second) == [] && NumberList(c.third) == [];
    assert [Number(c.episode)] + [] + [] == [Number(c.episode)];
  }

  lemma PilotFields()
    ensures WellCaptured(PilotCaptures)
    ensures FromCaptures(PilotCaptures, true)
            == EpisodeInfo(Some(1), Some(1), [1], Some("Breaking Bad"), Some("Pilot"), false)
  {
    PilotCaptured();
    SingleEpisodeRecord(PilotCaptures, true);
    PilotShowTitle();
    PilotEpisodeTitle(PilotCaptures.rest);
    PilotNumbers();
  }

  lemma PilotCaptured()
    ensures WellCaptured(PilotCaptures)
  {
    PilotMatch();
  }

  lemma PilotNumbers()
    ensures Number("01") == 1
  {
  }

  /** `Breaking.Bad.S01E01.Pilot.720p.mkv` is season 1, episode 1 of
      "Breaking Bad", titled "Pilot": the release tag and what follows it
      are cut from the episode title. */
  lemma PilotInfo()
    ensures EpisodeInfoOf(PilotFile) == EpisodeInfo(Some(1), Some(1), [1], Some("Breaking Bad"), Some("Pilot"), false)
  {
    PilotStemOf();
    PilotMatch();
    FirstPatternInfo(PilotFile, PilotCaptures);
    PilotFields();
  }

  const MultiFile := "Show.Name.S01E01E02.mkv"
  const MultiStem := "Show.Name.S01E01E02"
  const MultiCaptures := Captures("Show.Name", "01", "01", Some("02"), None, "")

  lemma MultiStemOf()
    ensures Stem(MultiFile) == MultiStem
  {
    var f := MultiFile;
    assert f[20..] == "mkv" && f[..19] == MultiStem;
    StemAtLastDot(f, 19);
  }

  lemma MultiScan()
    ensures RunEnd(MultiStem, 9, IsSep) == 10
    ensures Digits2End(MultiStem, 11) == 13 && Digits2End(MultiStem, 14) == 16
    ensures OptionalNumber(MultiStem, 16) == (Some("02"), 19)
    ensures OptionalNumber(MultiStem, 19) == (None, 19)
  {
    assert RunEnd(MultiStem, 10, IsSep) == 10;
    assert MultiStem[17..19] == "02";
  }

  lemma MultiSlices()
    ensures MultiStem[..9] == "Show.Name" && MultiStem[11..13] == "01" && MultiStem[14..16] == "01"
    ensures '\n' !in MultiStem[..9]
    ensures TailOk(MultiStem, 19) && TailText(MultiStem, 19) == ""
  {
  }

  lemma MultiAttempt()
    ensures AttemptSxxExx(MultiStem, 9) == Some(MultiCaptures)
  {
    MultiScan();
    MultiSlices();
  }

  /** No title shorter than "Show.Name" leaves a match: only the dot at 4
      is a separator, and an `N` follows it. */
  lemma MultiNoMatchAt(j: nat)
    requires 1 <= j < 9
    ensures Attempt(SxxExx, MultiStem, j).None?
  {
    if j == 4 {
      assert RunEnd(MultiStem, 5, IsSep) == 5;
    } else {
      NoSeparatorAt(SxxExx, MultiStem, j);
    }
  }

  lemma MultiNoShorterTitle()
    ensures forall j: nat :: j < 9 ==> !MatchesWith(SxxExx, MultiStem, j)
  {
    forall j: nat | 1 <= j < 9
      ensures Attempt(SxxExx, MultiStem, j).None?
    {
      MultiNoMatchAt(j);
    }
  }

  /** `S01E01E02`: the second `E` group is taken, and the third optional
      group finds nothing. */
  lemma MultiMatch()
    ensures Match(SxxExx, MultiStem) == Some(MultiCaptures)
  {
    MultiNoShorterTitle();
    MultiAttempt();
    MultiSlices();
    ShortestTitleWins(SxxExx, MultiStem, 9);
  }

  lemma ShowNameTitle()
    ensures ShowTitle("Show.Name") == "Show Name"
  {
    assert Replace("Show.Name", '.', ' ') == "Show Name";
    StripKeeps("Show Name");
  }

  lemma MultiFields()
    ensures WellCaptured(MultiCaptures)
    ensures FromCaptures(MultiCaptures, true)
            == EpisodeInfo(Some(1), Some(1), [1, 2], Some("Show Name"), None, true)
  {
    MultiCaptured();
    TwoEpisodeRecord(MultiCaptures, true);
    ShowNameTitle();
    MultiNumbers();
  }

  lemma MultiCaptured()
    ensures WellCaptured(MultiCaptures)
  {
    MultiMatch();
  }

  lemma MultiNumbers()
    ensures Number("01") == 1 && Number("02") == 2
  {
  }

  /** The record filled from a match with one optional number and an empty
      last group. */
  lemma TwoEpisodeRecord(c: Captures, withTitle: bool)
    requires WellCaptured(c) && c.second.Some? && c.third.None? && c.rest == ""
    ensures FromCaptures(c, withTitle)
            == EpisodeInfo(Some(Number(c.season)), Some(Number(c.episode)),
                           [Number(c.episode), Number(c.second.value)], Some(ShowTitle(c.title)), None, true)
  {
    assert NumberList(c.second) == [Number(c.second.value)] && NumberList(c.third) == [];
    assert [Number(c.episode)] + [Number(c.second.value)] + [] == [Number(c.episode), Number(c.second.value)];
  }

  /** `Show.Name.S01E01E02.mkv` is episodes 1 and 2 of season 1 of
      "Show Name", marked as a multi-episode file; nothing is left for an
      episode title. */
  lemma MultiInfo()
    ensures EpisodeInfoOf(MultiFile) == EpisodeInfo(Some(1), Some(1), [1, 2], Some("Show Name"), None, true)
  {
    MultiStemOf();
    MultiMatch();
    FirstPatternInfo(MultiFile, MultiCaptures);
    MultiFields();
  }

  /** A pattern that fails at every title length finds no match. */
  lemma NoMatchAnywhere(p: Pattern, s: string)
    requires forall k :: 1 <= k <= |s| ==> Attempt(p, s, k).None?
    ensures Match(p, s).None?
  {
  }

  /** The record the second pattern fills when the first finds nothing. */
  lemma SecondPatternInfo(f: string, c: Captures)
    requires Match(SxxExx, Stem(f)).None? && Match(NxN, Stem(f)) == Some(c)
    ensures WellCaptured(c) && EpisodeInfoOf(f) == FromCaptures(c, false)
  {
  }

  /** The record the third pattern fills when the first two find nothing. */
  lemma ThirdPatternInfo(f: string, c: Captures)
    requires Match(SxxExx, Stem(f)).None? && Match(NxN, Stem(f)).None?
    requires Match(SeasonEpisode, Stem(f)) == Some(c)
    ensures WellCaptured(c) && EpisodeInfoOf(f) == FromCaptures(c, false)
  {
  }

  const CrossFile := "Show.1x05.mkv"
  const CrossStem := "Show.1x05"
  const CrossCaptures := Captures("Show", "1", "05", None, None, "")

  lemma CrossStemOf()
    ensures Stem(CrossFile) == CrossStem
  {
    var f := CrossFile;
    assert f[10..] == "mkv" && f[..9] == CrossStem;
    StemAtLastDot(f, 9);
  }

  /** The first pattern fails at every title length: the one separator is
      followed by a digit, not by `S`. */
  lemma CrossNotFirstAt(j: nat)
    requires 1 <= j <= |CrossStem|
    ensures Attempt(SxxExx, CrossStem, j).None?
  {
    if j == 4 {
      assert RunEnd(CrossStem, 5, IsSep) == 5;
    } else if j < |CrossStem| {
      NoSeparatorAt(SxxExx, CrossStem, j);
    }
  }

  lemma CrossNotFirst()
    ensures Match(SxxExx, CrossStem).None?
  {
    forall k | 1 <= k <= |CrossStem|
      ensures Attempt(SxxExx, CrossStem, k).None?
    {
      CrossNotFirstAt(k);
    }
    NoMatchAnywhere(SxxExx, CrossStem);
  }

  lemma CrossAttempt()
    ensures AttemptNxN(CrossStem, 4) == Some(CrossCaptures)
  {
    var stem := CrossStem;
    assert RunEnd(stem, 5, IsSep) == 5;
    assert Digits2End(stem, 5) == 6 && Digits2End(stem, 7) == 9;
    assert stem[..4] == "Show" && stem[5..6] == "1" && stem[7..9] == "05";
    assert TailOk(stem, 9) && TailText(stem, 9) == "";
  }

  lemma CrossMatch()
    ensures Match(NxN, CrossStem) == Some(CrossCaptures)
  {
    var stem := CrossStem;
    NoSeparatorAt(NxN, stem, 1);
    NoSeparatorAt(NxN, stem, 2);
    NoSeparatorAt(NxN, stem, 3);
    CrossAttempt();
    assert stem[..4] == "Show";
    ShortestTitleWins(NxN, stem, 4);
  }

  lemma ShowShowTitle()
    ensures ShowTitle("Show") == "Show"
  {
    assert Replace("Show", '.', ' ') == "Show";
    StripKeeps("Show");
  }

  lemma CrossFields()
    ensures WellCaptured(CrossCaptures)
    ensures FromCaptures(CrossCaptures, false) == EpisodeInfo(Some(1), Some(5), [5], Some("Show"), None, false)
  {
    CrossMatch();
    SingleEpisodeRecord(CrossCaptures, false);
    ShowShowTitle();
    assert Number("1") == 1 && Number("05") == 5;
  }

  /** `Show.1x05.mkv` is season 1, episode 5 of "Show"; the second pattern
      leaves the episode title unset. */
  lemma CrossInfo()
    ensures EpisodeInfoOf(CrossFile) == EpisodeInfo(Some(1), Some(5), [5], Some("Show"), None, false)
  {
    CrossStemOf();
    CrossNotFirst();
    CrossMatch();
    SecondPatternInfo(CrossFile, CrossCaptures);
    CrossFields();
  }

  const WordyFile := "Show Season 2 Episode 3.mkv"
  const WordyStem := "Show Season 2 Episode 3"
  const WordyCaptures := Captures("Show", "2", "3", None, None, "")

  lemma WordyStemOf()
    ensures Stem(WordyFile) == WordyStem
  {
    var f := WordyFile;
    assert f[24..] == "mkv" && f[..23] == WordyStem;
    StemAtLastDot(f, 23);
  }

  /** The separators of the stem stand at 4, 11, 13 and 21. */
  lemma WordySeparators(j: nat)
    requires j < |WordyStem| && j !in {4, 11, 13, 21}
    ensures !IsSep(WordyStem[j])
  {
  }

  /** Each separator is a single space: what follows it is not one. */
  lemma WordyRuns()
    ensures RunEnd(WordyStem, 4, IsSep) == 5 && RunEnd(WordyStem, 11, IsSep) == 12
    ensures RunEnd(WordyStem, 13, IsSep) == 14 && RunEnd(WordyStem, 21, IsSep) == 22
  {
    WordyRunsOf(WordyStem);
  }

  lemma WordyRunsOf(s: string)
    requires s == WordyStem
    ensures RunEnd(s, 4, IsSep) == 5 && RunEnd(s, 11, IsSep) == 12
    ensures RunEnd(s, 13, IsSep) == 14 && RunEnd(s, 21, IsSep) == 22
  {
    WordyRunStops(s);
  }

  lemma WordyRunStops(s: string)
    requires s == WordyStem
    ensures RunEnd(s, 5, IsSep) == 5 && RunEnd(s, 12, IsSep) == 12
    ensures RunEnd(s, 14, IsSep) == 14 && RunEnd(s, 22, IsSep) == 22
  {
    assert s[5] == 'S' && s[12] == '2' && s[14] == 'E' && s[22] == '3';
    RunStops(s, 5, IsSep);
    RunStops(s, 12, IsSep);
    RunStops(s, 14, IsSep);
    RunStops(s, 22, IsSep);
  }

  /** After the first space comes `S`, then a letter: neither `S\d` nor
      `\d` follows. */
  lemma WordyNotEarlierAt4(p: Pattern)
    requires p != SeasonEpisode
    ensures Attempt(p, WordyStem, 4).None?
  {
    WordyRuns();
    assert Digits2End(WordyStem, 6) == 6 && Digits2End(WordyStem, 5) == 5;
  }

  /** After the second space comes "2" and then a space, not `x`. */
  lemma WordyNotEarlierAt11(p: Pattern)
    requires p != SeasonEpisode
    ensures Attempt(p, WordyStem, 11).None?
  {
    WordyRuns();
    if p == SxxExx {
      assert WordyStem[12] == '2';
    } else {
      WordyNoCrossAt11(WordyStem);
    }
  }

  lemma WordyNoCrossAt11(s: string)
    requires s == WordyStem && RunEnd(s, 11, IsSep) == 12
    ensures AttemptNxN(s, 11).None?
  {
    assert s[12] == '2' && s[13] == ' ';
    assert Digits2End(s, 12) == 13;
  }

  /** After the third space comes `E`, neither `S` nor a digit. */
  lemma WordyNotEarlierAt13(p: Pattern)
    requires p != SeasonEpisode
    ensures Attempt(p, WordyStem, 13).None?
  {
    WordyRuns();
    assert Digits2End(WordyStem, 14) == 14;
  }

  /** After the last space comes "3" and the end of the text. */
  lemma WordyNotEarlierAt21(p: Pattern)
    requires p != SeasonEpisode
    ensures Attempt(p, WordyStem, 21).None?
  {
    WordyRuns();
    assert Digits2End(WordyStem, 22) == 23;
  }

  /** Neither of the first two patterns fits at any title length. */
  lemma WordyNotEarlierAt(p: Pattern, j: nat)
    requires p != SeasonEpisode && 1 <= j <= |WordyStem|
    ensures Attempt(p, WordyStem, j).None?
  {
    if j == 4 {
      WordyNotEarlierAt4(p);
    } else if j == 11 {
      WordyNotEarlierAt11(p);
    } else if j == 13 {
      WordyNotEarlierAt13(p);
    } else if j == 21 {
      WordyNotEarlierAt21(p);
    } else if j < |WordyStem| {
      WordySeparators(j);
      NoSeparatorAt(p, WordyStem, j);
    }
  }

  lemma WordyNotEarlier()
    ensures Match(SxxExx, WordyStem).None? && Match(NxN, WordyStem).None?
  {
    forall p, k | p != SeasonEpisode && 1 <= k <= |WordyStem|
      ensures Attempt(p, WordyStem, k).None?
    {
      WordyNotEarlierAt(p, k);
    }
    NoMatchAnywhere(SxxExx, WordyStem);
    NoMatchAnywhere(NxN, WordyStem);
  }

  lemma WordyWords(s: string)
    requires s == WordyStem
    ensures WordAt(s, "season", 5) && WordAt(s, "episode", 14)
  {
    var l := LowerStr(s);
    assert l[5] == 's' && l[6] == 'e' && l[7] == 'a' && l[8] == 's' && l[9] == 'o' && l[10] == 'n';
    assert l[5..11] == "season";
    assert l[14] == 'e' && l[15] == 'p' && l[16] == 'i' && l[17] == 's' && l[18] == 'o' && l[19] == 'd';
    assert l[20] == 'e';
    assert l[14..21] == "episode";
  }

  lemma WordyScan()
    ensures RunEnd(WordyStem, 11, IsSpace) == 12 && Digits2End(WordyStem, 12) == 13
    ensures RunEnd(WordyStem, 21, IsSpace) == 22 && Digits2End(WordyStem, 22) == 23
  {
    assert RunEnd(WordyStem, 12, IsSpace) == 12 && RunEnd(WordyStem, 22, IsSpace) == 22;
  }

  lemma WordyHead(s: string)
    requires s == WordyStem
    ensures s[..4] == "Show" && '\n' !in s[..4]
    ensures s[12..13] == "2" && s[22..23] == "3"
    ensures TailOk(s, 23) && TailText(s, 23) == ""
  {
    assert s[12] == '2' && s[22] == '3';
  }

  lemma WordyAttempt()
    ensures AttemptSeasonEpisode(WordyStem, 4) == Some(WordyCaptures)
  {
    var s := WordyStem;
    WordyRuns();
    WordyScan();
    WordyWords(s);
    WordyHead(s);
  }

  lemma WordyNoShorterTitle()
    ensures forall j: nat :: j < 4 ==> !MatchesWith(SeasonEpisode, WordyStem, j)
  {
    forall j: nat | 1 <= j < 4
      ensures Attempt(SeasonEpisode, WordyStem, j).None?
    {
      WordySeparators(j);
      NoSeparatorAt(SeasonEpisode, WordyStem, j);
    }
  }

  lemma WordyMatch()
    ensures Match(SeasonEpisode, WordyStem) == Some(WordyCaptures)
  {
    var s := WordyStem;
    WordyNoShorterTitle();
    WordyAttempt();
    WordyHead(s);
    ShortestTitleWins(SeasonEpisode, s, 4);
  }

  lemma WordyFields()
    ensures WellCaptured(WordyCaptures)
    ensures FromCaptures(WordyCaptures, false) == EpisodeInfo(Some(2), Some(3), [3], Some("Show"), None, false)
  {
    WordyMatch();
    SingleEpisodeRecord(WordyCaptures, false);
    ShowShowTitle();
    assert Number("2") == 2 && Number("3") == 3;
  }

  /** `Show Season 2 Episode 3.mkv` is season 2, episode 3 of "Show": only
      the third pattern, with its words, fits. */
  lemma WordyInfo()
    ensures EpisodeInfoOf(WordyFile) == EpisodeInfo(Some(2), Some(3), [3], Some("Show"), None, false)
  {
    WordyStemOf();
    WordyNotEarlier();
    WordyMatch();
    ThirdPatternInfo(WordyFile, WordyCaptures);
    WordyFields();
  }
}
