/** Filename-based quality scoring (`get_quality_score`): five independent
    categories, each an if/elif chain of substring tests on the lower-cased
    name; the first branch that fires in a category adds its weight, sets the
    category's label and appends one line to `details`. */
module Quality {
  import opened Text

  /** What the branch of an if/elif chain that fires contributes: the
      category's label, the points added to the score and the line appended
      to `details`. */
  datatype Rule = Rule(name: string, weight: nat, detail: string)

  /** The dictionary `get_quality_score` returns. */
  datatype QualityScore = QualityScore(
    score: nat,
    resolution: string,
    codec: string,
    source: string,
    audio: string,
    hdr: bool,
    details: seq<string>)

  const Unknown: string := "Unknown"

  /** The result for a name in which no chain fires. */
  const Unrated: QualityScore := QualityScore(0, Unknown, Unknown, Unknown, Unknown, false, [])

  const Res2160: Rule := Rule("2160p", 100, "4K/2160p (+100)")
  const Res1080: Rule := Rule("1080p", 80, "1080p (+80)")
  const Res720: Rule := Rule("720p", 60, "720p (+60)")
  const Res480: Rule := Rule("480p", 40, "480p (+40)")

  const SrcBluRay: Rule := Rule("BluRay", 30, "BluRay (+30)")
  const SrcWebDl: Rule := Rule("WEB-DL", 25, "WEB-DL (+25)")
  const SrcWebRip: Rule := Rule("WEBRip", 20, "WEBRip (+20)")
  const SrcHdtv: Rule := Rule("HDTV", 15, "HDTV (+15)")
  const SrcDvdRip: Rule := Rule("DVDRip", 10, "DVDRip (+10)")

  const CodecHevc: Rule := Rule("HEVC/x265", 20, "HEVC/x265 (+20)")
  const CodecX264: Rule := Rule("x264", 15, "x264 (+15)")
  const CodecXvid: Rule := Rule("XviD", 5, "XviD (+5)")

  const AudioAtmos: Rule := Rule("Atmos", 15, "Atmos (+15)")
  const AudioTrueHd: Rule := Rule("TrueHD", 12, "TrueHD (+12)")
  const AudioDtsHd: Rule := Rule("DTS-HD", 10, "DTS-HD (+10)")
  const AudioDts: Rule := Rule("DTS", 8, "DTS (+8)")
  const AudioAc3: Rule := Rule("AC3", 5, "AC3 (+5)")
  const AudioAac: Rule := Rule("AAC", 3, "AAC (+3)")

  // The HDR chain sets no label, only the `hdr` flag.
  const HdrPlus: Rule := Rule("HDR10+", 15, "HDR10+ (+15)")
  const HdrDolbyVision: Rule := Rule("Dolby Vision", 15, "Dolby Vision (+15)")
  const Hdr10: Rule := Rule("HDR10", 12, "HDR10 (+12)")
  const HdrGeneric: Rule := Rule("HDR", 10, "HDR (+10)")

  /** The substrings each chain tests for, and all of them. */
  const ResolutionTokens: seq<string> := ["2160p", "4k", "uhd", "1080p", "720p", "480p", "dvd"]
  const SourceTokens: seq<string> := ["bluray", "blu-ray", "bdrip", "brrip", "web-dl", "webdl", "webrip", "hdtv", "dvdrip"]
  const CodecTokens: seq<string> := ["x265", "h265", "h.265", "hevc", "x264", "h264", "h.264", "avc", "xvid", "divx"]
  const AudioTokens: seq<string> := ["atmos", "truehd", "dts-hd", "dtshd", "dts", "ac3", "dd5.1", "dd5 1", "aac"]
  const HdrTokens: seq<string> := ["hdr10+", "hdr10plus", "dolby vision", "dolbyvision", "dovi", " dv ", "hdr10", "hdr"]
  const Tokens: seq<string> := ResolutionTokens + SourceTokens + CodecTokens + AudioTokens + HdrTokens

  /** None of `tokens` occurs in `lower`. */
  predicate NoneOccurs(lower: string, tokens: seq<string>) {
    forall t :: t in tokens ==> !Contains(lower, t)
  }

  /** The largest score the five chains can add up to. */
  const MaxScore: nat := 100 + 30 + 20 + 15 + 15

  function Contribution(h: Option<Rule>): nat {
    if h.Some? then h.value.weight else 0
  }

  function LabelOf(h: Option<Rule>): string {
    if h.Some? then h.value.name else Unknown
  }

  /** The line a chain appends to `details`: the detail of the branch that
      fired, or nothing. */
  function LineOf(h: Option<Rule>): seq<string> {
    if h.Some? then [h.value.detail] else []
  }

  /** The branch each category's if/elif chain takes, with the tests written
      as the source writes them. */
  function ResolutionHit(lower: string): (r: Option<Rule>)
    ensures r.None? || 0 < r.value.weight <= 100
    ensures r.None? <==> NoneOccurs(lower, ResolutionTokens)
  {
    if Contains(lower, "2160p") || Contains(lower, "4k") || Contains(lower, "uhd") then Some(Res2160)
    else if Contains(lower, "1080p") then Some(Res1080)
    else if Contains(lower, "720p") then Some(Res720)
    else if Contains(lower, "480p") || Contains(lower, "dvd") then Some(Res480)
    else None
  }

  function SourceHit(lower: string): (r: Option<Rule>)
    ensures r.None? || 0 < r.value.weight <= 30
    ensures r.None? <==> NoneOccurs(lower, SourceTokens)
  {
    if Contains(lower, "bluray") || Contains(lower, "blu-ray") || Contains(lower, "bdrip") || Contains(lower, "brrip") then Some(SrcBluRay)
    else if Contains(lower, "web-dl") || Contains(lower, "webdl") then Some(SrcWebDl)
    else if Contains(lower, "webrip") then Some(SrcWebRip)
    else if Contains(lower, "hdtv") then Some(SrcHdtv)
    else if Contains(lower, "dvdrip") then Some(SrcDvdRip)
    else None
  }

  function CodecHit(lower: string): (r: Option<Rule>)
    ensures r.None? || 0 < r.value.weight <= 20
    ensures r.None? <==> NoneOccurs(lower, CodecTokens)
  {
    if Contains(lower, "x265") || Contains(lower, "h265") || Contains(lower, "h.265") || Contains(lower, "hevc") then Some(CodecHevc)
    else if Contains(lower, "x264") || Contains(lower, "h264") || Contains(lower, "h.264") || Contains(lower, "avc") then Some(CodecX264)
    else if Contains(lower, "xvid") || Contains(lower, "divx") then Some(CodecXvid)
    else None
  }

  function AudioHit(lower: string): (r: Option<Rule>)
    ensures r.None? || 0 < r.value.weight <= 15
    ensures r.None? <==> NoneOccurs(lower, AudioTokens)
  {
    if Contains(lower, "atmos") then Some(AudioAtmos)
    else if Contains(lower, "truehd") then Some(AudioTrueHd)
    else if Contains(lower, "dts-hd") || Contains(lower, "dtshd") then Some(AudioDtsHd)
    else if Contains(lower, "dts") then Some(AudioDts)
    else if Contains(lower, "ac3") || Contains(lower, "dd5.1") || Contains(lower, "dd5 1") then Some(AudioAc3)
    else if Contains(lower, "aac") then Some(AudioAac)
    else None
  }

  function HdrHit(lower: string): (r: Option<Rule>)
    ensures r.None? || 0 < r.value.weight <= 15
    ensures r.None? <==> NoneOccurs(lower, HdrTokens)
  {
    if Contains(lower, "hdr10+") || Contains(lower, "hdr10plus") then Some(HdrPlus)
    else if Contains(lower, "dolby vision") || Contains(lower, "dolbyvision") || Contains(lower, "dovi") || Contains(lower, " dv ") then Some(HdrDolbyVision)
    else if Contains(lower, "hdr10") then Some(Hdr10)
    else if Contains(lower, "hdr") then Some(HdrGeneric)
    else None
  }

  /** The five category outcomes in the order the source evaluates them. */
  function Hits(lower: string): seq<Option<Rule>> {
    [ResolutionHit(lower), SourceHit(lower), CodecHit(lower), AudioHit(lower), HdrHit(lower)]
  }

  /** What `get_quality_score` returns, assembled from the five chains. */
  function QualityOf(filename: string): QualityScore {
    var lower := LowerStr(filename);
    var res := ResolutionHit(lower);
    var src := SourceHit(lower);
    var codec := CodecHit(lower);
    var audio := AudioHit(lower);
    var hdr := HdrHit(lower);
    QualityScore(
      Contribution(res) + Contribution(src) + Contribution(codec) + Contribution(audio) + Contribution(hdr),
      LabelOf(res), LabelOf(codec), LabelOf(src), LabelOf(audio),
      hdr.Some?,
      LineOf(res) + LineOf(src) + LineOf(codec) + LineOf(audio) + LineOf(hdr))
  }

  /** Number of categories in which some branch fired. */
  function Contributing(hs: seq<Option<Rule>>): (n: nat)
    ensures n <= |hs|
  {
    if hs == [] then 0 else (if hs[0].Some? then 1 else 0) + Contributing(hs[1..])
  }

  /** The resolution block of `get_quality_score`: the first branch whose
      substring occurs sets the label, adds its points and appends its line. */
  method ScoreResolution(lower: string, score: nat, details: seq<string>)
    returns (resolution: string, score': nat, details': seq<string>)
    ensures resolution == LabelOf(ResolutionHit(lower))
    ensures score' == score + Contribution(ResolutionHit(lower))
    ensures details' == details + LineOf(ResolutionHit(lower))
  {
    resolution, score', details' := Unknown, score, details;
    if Contains(lower, "2160p") || Contains(lower, "4k") || Contains(lower, "uhd") {
      resolution, score', details' := "2160p", score + 100, details + ["4K/2160p (+100)"];
    } else if Contains(lower, "1080p") {
      resolution, score', details' := "1080p", score + 80, details + ["1080p (+80)"];
    } else if Contains(lower, "720p") {
      resolution, score', details' := "720p", score + 60, details + ["720p (+60)"];
    } else if Contains(lower, "480p") || Contains(lower, "dvd") {
      resolution, score', details' := "480p", score + 40, details + ["480p (+40)"];
    }
  }

  /** The source block of `get_quality_score`. */
  method ScoreSource(lower: string, score: nat, details: seq<string>)
    returns (source: string, score': nat, details': seq<string>)
    ensures source == LabelOf(SourceHit(lower))
    ensures score' == score + Contribution(SourceHit(lower))
    ensures details' == details + LineOf(SourceHit(lower))
  {
    source, score', details' := Unknown, score, details;
    if Contains(lower, "bluray") || Contains(lower, "blu-ray") || Contains(lower, "bdrip") || Contains(lower, "brrip") {
      source, score', details' := "BluRay", score + 30, details + ["BluRay (+30)"];
    } else if Contains(lower, "web-dl") || Contains(lower, "webdl") {
      source, score', details' := "WEB-DL", score + 25, details + ["WEB-DL (+25)"];
    } else if Contains(lower, "webrip") {
      source, score', details' := "WEBRip", score + 20, details + ["WEBRip (+20)"];
    } else if Contains(lower, "hdtv") {
      source, score', details' := "HDTV", score + 15, details + ["HDTV (+15)"];
    } else if Contains(lower, "dvdrip") {
      source, score', details' := "DVDRip", score + 10, details + ["DVDRip (+10)"];
    }
  }

  /** The codec block of `get_quality_score`. */
  method ScoreCodec(lower: string, score: nat, details: seq<string>)
    returns (codec: string, score': nat, details': seq<string>)
    ensures codec == LabelOf(CodecHit(lower))
    ensures score' == score + Contribution(CodecHit(lower))
    ensures details' == details + LineOf(CodecHit(lower))
  {
    codec, score', details' := Unknown, score, details;
    if Contains(lower, "x265") || Contains(lower, "h265") || Contains(lower, "h.265") || Contains(lower, "hevc") {
      codec, score', details' := "HEVC/x265", score + 20, details + ["HEVC/x265 (+20)"];
    } else if Contains(lower, "x264") || Contains(lower, "h264") || Contains(lower, "h.264") || Contains(lower, "avc") {
      codec, score', details' := "x264", score + 15, details + ["x264 (+15)"];
    } else if Contains(lower, "xvid") || Contains(lower, "divx") {
      codec, score', details' := "XviD", score + 5, details + ["XviD (+5)"];
    }
  }

  /** The audio block of `get_quality_score`. */
  method ScoreAudio(lower: string, score: nat, details: seq<string>)
    returns (audio: string, score': nat, details': seq<string>)
    ensures audio == LabelOf(AudioHit(lower))
    ensures score' == score + Contribution(AudioHit(lower))
    ensures details' == details + LineOf(AudioHit(lower))
  {
    audio, score', details' := Unknown, score, details;
    if Contains(lower, "atmos") {
      audio, score', details' := "Atmos", score + 15, details + ["Atmos (+15)"];
    } else if Contains(lower, "truehd") {
      audio, score', details' := "TrueHD", score + 12, details + ["TrueHD (+12)"];
    } else if Contains(lower, "dts-hd") || Contains(lower, "dtshd") {
      audio, score', details' := "DTS-HD", score + 10, details + ["DTS-HD (+10)"];
    } else if Contains(lower, "dts") {
      audio, score', details' := "DTS", score + 8, details + ["DTS (+8)"];
    } else if Contains(lower, "ac3") || Contains(lower, "dd5.1") || Contains(lower, "dd5 1") {
      audio, score', details' := "AC3", score + 5, details + ["AC3 (+5)"];
    } else if Contains(lower, "aac") {
      audio, score', details' := "AAC", score + 3, details + ["AAC (+3)"];
    }
  }

  /** The HDR block of `get_quality_score`: it sets only the flag. */
  method ScoreHdr(lower: string, score: nat, details: seq<string>)
    returns (hdr: bool, score': nat, details': seq<string>)
    ensures hdr == HdrHit(lower).Some?
    ensures score' == score + Contribution(HdrHit(lower))
    ensures details' == details + LineOf(HdrHit(lower))
  {
    hdr, score', details' := false, score, details;
    if Contains(lower, "hdr10+") || Contains(lower, "hdr10plus") {
      hdr, score', details' := true, score + 15, details + ["HDR10+ (+15)"];
    } else if Contains(lower, "dolby vision") || Contains(lower, "dolbyvision") || Contains(lower, "dovi") || Contains(lower, " dv ") {
      hdr, score', details' := true, score + 15, details + ["Dolby Vision (+15)"];
    } else if Contains(lower, "hdr10") {
      hdr, score', details' := true, score + 12, details + ["HDR10 (+12)"];
    } else if Contains(lower, "hdr") {
      hdr, score', details' := true, score + 10, details + ["HDR (+10)"];
    }
  }

  /** `get_quality_score`: the score and `details` start empty and the five
      blocks, in the source's order, add to them. */
  method GetQualityScore(filename: string) returns (quality: QualityScore)
    ensures quality == QualityOf(filename)
  {
    var lower := LowerStr(filename);
    var score: nat, details: seq<string> := 0, [];
    var resolution, source, codec, audio: string;
    var hdr: bool;
    resolution, score, details := ScoreResolution(lower, score, details);
    assert [] + LineOf(ResolutionHit(lower)) == LineOf(ResolutionHit(lower));
    source, score, details := ScoreSource(lower, score, details);
    codec, score, details := ScoreCodec(lower, score, details);
    audio, score, details := ScoreAudio(lower, score, details);
    hdr, score, details := ScoreHdr(lower, score, details);
    quality := QualityScore(score, resolution, codec, source, audio, hdr, details);
  }

  /** The total of the weights of the branches that fired, category by category. */
  function Total(hs: seq<Option<Rule>>): nat {
    if hs == [] then 0 else Contribution(hs[0]) + Total(hs[1..])
  }

  /** The detail lines of the branches that fired, in category order. */
  function Lines(hs: seq<Option<Rule>>): seq<string> {
    if hs == [] then [] else LineOf(hs[0]) + Lines(hs[1..])
  }

  lemma LinesLength(hs: seq<Option<Rule>>)
    ensures |Lines(hs)| == Contributing(hs) <= |hs|
  {
    if hs != [] {
      LinesLength(hs[1..]);
    }
  }

  /** Adding one more category at the end adds its weight, its line and its
      count. */
  lemma {:induction false} Snoc(hs: seq<Option<Rule>>, h: Option<Rule>)
    ensures Total(hs + [h]) == Total(hs) + Contribution(h)
    ensures Lines(hs + [h]) == Lines(hs) + LineOf(h)
    ensures Contributing(hs + [h]) == Contributing(hs) + (if h.Some? then 1 else 0)
  {
    if hs == [] {
      assert [] + [h] == [h];
      assert [h][1..] == [];
    } else {
      assert (hs + [h])[1..] == hs[1..] + [h];
      Snoc(hs[1..], h);
    }
  }

  /** `[a, b, c, d, e]` built up one category at a time. */
  lemma BuildFive(a: Option<Rule>, b: Option<Rule>, c: Option<Rule>, d: Option<Rule>, e: Option<Rule>)
    ensures [] + [a] == [a]
    ensures [a] + [b] == [a, b]
    ensures [a, b] + [c] == [a, b, c]
    ensures [a, b, c] + [d] == [a, b, c, d]
    ensures [a, b, c, d] + [e] == [a, b, c, d, e]
  {
  }

  lemma TotalFive(a: Option<Rule>, b: Option<Rule>, c: Option<Rule>, d: Option<Rule>, e: Option<Rule>)
    ensures Total([a, b, c, d, e]) == Contribution(a) + Contribution(b) + Contribution(c) + Contribution(d) + Contribution(e)
  {
    BuildFive(a, b, c, d, e);
    Snoc([], a);
    Snoc([a], b);
    Snoc([a, b], c);
    Snoc([a, b, c], d);
    Snoc([a, b, c, d], e);
  }

  lemma LinesFive(a: Option<Rule>, b: Option<Rule>, c: Option<Rule>, d: Option<Rule>, e: Option<Rule>)
    ensures Lines([a, b, c, d, e]) == LineOf(a) + LineOf(b) + LineOf(c) + LineOf(d) + LineOf(e)
  {
    BuildFive(a, b, c, d, e);
    Snoc([], a);
    assert Lines([a]) == LineOf(a);
    Snoc([a], b);
    Snoc([a, b], c);
    Snoc([a, b, c], d);
    Snoc([a, b, c, d], e);
  }

  /** The score is the sum of the weights of the branches that fired and
      `details` holds one line per category that fired, in the order
      resolution, source, codec, audio, HDR; so the score never exceeds
      `MaxScore` and there are at most five lines. */
  lemma ScoreAndDetails(filename: string)
    ensures var q, hs := QualityOf(filename), Hits(LowerStr(filename));
      && q.score == Total(hs) <= MaxScore
      && q.details == Lines(hs)
      && |q.details| == Contributing(hs) <= 5
  {
    var lower := LowerStr(filename);
    TotalFive(ResolutionHit(lower), SourceHit(lower), CodecHit(lower), AudioHit(lower), HdrHit(lower));
    LinesFive(ResolutionHit(lower), SourceHit(lower), CodecHit(lower), AudioHit(lower), HdrHit(lower));
    LinesLength(Hits(lower));
  }

  /** Each chain lists its branches from the highest weight down, so a
      branch that fires can only be overtaken by one that weighs at least as
      much: a name containing every token of the chain that another
      contains gets at least as much from that chain. Each proof follows
      the chain token by token: the first token `l1` contains, `l2`
      contains too. */
  lemma ResolutionMonotone(l1: string, l2: string)
    requires Covers(l1, l2, ResolutionTokens)
    ensures Contribution(ResolutionHit(l1)) <= Contribution(ResolutionHit(l2))
  {

  }

  lemma SourceMonotone(l1: string, l2: string)
    requires Covers(l1, l2, SourceTokens)
    ensures Contribution(SourceHit(l1)) <= Contribution(SourceHit(l2))
  {

  }

  lemma CodecMonotone(l1: string, l2: string)
    requires Covers(l1, l2, CodecTokens)
    ensures Contribution(CodecHit(l1)) <= Contribution(CodecHit(l2))
  {

  }

  lemma AudioMonotone(l1: string, l2: string)
    requires Covers(l1, l2, AudioTokens)
    ensures Contribution(AudioHit(l1)) <= Contribution(AudioHit(l2))
  {

  }

  lemma HdrMonotone(l1: string, l2: string)
    requires Covers(l1, l2, HdrTokens)
    ensures Contribution(HdrHit(l1)) <= Contribution(HdrHit(l2))
  {

  }

  /** Every token of `ts` that occurs in `l1` occurs in `l2`. */
  predicate Covers(l1: string, l2: string, ts: seq<string>) {
    forall t :: t in ts && Contains(l1, t) ==> Contains(l2, t)
  }

  lemma CoversParts(l1: string, l2: string)
    requires Covers(l1, l2, Tokens)
    ensures Covers(l1, l2, ResolutionTokens) && Covers(l1, l2, SourceTokens) && Covers(l1, l2, CodecTokens)
    ensures Covers(l1, l2, AudioTokens) && Covers(l1, l2, HdrTokens)
  {
    assert forall t :: t in ResolutionTokens ==> t in Tokens;
    assert forall t :: t in SourceTokens ==> t in Tokens;
    assert forall t :: t in CodecTokens ==> t in Tokens;
    assert forall t :: t in AudioTokens ==> t in Tokens;
    assert forall t :: t in HdrTokens ==> t in Tokens;
  }

  /** The score depends on the name only through the tested tokens it
      contains: a name whose lower-cased form contains every tested token
      another's contains scores at least as much. */
  lemma ScoreMonotone(f: string, g: string)
    requires Covers(LowerStr(f), LowerStr(g), Tokens)
    ensures QualityOf(f).score <= QualityOf(g).score
  {
    var l1, l2 := LowerStr(f), LowerStr(g);
    CoversParts(l1, l2);
    ResolutionMonotone(l1, l2);
    SourceMonotone(l1, l2);
    CodecMonotone(l1, l2);
    AudioMonotone(l1, l2);
    HdrMonotone(l1, l2);
  }

  /** The resolution chain's precedence: a "2160p", "4k" or "uhd" name is
      rated 2160p whatever else it contains, "1080p" wins over "720p", which
      wins over "480p" and "dvd", and the weights fall in that order. */
  lemma ResolutionPrecedence(lower: string)
    ensures var uhd := Contains(lower, "2160p") || Contains(lower, "4k") || Contains(lower, "uhd");
      && (uhd ==> ResolutionHit(lower) == Some(Res2160))
      && (!uhd && Contains(lower, "1080p") ==> ResolutionHit(lower) == Some(Res1080))
      && (!uhd && !Contains(lower, "1080p") && Contains(lower, "720p") ==> ResolutionHit(lower) == Some(Res720))
      && ((!uhd && !Contains(lower, "1080p") && !Contains(lower, "720p")
           && (Contains(lower, "480p") || Contains(lower, "dvd"))) ==> ResolutionHit(lower) == Some(Res480))
    ensures Contains(lower, "1080p") ==> Contribution(ResolutionHit(lower)) >= Res1080.weight
    ensures Contains(lower, "720p") ==> Contribution(ResolutionHit(lower)) >= Res720.weight
    ensures Contains(lower, "480p") || Contains(lower, "dvd") ==> Contribution(ResolutionHit(lower)) >= Res480.weight
    ensures Res2160.weight > Res1080.weight > Res720.weight > Res480.weight > 0
  {
  }

  /** The HDR chain's precedence: HDR10+ is tested before Dolby Vision,
      Dolby Vision before HDR10 and HDR10 before plain HDR. */
  lemma HdrPrecedence(lower: string)
    ensures var plus := Contains(lower, "hdr10+") || Contains(lower, "hdr10plus");
      var dv := Contains(lower, "dolby vision") || Contains(lower, "dolbyvision")
                || Contains(lower, "dovi") || Contains(lower, " dv ");
      && (plus ==> HdrHit(lower) == Some(HdrPlus))
      && (!plus && dv ==> HdrHit(lower) == Some(HdrDolbyVision))
      && (!plus && !dv && Contains(lower, "hdr10") ==> HdrHit(lower) == Some(Hdr10))
      && (!plus && !dv && !Contains(lower, "hdr10") && Contains(lower, "hdr") ==> HdrHit(lower) == Some(HdrGeneric))
    ensures HdrPlus.weight == HdrDolbyVision.weight > Hdr10.weight > HdrGeneric.weight > 0
  {
  }

  /** Between names that agree on source, codec, audio and HDR, the scores
      differ exactly by the resolution weights, so the better-rated
      resolution scores higher. */
  lemma ResolutionDecides(f: string, g: string)
    requires var lf, lg := LowerStr(f), LowerStr(g);
      && SourceHit(lf) == SourceHit(lg) && CodecHit(lf) == CodecHit(lg)
      && AudioHit(lf) == AudioHit(lg) && HdrHit(lf) == HdrHit(lg)
    ensures QualityOf(f).score + Contribution(ResolutionHit(LowerStr(g)))
         == QualityOf(g).score + Contribution(ResolutionHit(LowerStr(f)))
    ensures Contribution(ResolutionHit(LowerStr(f))) > Contribution(ResolutionHit(LowerStr(g)))
         ==> QualityOf(f).score > QualityOf(g).score
  {
  }

  /** Adding text around a name (more release tags, say) never lowers its
      score. */
  lemma ScoreGrowsWithName(f: string, g: string)
    requires IsInfix(f, g)
    ensures QualityOf(f).score <= QualityOf(g).score
  {
    LowerInfix(f, g);
    forall t | t in Tokens && Contains(LowerStr(f), t)
      ensures Contains(LowerStr(g), t)
    {
      ContainsInfix(LowerStr(f), LowerStr(g), t);
    }
    ScoreMonotone(f, g);
  }

  /** The HDR flag is set exactly when "hdr" or one of the Dolby Vision
      spellings occurs: every HDR10 spelling contains "hdr". */
  lemma HdrFlag(filename: string)
    ensures var lower := LowerStr(filename);
      QualityOf(filename).hdr <==>
        Contains(lower, "hdr") || Contains(lower, "dolby vision") || Contains(lower, "dolbyvision")
        || Contains(lower, "dovi") || Contains(lower, " dv ")
  {
    var lower := LowerStr(filename);
    assert OccursAt("hdr10+", "hdr", 0);
    assert OccursAt("hdr10plus", "hdr", 0);
    assert OccursAt("hdr10", "hdr", 0);
    if Contains(lower, "hdr10+") {
      ContainsWithin(lower, "hdr10+", "hdr");
    }
    if Contains(lower, "hdr10plus") {
      ContainsWithin(lower, "hdr10plus", "hdr");
    }
    if Contains(lower, "hdr10") {
      ContainsWithin(lower, "hdr10", "hdr");
    }
  }

  lemma NoneOccursAppend(lower: string, a: seq<string>, b: seq<string>)
    ensures NoneOccurs(lower, a + b) <==> NoneOccurs(lower, a) && NoneOccurs(lower, b)
  {
    assert forall t :: t in a + b <==> t in a || t in b;
  }

  /** Nothing is recognised exactly when none of the tested substrings occurs. */
  lemma UnratedExactly(filename: string)
    ensures QualityOf(filename) == Unrated <==> NoneOccurs(LowerStr(filename), Tokens)
  {
    var lower := LowerStr(filename);
    NoneOccursAppend(lower, ResolutionTokens, SourceTokens);
    NoneOccursAppend(lower, ResolutionTokens + SourceTokens, CodecTokens);
    NoneOccursAppend(lower, ResolutionTokens + SourceTokens + CodecTokens, AudioTokens);
    NoneOccursAppend(lower, ResolutionTokens + SourceTokens + CodecTokens + AudioTokens, HdrTokens);
  }

  /** Only the lower-cased name matters. */
  lemma CaseInsensitive(filename: string)
    ensures QualityOf(LowerStr(filename)) == QualityOf(filename)
  {
    assert LowerStr(LowerStr(filename)) == LowerStr(filename);
  }
}
