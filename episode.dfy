/** Season/episode parsing (`get_episode_info`): three regular expressions
    tried in order on the file's stem, each written out here as a matcher
    that follows the regular-expression engine's choices. */
module Episode {
  import opened Text

  /** The separator class `[.\s_-]`. */
  predicate IsSep(c: char) {
    c == '.' || IsSpace(c) || c == '_' || c == '-'
  }

  /** The end of a greedy `\d{1,2}` tried at `i` (equal to `i` when no digit
      is there). */
  function Digits2End(s: string, i: nat): (r: nat)
    requires i <= |s|
    ensures i <= r <= i + 2 && r <= |s|
    ensures forall k :: i <= k < r ==> IsDigit(s[k])
    ensures r < i + 2 && r < |s| ==> !IsDigit(s[r])
  {
    if i < |s| && IsDigit(s[i]) then
      if i + 1 < |s| && IsDigit(s[i + 1]) then i + 2 else i + 1
    else i
  }

  /** One or two ASCII digits: what a `(\d{1,2})` group captures. */
  predicate IsNumeral(ds: string) {
    1 <= |ds| <= 2 && forall k :: 0 <= k < |ds| ==> IsDigit(ds[k])
  }

  /** A non-empty run found by `Digits2End` is a numeral. */
  lemma NumeralAt(s: string, i: nat)
    requires i <= |s| && i < Digits2End(s, i)
    ensures IsNumeral(s[i..Digits2End(s, i)])
  {
  }

  function DigitValue(c: char): nat
    requires IsDigit(c)
  {
    c as int - '0' as int
  }

  /** Python's `int(ds)` on a numeral. */
  function Number(ds: string): (n: nat)
    requires IsNumeral(ds)
    ensures n <= 99
    ensures |ds| == 1 ==> n <= 9
  {
    if |ds| == 1 then DigitValue(ds[0]) else 10 * DigitValue(ds[0]) + DigitValue(ds[1])
  }

  /** The three patterns, in the order they are tried. */
  datatype Pattern =
    | SxxExx         // `^(.+?)[.\s_-]+[Ss](\d{1,2})[Ee](\d{1,2})(?:[Ee-](\d{1,2}))?(?:[Ee-](\d{1,2}))?(.*)$`
    | NxN            // `^(.+?)[.\s_-]+(\d{1,2})x(\d{1,2})(.*)$`
    | SeasonEpisode  // `^(.+?)[.\s_-]+Season\s*(\d{1,2})[.\s_-]+Episode\s*(\d{1,2})(.*)$`, ignoring case

  /** The groups of a successful match. Only the first pattern has the two
      optional episode groups; `rest` is the last group. */
  datatype Captures = Captures(
    title: string,
    season: string,
    episode: string,
    second: Option<string>,
    third: Option<string>,
    rest: string)

  predicate WellCaptured(c: Captures) {
    && IsNumeral(c.season) && IsNumeral(c.episode)
    && (c.second.Some? ==> IsNumeral(c.second.value))
    && (c.third.Some? ==> IsNumeral(c.third.value) && c.second.Some?)
    && '\n' !in c.title && '\n' !in c.rest
  }

  /** `(?:[Ee-](\d{1,2}))?` at `p`: the digits it captures, if it matches,
      and where matching goes on. */
  function OptionalNumber(s: string, p: nat): (r: (Option<string>, nat))
    requires p <= |s|
    ensures p <= r.1 <= |s|
    ensures r.0.None? ==> r.1 == p
    ensures r.0.Some? ==> p + 2 <= r.1 && r.0.value == s[p + 1..r.1] && IsNumeral(r.0.value)
    ensures r.0.Some? ==> s[p] == 'E' || s[p] == 'e' || s[p] == '-'
    ensures OptionalAt(s, p, r.0) && r.1 == After(p, r.0)
  {
    if p < |s| && (s[p] == 'E' || s[p] == 'e' || s[p] == '-') then
      var q := Digits2End(s, p + 1);
      if q > p + 1 then (Some(s[p + 1..q]), q) else (None, p)
    else (None, p)
  }

  /** `[.\s_-]+` spans `s[i..q]`. */
  predicate SepRun(s: string, i: nat, q: nat) {
    i < q <= |s| && forall k :: i <= k < q ==> IsSep(s[k])
  }

  /** `\s*` spans `s[i..q]`. */
  predicate SpaceRun(s: string, i: nat, q: nat) {
    i <= q <= |s| && forall k :: i <= k < q ==> IsSpace(s[k])
  }

  /** Greedy `\d{1,2}` from `i` stops at `e`: it took two digits, or no
      digit follows. */
  predicate GreedyEnd(s: string, i: nat, e: nat) {
    e == i + 2 || e >= |s| || !IsDigit(s[e])
  }

  /** An optional `[Ee-](\d{1,2})` group at `p`: when it captured `o`, its
      marker stands at `p` and the greedy digits follow; when it captured
      nothing, no marker followed by a digit stands at `p`, since the group
      would have been taken. */
  predicate OptionalAt(s: string, p: nat, o: Option<string>) {
    if o.Some? then
      && p < |s| && (s[p] == 'E' || s[p] == 'e' || s[p] == '-') && OccursAt(s, o.value, p + 1)
      && GreedyEnd(s, p + 1, p + 1 + |o.value|)
    else
      !(p + 1 < |s| && (s[p] == 'E' || s[p] == 'e' || s[p] == '-') && IsDigit(s[p + 1]))
  }

  /** Where matching goes on after the optional group at `p`. */
  function After(p: nat, o: Option<string>): nat {
    if o.Some? then p + 1 + |o.value| else p
  }

  /** How the first pattern reads the text after the title `s[..i]`, with the
      separators ending at `q`: `S` or `s`, the season digits, `E` or `e`,
      the episode digits, each optional number after its marker, and the
      rest of the line as the last group. */
  predicate SxxExxLayout(s: string, i: nat, c: Captures, q: nat) {
    && SepRun(s, i, q) && q < |s| && (s[q] == 'S' || s[q] == 's')
    && OccursAt(s, c.season, q + 1)
    && var a := q + 1 + |c.season|;
    && a < |s| && (s[a] == 'E' || s[a] == 'e')
    && OccursAt(s, c.episode, a + 1)
    && var b := a + 1 + |c.episode|;
    && GreedyEnd(s, a + 1, b)
    && OptionalAt(s, b, c.second) && OptionalAt(s, After(b, c.second), c.third)
    && var d := After(After(b, c.second), c.third);
    && d <= |s| && TailOk(s, d) && c.rest == TailText(s, d)
  }

  /** The second pattern: separators ending at `q`, the season digits, `x`,
      the episode digits and the rest of the line. */
  predicate NxNLayout(s: string, i: nat, c: Captures, q: nat) {
    && SepRun(s, i, q)
    && OccursAt(s, c.season, q)
    && var a := q + |c.season|;
    && a < |s| && s[a] == 'x'
    && OccursAt(s, c.episode, a + 1)
    && var b := a + 1 + |c.episode|;
    && GreedyEnd(s, a + 1, b) && TailOk(s, b) && c.rest == TailText(s, b)
    && c.second.None? && c.third.None?
  }

  /** The third pattern: separators ending at `q`, the word "season" in any
      case, optional whitespace up to `w`, the season digits, separators
      ending at `q2`, the word "episode", optional whitespace up to `w2`, the
      episode digits and the rest of the line. */
  predicate SeasonEpisodeLayout(s: string, i: nat, c: Captures, q: nat, w: nat, q2: nat, w2: nat) {
    && SepRun(s, i, q) && WordAt(s, "season", q)
    && SpaceRun(s, q + 6, w) && OccursAt(s, c.season, w)
    && SepRun(s, w + |c.season|, q2) && WordAt(s, "episode", q2)
    && SpaceRun(s, q2 + 7, w2) && OccursAt(s, c.episode, w2)
    && var b := w2 + |c.episode|;
    && GreedyEnd(s, w2, b) && TailOk(s, b) && c.rest == TailText(s, b)
    && c.second.None? && c.third.None?
  }

  /** The captures `c` are what pattern `p` reads from `s` after the title
      `s[..i]`. */
  ghost predicate Layout(p: Pattern, s: string, i: nat, c: Captures) {
    && i <= |s| && c.title == s[..i]
    && match p
    case SxxExx => exists q :: SxxExxLayout(s, i, c, q)
    case NxN => exists q :: NxNLayout(s, i, c, q)
    case SeasonEpisode => exists q, w, q2, w2 :: SeasonEpisodeLayout(s, i, c, q, w, q2, w2)
  }

  /** The slices the first pattern captures sit where its layout says. */
  lemma SxxExxReads(s: string, i: nat, q: nat, a: nat, b: nat, second: Option<string>, c: nat,
                    third: Option<string>, d: nat)
    requires SepRun(s, i, q) && q < |s| && (s[q] == 'S' || s[q] == 's')
    requires q + 1 <= a < |s| && (s[a] == 'E' || s[a] == 'e') && a + 1 <= b <= |s| && GreedyEnd(s, a + 1, b)
    requires OptionalAt(s, b, second) && c == After(b, second)
    requires OptionalAt(s, c, third) && d == After(c, third)
    requires d <= |s| && TailOk(s, d)
    ensures SxxExxLayout(s, i, Captures(s[..i], s[q + 1..a], s[a + 1..b], second, third, TailText(s, d)), q)
  {
  }

  /** The slices the second pattern captures sit where its layout says. */
  lemma NxNReads(s: string, i: nat, q: nat, a: nat, b: nat)
    requires SepRun(s, i, q) && q <= a < |s| && s[a] == 'x' && a + 1 <= b <= |s| && TailOk(s, b)
    requires GreedyEnd(s, a + 1, b)
    ensures NxNLayout(s, i, Captures(s[..i], s[q..a], s[a + 1..b], None, None, TailText(s, b)), q)
  {
  }

  /** The slices the third pattern captures sit where its layout says. */
  lemma SeasonEpisodeReads(s: string, i: nat, q: nat, w: nat, a: nat, q2: nat, w2: nat, b: nat)
    requires SepRun(s, i, q) && WordAt(s, "season", q) && SpaceRun(s, q + 6, w) && w <= a
    requires SepRun(s, a, q2) && WordAt(s, "episode", q2) && SpaceRun(s, q2 + 7, w2)
    requires w2 <= b <= |s| && TailOk(s, b) && GreedyEnd(s, w2, b)
    ensures SeasonEpisodeLayout(s, i, Captures(s[..i], s[w..a], s[w2..b], None, None, TailText(s, b)), q, w, q2, w2)
  {
  }

  /** The match of the first pattern when the lazy title group ends at `i`.
      Once the title is fixed every later choice is forced: a shorter
      separator run leaves a separator where `S` is needed, a shorter digit
      run leaves a digit where a letter is needed, and a shorter path only
      moves the start of `(.*)$` to the left, where it fails too. */
  function AttemptSxxExx(s: string, i: nat): (r: Option<Captures>)
    requires i <= |s|
    ensures r.Some? ==> r.value.title == s[..i]
    ensures r.Some? && '\n' !in s[..i] ==> WellCaptured(r.value)
    ensures r.Some? ==> exists q :: SxxExxLayout(s, i, r.value, q)
  {
    var r := RunEnd(s, i, IsSep);
    if r == i || r == |s| || !(s[r] == 'S' || s[r] == 's') then None
    else SxxExxSeason(s, i, r)
  }

  /** The first pattern after its `S` at `r`: the season digits and `E`. */
  function SxxExxSeason(s: string, i: nat, r: nat): (res: Option<Captures>)
    requires SepRun(s, i, r) && r < |s| && (s[r] == 'S' || s[r] == 's')
    ensures res.Some? ==> res.value.title == s[..i]
    ensures res.Some? && '\n' !in s[..i] ==> WellCaptured(res.value)
    ensures res.Some? ==> SxxExxLayout(s, i, res.value, r)
  {
    var a := Digits2End(s, r + 1);
    if a == r + 1 || a == |s| || !(s[a] == 'E' || s[a] == 'e') then None
    else
      NumeralAt(s, r + 1);
      SxxExxEpisode(s, i, r, a)
  }

  /** The first pattern after its `E` at `a`: the episode digits. */
  function SxxExxEpisode(s: string, i: nat, r: nat, a: nat): (res: Option<Captures>)
    requires SepRun(s, i, r) && r < |s| && (s[r] == 'S' || s[r] == 's')
    requires r + 1 < a < |s| && (s[a] == 'E' || s[a] == 'e') && IsNumeral(s[r + 1..a])
    ensures res.Some? ==> res.value.title == s[..i]
    ensures res.Some? && '\n' !in s[..i] ==> WellCaptured(res.value)
    ensures res.Some? ==> SxxExxLayout(s, i, res.value, r)
  {
    var b := Digits2End(s, a + 1);
    if b == a + 1 then None
    else
      NumeralAt(s, a + 1);
      SxxExxOptionals(s, i, r, a, b)
  }

  /** The first pattern after its episode digits `s[a + 1..b]`: the two
      optional numbers and the end of the line. */
  function SxxExxOptionals(s: string, i: nat, r: nat, a: nat, b: nat): (res: Option<Captures>)
    requires SepRun(s, i, r) && r < |s| && (s[r] == 'S' || s[r] == 's')
    requires r + 1 < a < |s| && (s[a] == 'E' || s[a] == 'e') && a + 1 < b <= |s|
    requires IsNumeral(s[r + 1..a]) && IsNumeral(s[a + 1..b]) && GreedyEnd(s, a + 1, b)
    ensures res.Some? ==> res.value.title == s[..i]
    ensures res.Some? && '\n' !in s[..i] ==> WellCaptured(res.value)
    ensures res.Some? ==> SxxExxLayout(s, i, res.value, r)
  {
    var second := OptionalNumber(s, b);
    var third := OptionalNumber(s, second.1);
    if !TailOk(s, third.1) then None
    else
      SxxExxReads(s, i, r, a, b, second.0, second.1, third.0, third.1);
      Some(Captures(s[..i], s[r + 1..a], s[a + 1..b], second.0, third.0, TailText(s, third.1)))
  }

  function AttemptNxN(s: string, i: nat): (r: Option<Captures>)
    requires i <= |s|
    ensures r.Some? ==> r.value.title == s[..i]
    ensures r.Some? && '\n' !in s[..i] ==> WellCaptured(r.value)
    ensures r.Some? ==> r.value.second.None? && r.value.third.None?
    ensures r.Some? ==> exists q :: NxNLayout(s, i, r.value, q)
  {
    var r := RunEnd(s, i, IsSep);
    if r == i then None
    else NxNNumbers(s, i, r)
  }

  /** The second pattern after its separators `s[i..r]`. */
  function NxNNumbers(s: string, i: nat, r: nat): (res: Option<Captures>)
    requires SepRun(s, i, r)
    ensures res.Some? ==> res.value.title == s[..i]
    ensures res.Some? && '\n' !in s[..i] ==> WellCaptured(res.value)
    ensures res.Some? ==> NxNLayout(s, i, res.value, r)
  {
    var a := Digits2End(s, r);
    if a == r || a == |s| || s[a] != 'x' then None
    else
      NumeralAt(s, r);
      NxNEpisode(s, i, r, a)
  }

  /** The second pattern after its `x` at `a`. */
  function NxNEpisode(s: string, i: nat, r: nat, a: nat): (res: Option<Captures>)
    requires SepRun(s, i, r) && r < a < |s| && s[a] == 'x' && IsNumeral(s[r..a])
    ensures res.Some? ==> res.value.title == s[..i]
    ensures res.Some? && '\n' !in s[..i] ==> WellCaptured(res.value)
    ensures res.Some? ==> NxNLayout(s, i, res.value, r)
  {
    var b := Digits2End(s, a + 1);
    if b == a + 1 || !TailOk(s, b) then None
    else
      NumeralAt(s, a + 1);
      NxNReads(s, i, r, a, b);
      Some(Captures(s[..i], s[r..a], s[a + 1..b], None, None, TailText(s, b)))
  }

  /** `word` at `i`, ignoring ASCII case. */
  predicate WordAt(s: string, word: string, i: nat) {
    OccursAt(LowerStr(s), word, i)
  }

  function AttemptSeasonEpisode(s: string, i: nat): (r: Option<Captures>)
    requires i <= |s|
    ensures r.Some? ==> r.value.title == s[..i]
    ensures r.Some? && '\n' !in s[..i] ==> WellCaptured(r.value)
    ensures r.Some? ==> r.value.second.None? && r.value.third.None?
    ensures r.Some? ==> exists q, w, q2, w2 :: SeasonEpisodeLayout(s, i, r.value, q, w, q2, w2)
  {
    var r := RunEnd(s, i, IsSep);
    if r == i || !WordAt(s, "season", r) then None
    else SeasonNumber(s, i, r)
  }

  /** The third pattern after "season" at `r`: whitespace and the season
      digits. */
  function SeasonNumber(s: string, i: nat, r: nat): (res: Option<Captures>)
    requires SepRun(s, i, r) && WordAt(s, "season", r)
    ensures res.Some? ==> res.value.title == s[..i]
    ensures res.Some? && '\n' !in s[..i] ==> WellCaptured(res.value)
    ensures res.Some? ==> exists w, q2, w2 :: SeasonEpisodeLayout(s, i, res.value, r, w, q2, w2)
  {
    var w := RunEnd(s, r + 6, IsSpace);
    var a := Digits2End(s, w);
    if a == w then None
    else
      NumeralAt(s, w);
      EpisodeWord(s, i, r, w, a)
  }

  /** The third pattern after its season digits `s[w..a]`: separators and
      "episode". */
  function EpisodeWord(s: string, i: nat, r: nat, w: nat, a: nat): (res: Option<Captures>)
    requires SepRun(s, i, r) && WordAt(s, "season", r) && SpaceRun(s, r + 6, w)
    requires w < a <= |s| && IsNumeral(s[w..a])
    ensures res.Some? ==> res.value.title == s[..i]
    ensures res.Some? && '\n' !in s[..i] ==> WellCaptured(res.value)
    ensures res.Some? ==> exists q2, w2 :: SeasonEpisodeLayout(s, i, res.value, r, w, q2, w2)
  {
    var r2 := RunEnd(s, a, IsSep);
    if r2 == a || !WordAt(s, "episode", r2) then None
    else EpisodeNumber(s, i, r, w, a, r2)
  }

  /** The third pattern after "episode" at `r2`: whitespace, the episode
      digits and the end of the line. */
  function EpisodeNumber(s: string, i: nat, r: nat, w: nat, a: nat, r2: nat): (res: Option<Captures>)
    requires SepRun(s, i, r) && WordAt(s, "season", r) && SpaceRun(s, r + 6, w)
    requires w < a <= |s| && IsNumeral(s[w..a])
    requires SepRun(s, a, r2) && WordAt(s, "episode", r2)
    ensures res.Some? ==> res.value.title == s[..i]
    ensures res.Some? && '\n' !in s[..i] ==> WellCaptured(res.value)
    ensures res.Some? ==> exists w2 :: SeasonEpisodeLayout(s, i, res.value, r, w, r2, w2)
  {
    var w2 := RunEnd(s, r2 + 7, IsSpace);
    var b := Digits2End(s, w2);
    if b == w2 || !TailOk(s, b) then None
    else
      NumeralAt(s, w2);
      SeasonEpisodeReads(s, i, r, w, a, r2, w2, b);
      Some(Captures(s[..i], s[w..a], s[w2..b], None, None, TailText(s, b)))
  }

  function Attempt(p: Pattern, s: string, i: nat): (r: Option<Captures>)
    requires i <= |s|
    ensures r.Some? ==> r.value.title == s[..i]
    ensures r.Some? && '\n' !in s[..i] ==> WellCaptured(r.value)
    ensures r.Some? && p != SxxExx ==> r.value.second.None? && r.value.third.None?
    ensures r.Some? ==> Layout(p, s, i, r.value)
  {
    match p
    case SxxExx => AttemptSxxExx(s, i)
    case NxN => AttemptNxN(s, i)
    case SeasonEpisode => AttemptSeasonEpisode(s, i)
  }

  /** A numeral at `i` that the greedy run cannot extend is what
      `Digits2End` finds. */
  lemma Digits2EndUnique(s: string, i: nat, g: string)
    requires OccursAt(s, g, i) && IsNumeral(g) && GreedyEnd(s, i, i + |g|)
    ensures Digits2End(s, i) == i + |g|
  {
    assert s[i] == g[0];
    if |g| == 2 {
      assert s[i + 1] == g[1];
    }
  }

  /** An optional group laid out as `OptionalAt` says is what
      `OptionalNumber` reads. */
  lemma OptionalNumberUnique(s: string, p: nat, o: Option<string>)
    requires p <= |s| && OptionalAt(s, p, o) && (o.Some? ==> IsNumeral(o.value))
    ensures OptionalNumber(s, p) == (o, After(p, o))
  {
    if o.Some? {
      Digits2EndUnique(s, p + 1, o.value);
    }
  }

  /** The captures of a layout of the first pattern are what the attempt at
      its title length returns. */
  lemma SxxExxFromLayout(s: string, i: nat, c: Captures, q: nat)
    requires SxxExxLayout(s, i, c, q) && WellCaptured(c) && c.title == s[..i]
    ensures i <= |s| && AttemptSxxExx(s, i) == Some(c)
  {
    var a := q + 1 + |c.season|;
    var b := a + 1 + |c.episode|;
    SxxExxParts(s, i, c, q, a, b);
    SxxExxOptionalsFromLayout(s, i, c, q, a, b);
    SxxExxNumbers(s, i, q, a, b);
    SxxExxSteps(s, i, q, a, b);
  }

  /** The pieces of a layout of the first pattern, one by one. */
  lemma SxxExxParts(s: string, i: nat, c: Captures, q: nat, a: nat, b: nat)
    requires SxxExxLayout(s, i, c, q)
    requires a == q + 1 + |c.season| && b == a + 1 + |c.episode|
    ensures SepRun(s, i, q) && q < |s| && (s[q] == 'S' || s[q] == 's') && OccursAt(s, c.season, q + 1)
    ensures a < |s| && (s[a] == 'E' || s[a] == 'e') && OccursAt(s, c.episode, a + 1) && GreedyEnd(s, a + 1, b)
    ensures OptionalAt(s, b, c.second) && OptionalAt(s, After(b, c.second), c.third)
    ensures After(After(b, c.second), c.third) <= |s| && TailOk(s, After(After(b, c.second), c.third))
    ensures c.rest == TailText(s, After(After(b, c.second), c.third))
  {
  }

  /** Where the runs of the first pattern end once its pieces are known. */
  lemma SxxExxNumbers(s: string, i: nat, q: nat, a: nat, b: nat)
    requires SepRun(s, i, q) && q < |s| && (s[q] == 'S' || s[q] == 's')
    requires q + 1 < a < |s| && (s[a] == 'E' || s[a] == 'e') && a + 1 < b <= |s|
    requires IsNumeral(s[q + 1..a]) && IsNumeral(s[a + 1..b]) && GreedyEnd(s, a + 1, b)
    ensures RunEnd(s, i, IsSep) == q && Digits2End(s, q + 1) == a && Digits2End(s, a + 1) == b
  {
    RunEndUnique(s, i, IsSep, q);
    GreedyDigits(s, q + 1, s[q + 1..a], a);
    GreedyDigits(s, a + 1, s[a + 1..b], b);
  }

  /** A numeral at `i` followed by `e` that is no digit, or the greedy end
      of the run, is what `Digits2End` finds. */
  lemma GreedyDigits(s: string, i: nat, g: string, e: nat)
    requires OccursAt(s, g, i) && IsNumeral(g) && e == i + |g| && GreedyEnd(s, i, e)
    ensures Digits2End(s, i) == e
  {
    Digits2EndUnique(s, i, g);
  }

  /** The optional numbers and the tail of a layout of the first pattern are
      what `SxxExxOptionals` reads. */
  lemma SxxExxOptionalsFromLayout(s: string, i: nat, c: Captures, q: nat, a: nat, b: nat)
    requires WellCaptured(c) && a == q + 1 + |c.season| && b == a + 1 + |c.episode|
    requires SepRun(s, i, q) && q < |s| && (s[q] == 'S' || s[q] == 's') && OccursAt(s, c.season, q + 1)
    requires a < |s| && (s[a] == 'E' || s[a] == 'e') && OccursAt(s, c.episode, a + 1) && GreedyEnd(s, a + 1, b)
    requires OptionalAt(s, b, c.second) && OptionalAt(s, After(b, c.second), c.third)
    requires After(After(b, c.second), c.third) <= |s| && TailOk(s, After(After(b, c.second), c.third))
    requires c.rest == TailText(s, After(After(b, c.second), c.third)) && c.title == s[..i]
    ensures q + 1 < a < |s| && a + 1 < b <= |s|
    ensures IsNumeral(s[q + 1..a]) && IsNumeral(s[a + 1..b])
    ensures SxxExxOptionals(s, i, q, a, b) == Some(c)
  {
    assert s[q + 1..a] == c.season && s[a + 1..b] == c.episode;
    SxxExxOptionalsRead(s, i, c, q, a, b);
  }

  /** `SxxExxOptionals` reads the optional numbers and the tail where the
      layout has them. */
  lemma SxxExxOptionalsRead(s: string, i: nat, c: Captures, q: nat, a: nat, b: nat)
    requires WellCaptured(c) && SepRun(s, i, q) && q < |s| && (s[q] == 'S' || s[q] == 's')
    requires q + 1 < a < |s| && (s[a] == 'E' || s[a] == 'e') && a + 1 < b <= |s|
    requires s[q + 1..a] == c.season && s[a + 1..b] == c.episode && GreedyEnd(s, a + 1, b)
    requires OptionalAt(s, b, c.second) && OptionalAt(s, After(b, c.second), c.third)
    requires After(After(b, c.second), c.third) <= |s| && TailOk(s, After(After(b, c.second), c.third))
    requires c.rest == TailText(s, After(After(b, c.second), c.third)) && c.title == s[..i]
    ensures SxxExxOptionals(s, i, q, a, b) == Some(c)
  {
    OptionalNumberUnique(s, b, c.second);
    OptionalNumberUnique(s, After(b, c.second), c.third);
  }

  /** The attempt at the first pattern once its runs are known. */
  lemma SxxExxSteps(s: string, i: nat, q: nat, a: nat, b: nat)
    requires SepRun(s, i, q) && q < |s| && (s[q] == 'S' || s[q] == 's')
    requires q + 1 < a < |s| && (s[a] == 'E' || s[a] == 'e') && a + 1 < b <= |s|
    requires IsNumeral(s[q + 1..a]) && IsNumeral(s[a + 1..b]) && GreedyEnd(s, a + 1, b)
    requires RunEnd(s, i, IsSep) == q && Digits2End(s, q + 1) == a && Digits2End(s, a + 1) == b
    ensures AttemptSxxExx(s, i) == SxxExxOptionals(s, i, q, a, b)
  {
    assert AttemptSxxExx(s, i) == SxxExxSeason(s, i, q);
    assert SxxExxSeason(s, i, q) == SxxExxEpisode(s, i, q, a);
  }

  /** The same for the second pattern. */
  lemma NxNFromLayout(s: string, i: nat, c: Captures, q: nat)
    requires NxNLayout(s, i, c, q) && WellCaptured(c) && c.title == s[..i]
    ensures i <= |s| && AttemptNxN(s, i) == Some(c)
  {
    var a := q + |c.season|;
    var b := a + 1 + |c.episode|;
    NxNParts(s, i, c, q, a, b);
    NxNRuns(s, i, q, a, b, c.season, c.episode);
    NxNSteps(s, i, c, q, a, b);
  }

  /** The pieces of a layout of the second pattern, one by one. */
  lemma NxNParts(s: string, i: nat, c: Captures, q: nat, a: nat, b: nat)
    requires NxNLayout(s, i, c, q)
    requires a == q + |c.season| && b == a + 1 + |c.episode|
    ensures SepRun(s, i, q) && OccursAt(s, c.season, q) && a < |s| && s[a] == 'x'
    ensures OccursAt(s, c.episode, a + 1) && GreedyEnd(s, a + 1, b)
    ensures TailOk(s, b) && c.rest == TailText(s, b) && c.second.None? && c.third.None?
  {
  }

  /** Where the runs of the second pattern end once its pieces are known. */
  lemma NxNRuns(s: string, i: nat, q: nat, a: nat, b: nat, season: string, episode: string)
    requires SepRun(s, i, q) && OccursAt(s, season, q) && IsNumeral(season) && a == q + |season|
    requires a < |s| && s[a] == 'x'
    requires OccursAt(s, episode, a + 1) && IsNumeral(episode) && b == a + 1 + |episode| && GreedyEnd(s, a + 1, b)
    ensures RunEnd(s, i, IsSep) == q && Digits2End(s, q) == a && s[q..a] == season
    ensures Digits2End(s, a + 1) == b && s[a + 1..b] == episode
  {
    assert s[q] == season[0];
    RunEndUnique(s, i, IsSep, q);
    GreedyDigits(s, q, season, a);
    GreedyDigits(s, a + 1, episode, b);
  }

  /** The attempt at the second pattern once its runs are known. */
  lemma NxNSteps(s: string, i: nat, c: Captures, q: nat, a: nat, b: nat)
    requires SepRun(s, i, q) && RunEnd(s, i, IsSep) == q
    requires q < a < |s| && Digits2End(s, q) == a && s[a] == 'x' && s[q..a] == c.season
    requires a + 1 < b <= |s| && Digits2End(s, a + 1) == b && s[a + 1..b] == c.episode
    requires TailOk(s, b) && c.rest == TailText(s, b) && c.second.None? && c.third.None?
    requires c.title == s[..i]
    ensures AttemptNxN(s, i) == Some(c)
  {
    assert AttemptNxN(s, i) == NxNNumbers(s, i, q);
    NumeralAt(s, q);
    assert NxNNumbers(s, i, q) == NxNEpisode(s, i, q, a);
    CapturesOf(c, s[..i], s[q..a], s[a + 1..b], TailText(s, b));
  }

  /** The same for the third pattern. */
  lemma SeasonEpisodeFromLayout(s: string, i: nat, c: Captures, q: nat, w: nat, q2: nat, w2: nat)
    requires SeasonEpisodeLayout(s, i, c, q, w, q2, w2) && WellCaptured(c) && c.title == s[..i]
    ensures i <= |s| && AttemptSeasonEpisode(s, i) == Some(c)
  {
    var a := w + |c.season|;
    var b := w2 + |c.episode|;
    SeasonEpisodeParts(s, i, c, q, w, q2, w2, a, b);
    SeasonEpisodeSeason(s, i, q, w, a, q2, c.season);
    SeasonEpisodeEpisode(s, a, q2, w2, b, c.episode);
    SeasonEpisodeSteps(s, i, c, q, w, a, q2, w2, b);
  }

  /** The pieces of a layout of the third pattern, one by one. */
  lemma SeasonEpisodeParts(s: string, i: nat, c: Captures, q: nat, w: nat, q2: nat, w2: nat, a: nat, b: nat)
    requires SeasonEpisodeLayout(s, i, c, q, w, q2, w2)
    requires a == w + |c.season| && b == w2 + |c.episode|
    ensures SepRun(s, i, q) && WordAt(s, "season", q) && SpaceRun(s, q + 6, w) && OccursAt(s, c.season, w)
    ensures SepRun(s, a, q2) && WordAt(s, "episode", q2) && SpaceRun(s, q2 + 7, w2) && OccursAt(s, c.episode, w2)
    ensures GreedyEnd(s, w2, b) && TailOk(s, b) && c.rest == TailText(s, b) && c.second.None? && c.third.None?
  {
  }

  /** Captures without optional numbers are fixed by their four texts. */
  lemma CapturesOf(c: Captures, title: string, season: string, episode: string, rest: string)
    requires c.title == title && c.season == season && c.episode == episode && c.rest == rest
    requires c.second.None? && c.third.None?
    ensures c == Captures(title, season, episode, None, None, rest)
  {
  }

  /** The attempt at the third pattern once every run it looks for is
      known. */
  lemma SeasonEpisodeSteps(s: string, i: nat, c: Captures, q: nat, w: nat, a: nat, q2: nat, w2: nat, b: nat)
    requires SepRun(s, i, q) && RunEnd(s, i, IsSep) == q && WordAt(s, "season", q)
    requires SpaceRun(s, q + 6, w) && RunEnd(s, q + 6, IsSpace) == w
    requires w < a <= |s| && Digits2End(s, w) == a && s[w..a] == c.season
    requires SepRun(s, a, q2) && RunEnd(s, a, IsSep) == q2 && WordAt(s, "episode", q2)
    requires SpaceRun(s, q2 + 7, w2) && RunEnd(s, q2 + 7, IsSpace) == w2
    requires w2 < b <= |s| && Digits2End(s, w2) == b && s[w2..b] == c.episode
    requires TailOk(s, b) && c.rest == TailText(s, b) && c.second.None? && c.third.None?
    requires c.title == s[..i]
    ensures AttemptSeasonEpisode(s, i) == Some(c)
  {
    assert AttemptSeasonEpisode(s, i) == SeasonNumber(s, i, q);
    NumeralAt(s, w);
    assert SeasonNumber(s, i, q) == EpisodeWord(s, i, q, w, a);
    assert EpisodeWord(s, i, q, w, a) == EpisodeNumber(s, i, q, w, a, q2);
    CapturesOf(c, s[..i], s[w..a], s[w2..b], TailText(s, b));
  }

  /** Where the runs of the third pattern end up to its season digits. */
  lemma SeasonEpisodeSeason(s: string, i: nat, q: nat, w: nat, a: nat, q2: nat, season: string)
    requires SepRun(s, i, q) && WordAt(s, "season", q) && SpaceRun(s, q + 6, w)
    requires OccursAt(s, season, w) && IsNumeral(season) && a == w + |season| && SepRun(s, a, q2)
    ensures RunEnd(s, i, IsSep) == q && RunEnd(s, q + 6, IsSpace) == w
    ensures w < a <= |s| && Digits2End(s, w) == a && s[w..a] == season
  {
    LowerLetter(s, q, 's');
    RunEndUnique(s, i, IsSep, q);
    assert s[w] == season[0];
    RunEndUnique(s, q + 6, IsSpace, w);
    GreedyDigits(s, w, season, a);
  }

  /** Where the runs of the third pattern end from its season digits on. */
  lemma SeasonEpisodeEpisode(s: string, a: nat, q2: nat, w2: nat, b: nat, episode: string)
    requires SepRun(s, a, q2) && WordAt(s, "episode", q2) && SpaceRun(s, q2 + 7, w2)
    requires OccursAt(s, episode, w2) && IsNumeral(episode) && b == w2 + |episode| && GreedyEnd(s, w2, b)
    ensures RunEnd(s, a, IsSep) == q2 && RunEnd(s, q2 + 7, IsSpace) == w2
    ensures w2 < b <= |s| && Digits2End(s, w2) == b && s[w2..b] == episode
  {
    LowerLetter(s, q2, 'e');
    RunEndUnique(s, a, IsSep, q2);
    assert s[w2] == episode[0];
    RunEndUnique(s, q2 + 7, IsSpace, w2);
    GreedyDigits(s, w2, episode, b);
  }

  /** A character whose lower case is a letter is no separator. */
  lemma LowerLetter(s: string, k: nat, x: char)
    requires k < |s| && LowerStr(s)[k] == x && 'a' <= x <= 'z'
    ensures !IsSep(s[k])
  {
  }

  /** Every layout is found: the attempt at its title length returns its
      captures. With `Attempt`'s own contract, the captures of an attempt
      are exactly the well-formed layouts at that length. */
  lemma AttemptFromLayout(p: Pattern, s: string, i: nat, c: Captures)
    requires Layout(p, s, i, c) && WellCaptured(c)
    ensures i <= |s| && Attempt(p, s, i) == Some(c)
  {
    match p
    case SxxExx =>
      var q :| SxxExxLayout(s, i, c, q);
      SxxExxFromLayout(s, i, c, q);
    case NxN =>
      var q :| NxNLayout(s, i, c, q);
      NxNFromLayout(s, i, c, q);
    case SeasonEpisode =>
      var q, w, q2, w2 :| SeasonEpisodeLayout(s, i, c, q, w, q2, w2);
      SeasonEpisodeFromLayout(s, i, c, q, w, q2, w2);
  }

  /** A pattern reads a text in one way only: two well-formed layouts with
      the same title are the same captures. */
  lemma LayoutUnique(p: Pattern, s: string, i: nat, c: Captures, c': Captures)
    requires Layout(p, s, i, c) && WellCaptured(c) && Layout(p, s, i, c') && WellCaptured(c')
    ensures c == c'
  {
    AttemptFromLayout(p, s, i, c);
    AttemptFromLayout(p, s, i, c');
  }

  /** The pattern matches with the title group `s[..i]`: `.+?` takes at
      least one character and no line feed. */
  predicate MatchesWith(p: Pattern, s: string, i: nat) {
    1 <= i <= |s| && '\n' !in s[..i] && Attempt(p, s, i).Some?
  }

  /** `re.match`: the lazy title group is tried at lengths `i`, `i + 1`, ...
      and the first length for which the rest matches wins. */
  function Search(p: Pattern, s: string, i: nat): Option<Captures>
    requires 1 <= i <= |s| + 1
    decreases |s| - i
  {
    if i > |s| || s[i - 1] == '\n' then None
    else
      var here := Attempt(p, s, i);
      if here.Some? then here else Search(p, s, i + 1)
  }

  /** What the search returns is the attempt at the shortest title length
      from `i` on that matches. */
  lemma {:induction false} SearchFindsShortest(p: Pattern, s: string, i: nat)
    requires 1 <= i <= |s| + 1
    requires '\n' !in s[..i - 1]
    requires Search(p, s, i).Some?
    ensures exists k :: i <= k && MatchesWith(p, s, k) && Search(p, s, i) == Attempt(p, s, k)
                        && forall j :: i <= j < k ==> !MatchesWith(p, s, j)
    decreases |s| - i
  {
    if Attempt(p, s, i).Some? {
      SearchHere(p, s, i);
    } else {
      SearchStep(p, s, i);
      SearchFindsShortest(p, s, i + 1);
      var k :| i + 1 <= k && MatchesWith(p, s, k) && Search(p, s, i + 1) == Attempt(p, s, k)
               && forall j :: i + 1 <= j < k ==> !MatchesWith(p, s, j);
      assert forall j :: i <= j < k ==> !MatchesWith(p, s, j);
    }
  }

  /** A search that succeeds where the attempt at `i` succeeds returns that
      attempt. */
  lemma SearchHere(p: Pattern, s: string, i: nat)
    requires 1 <= i <= |s| + 1 && '\n' !in s[..i - 1]
    requires Search(p, s, i).Some? && Attempt(p, s, i).Some?
    ensures MatchesWith(p, s, i) && Search(p, s, i) == Attempt(p, s, i)
  {
    NoNewlineGrows(s, i);
  }

  /** A search that succeeds although the attempt at `i` fails goes on
      from `i + 1`, past a character that is no line feed. */
  lemma SearchStep(p: Pattern, s: string, i: nat)
    requires 1 <= i <= |s| + 1 && '\n' !in s[..i - 1]
    requires Search(p, s, i).Some? && Attempt(p, s, i).None?
    ensures i + 1 <= |s| + 1 && '\n' !in s[..i]
    ensures !MatchesWith(p, s, i) && Search(p, s, i) == Search(p, s, i + 1)
  {
    NoNewlineGrows(s, i);
  }

  /** A title without line feeds stays so when one more character that is
      no line feed joins it. */
  lemma NoNewlineGrows(s: string, i: nat)
    requires 1 <= i <= |s| && '\n' !in s[..i - 1] && s[i - 1] != '\n'
    ensures '\n' !in s[..i]
  {
    assert s[..i] == s[..i - 1] + [s[i - 1]];
  }

  /** The search finds nothing only when no title length from `i` on
      matches. */
  lemma {:induction false} SearchMissesNone(p: Pattern, s: string, i: nat)
    requires 1 <= i <= |s| + 1
    requires '\n' !in s[..i - 1]
    requires Search(p, s, i).None?
    ensures forall k :: i <= k ==> !MatchesWith(p, s, k)
    decreases |s| - i
  {
    if i <= |s| {
      if s[i - 1] == '\n' {
        NewlineEndsTitle(p, s, i);
      } else {
        SearchSkips(p, s, i);
        SearchMissesNone(p, s, i + 1);
      }
    }
  }

  /** A line feed at `i - 1` rules out every title of length `i` or more. */
  lemma NewlineEndsTitle(p: Pattern, s: string, i: nat)
    requires 1 <= i <= |s| && s[i - 1] == '\n'
    ensures forall k :: i <= k ==> !MatchesWith(p, s, k)
  {
    forall k | i <= k && 1 <= k <= |s|
      ensures '\n' in s[..k]
    {
      assert s[..k][i - 1] == '\n';
    }
  }

  /** When the search from `i` finds nothing and `s[i - 1]` is no line feed,
      length `i` does not match and the search from `i + 1` finds nothing. */
  lemma SearchSkips(p: Pattern, s: string, i: nat)
    requires 1 <= i <= |s| && s[i - 1] != '\n' && '\n' !in s[..i - 1]
    requires Search(p, s, i).None?
    ensures !MatchesWith(p, s, i) && Search(p, s, i + 1).None? && '\n' !in s[..i]
  {
    assert s[..i] == s[..i - 1] + [s[i - 1]];
  }

  function Match(p: Pattern, s: string): (r: Option<Captures>)
    ensures r.Some? ==> exists k :: MatchesWith(p, s, k) && r == Attempt(p, s, k)
                          && forall j :: j < k ==> !MatchesWith(p, s, j)
    ensures r.None? <==> forall k :: !MatchesWith(p, s, k)
    ensures r.Some? ==> WellCaptured(r.value)
    ensures r.Some? ==> Layout(p, s, |r.value.title|, r.value)
  {
    var r := Search(p, s, 1);
    if r.Some? then SearchFindsShortest(p, s, 1); r
    else SearchMissesNone(p, s, 1); r
  }

  /** The match is the one with the shortest title. */
  lemma ShortestTitleWins(p: Pattern, s: string, k: nat)
    requires MatchesWith(p, s, k)
    requires forall j: nat :: j < k ==> !MatchesWith(p, s, j)
    ensures Match(p, s) == Attempt(p, s, k)
  {
    var r := Match(p, s);
    assert r.Some?;
    var j: nat :| MatchesWith(p, s, j) && r == Attempt(p, s, j)
                  && forall i: nat :: i < j ==> !MatchesWith(p, s, i);
    ShortestIsUnique(p, s, j, k);
  }

  lemma ShortestIsUnique(p: Pattern, s: string, j: nat, k: nat)
    requires MatchesWith(p, s, j) && forall i: nat :: i < j ==> !MatchesWith(p, s, i)
    requires MatchesWith(p, s, k) && forall i: nat :: i < k ==> !MatchesWith(p, s, i)
    ensures j == k
  {
  }

  /** The record `get_episode_info` returns. */
  datatype EpisodeInfo = EpisodeInfo(
    season: Option<nat>,
    episode: Option<nat>,
    episodes: seq<nat>,
    showTitle: Option<string>,
    episodeTitle: Option<string>,
    isMultiEpisode: bool)

  /** The record as initialised, and as returned when no pattern matches. */
  const NoEpisode := EpisodeInfo(None, None, [], None, None, false)

  lemma NotInInfix(s: string, t: string, c: char)
    requires IsInfix(s, t) && c !in t
    ensures c !in s
  {
  }

  /** `re.sub(r'\.', ' ', title).strip()`. */
  function ShowTitle(title: string): (r: string)
    ensures '.' !in r
    ensures r == [] || (!IsSpace(r[0]) && !IsSpace(r[|r| - 1]))
    ensures r == Strip(Replace(title, '.', ' '))
  {
    var spaced := Replace(title, '.', ' ');
    var r := Strip(spaced);
    NotInInfix(r, spaced, '.');
    r
  }

  /** The release tags after which the episode title is cut, lower-cased
      because they are matched ignoring case. */
  const EpisodeTags: seq<string> :=
    ["720p", "1080p", "2160p", "4k", "hdtv", "web-dl", "webrip", "bluray",
     "x264", "x265", "hevc", "aac", "ac3"]

  /** Every tag starts with a lower-case letter or a digit. */
  lemma TagsStartVisible()
    ensures forall t :: t in EpisodeTags ==> |t| > 0 && Visible(t[0])
  {
  }

  /** The text `re.sub` leaves before the cut: leading separators dropped,
      dots turned into spaces, and everything from the first tag on removed. */
  function BeforeTag(rest: string): (r: string)
    requires '\n' !in rest
    ensures forall t :: t in EpisodeTags ==> !Contains(LowerStr(r), t)
    ensures '.' !in r && '\n' !in r
    ensures r == CutTags(Replace(LStrip(rest, IsSep), '.', ' '), EpisodeTags)
  {
    var remainder := Replace(LStrip(rest, IsSep), '.', ' ');
    assert '\n' !in remainder && '.' !in remainder;
    CutTagsKeeps(remainder, EpisodeTags, '\n');
    CutTagsKeeps(remainder, EpisodeTags, '.');
    TagsStartVisible();
    NoTagBeforeCut(remainder, EpisodeTags);
    CutTags(remainder, EpisodeTags)
  }

  /** The episode title that the first pattern takes from a non-empty last
      group: what is left before the tag, stripped, or `None` when only
      whitespace is left. */
  function EpisodeTitleOf(rest: string): Option<string>
    requires '\n' !in rest
  {
    var title := Strip(BeforeTag(rest));
    if title == [] then None else Some(title)
  }

  /** An episode title as the first pattern leaves it: non-empty, stripped,
      free of dots and line feeds, and containing none of the tags. */
  predicate CleanEpisodeTitle(title: string) {
    && title != [] && !IsSpace(title[0]) && !IsSpace(title[|title| - 1])
    && '.' !in title && '\n' !in title
    && forall t :: t in EpisodeTags ==> !Contains(LowerStr(title), t)
  }

  lemma EpisodeTitleClean(rest: string)
    requires '\n' !in rest
    ensures EpisodeTitleOf(rest).Some? ==> CleanEpisodeTitle(EpisodeTitleOf(rest).value)
  {
    var cut := BeforeTag(rest);
    var title := Strip(cut);
    if title != [] {
      NotInInfix(title, cut, '.');
      NotInInfix(title, cut, '\n');
      LowerInfix(title, cut);
      forall t | t in EpisodeTags
        ensures !Contains(LowerStr(title), t)
      {
        if Contains(LowerStr(title), t) {
          ContainsInfix(LowerStr(title), LowerStr(cut), t);
        }
      }
      assert CleanEpisodeTitle(title);
    }
  }

  function NumberList(ds: Option<string>): (r: seq<nat>)
    requires ds.Some? ==> IsNumeral(ds.value)
    ensures |r| <= 1 && (ds.Some? <==> |r| == 1)
  {
    if ds.Some? then [Number(ds.value)] else []
  }

  /** The record filled from the groups of a match; only the first pattern
      (`withTitle`) looks at the last group. */
  function FromCaptures(c: Captures, withTitle: bool): EpisodeInfo
    requires WellCaptured(c)
  {
    var e := Number(c.episode);
    EpisodeInfo(
      Some(Number(c.season)),
      Some(e),
      [e] + NumberList(c.second) + NumberList(c.third),
      Some(ShowTitle(c.title)),
      if withTitle && c.rest != "" then EpisodeTitleOf(c.rest) else None,
      c.second.Some?)
  }

  /** What `get_episode_info` returns for `filename`. */
  function EpisodeInfoOf(filename: string): EpisodeInfo {
    var stem := Stem(filename);
    var m1 := Match(SxxExx, stem);
    if m1.Some? then FromCaptures(m1.value, true)
    else
      var m2 := Match(NxN, stem);
      if m2.Some? then FromCaptures(m2.value, false)
      else
        var m3 := Match(SeasonEpisode, stem);
        if m3.Some? then FromCaptures(m3.value, false)
        else NoEpisode
  }

  /** The four lines every pattern's branch starts with: show title,
      season and episode set from the groups, the episode appended to the
      list. */
  method FillCommon(info0: EpisodeInfo, c: Captures) returns (info: EpisodeInfo)
    requires WellCaptured(c)
    ensures info == info0.(showTitle := Some(ShowTitle(c.title)),
                           season := Some(Number(c.season)),
                           episode := Some(Number(c.episode)),
                           episodes := info0.episodes + [Number(c.episode)])
  {
    info := info0;
    info := info.(showTitle := Some(ShowTitle(c.title)));
    info := info.(season := Some(Number(c.season)));
    info := info.(episode := Some(Number(c.episode)));
    info := info.(episodes := info.episodes + [Number(c.episode)]);
  }

  /** The body of the first pattern's branch: the common lines, further
      episode numbers appended one by one, the episode title taken from the
      last group. */
  method FillMultiEpisode(info0: EpisodeInfo, c: Captures) returns (info: EpisodeInfo)
    requires info0 == NoEpisode && WellCaptured(c)
    ensures info == FromCaptures(c, true)
  {
    info := FillCommon(info0, c);
    assert info.episodes == [Number(c.episode)];
    if c.second.Some? {
      info := info.(episodes := info.episodes + [Number(c.second.value)]);
      info := info.(isMultiEpisode := true);
    }
    assert info.episodes == [Number(c.episode)] + NumberList(c.second);
    if c.third.Some? {
      info := info.(episodes := info.episodes + [Number(c.third.value)]);
    }
    assert info.episodes == [Number(c.episode)] + NumberList(c.second) + NumberList(c.third);
    assert info == FromCaptures(c, true).(episodeTitle := None);
    if c.rest != "" {
      var title := EpisodeTitleFrom(c.rest);
      if title.Some? {
        info := info.(episodeTitle := title);
      }
    }
  }

  /** The handling of a non-empty last group: separators, dots and the tag
      cut removed, then the title is kept only if something is left. */
  method EpisodeTitleFrom(rest: string) returns (title: Option<string>)
    requires '\n' !in rest
    ensures title == EpisodeTitleOf(rest)
  {
    var remainder := LStrip(rest, IsSep);
    remainder := Replace(remainder, '.', ' ');
    remainder := CutTags(remainder, EpisodeTags);
    assert remainder == BeforeTag(rest);
    if Strip(remainder) != "" {
      title := Some(Strip(remainder));
    } else {
      title := None;
    }
  }

  /** The body of the second and third patterns' branches. */
  method FillSingleEpisode(info0: EpisodeInfo, c: Captures) returns (info: EpisodeInfo)
    requires info0 == NoEpisode && WellCaptured(c) && c.second.None? && c.third.None?
    ensures info == FromCaptures(c, false)
  {
    info := FillCommon(info0, c);
  }

  /** `get_episode_info`: the record starts empty; the first pattern that
      matches fills it and returns at once. */
  method GetEpisodeInfo(filename: string) returns (info: EpisodeInfo)
    ensures info == EpisodeInfoOf(filename)
  {
    info := NoEpisode;
    var basename := Stem(filename);

    var m := Match(SxxExx, basename);
    if m.Some? {
      info := FillMultiEpisode(info, m.value);
      return;
    }

    m := Match(NxN, basename);
    if m.Some? {
      info := FillSingleEpisode(info, m.value);
      return;
    }

    m := Match(SeasonEpisode, basename);
    if m.Some? {
      info := FillSingleEpisode(info, m.value);
      return;
    }
  }

  /** The shape of every record `get_episode_info` returns: either the
      initial record, or a season, an episode that is also the first entry
      of a list of one to three numbers below 100, a show title, and the
      multi-episode flag set exactly when there is more than one entry. */
  predicate WellFormedInfo(info: EpisodeInfo) {
    if info.season.None? then info == NoEpisode
    else
      && info.episode.Some? && info.showTitle.Some?
      && 1 <= |info.episodes| <= 3 && info.episodes[0] == info.episode.value
      && (info.isMultiEpisode <==> |info.episodes| >= 2)
      && info.season.value <= 99
      && forall k :: 0 <= k < |info.episodes| ==> info.episodes[k] <= 99
  }

  lemma FromCapturesWellFormed(c: Captures, withTitle: bool)
    requires WellCaptured(c)
    ensures WellFormedInfo(FromCaptures(c, withTitle))
  {
    var info := FromCaptures(c, withTitle);
    assert info.episodes == [Number(c.episode)] + NumberList(c.second) + NumberList(c.third);
  }

  lemma EpisodeInfoWellFormed(filename: string)
    ensures WellFormedInfo(EpisodeInfoOf(filename))
  {
    var stem := Stem(filename);
    var m1 := Match(SxxExx, stem);
    var m2 := Match(NxN, stem);
    var m3 := Match(SeasonEpisode, stem);
    if m1.Some? {
      FromCapturesWellFormed(m1.value, true);
    } else if m2.Some? {
      FromCapturesWellFormed(m2.value, false);
    } else if m3.Some? {
      FromCapturesWellFormed(m3.value, false);
    }
  }

  /** The record stays as initialised exactly when none of the three
      patterns matches the stem with any title length. */
  lemma NothingFound(filename: string)
    ensures EpisodeInfoOf(filename) == NoEpisode
        <==> forall p: Pattern, k: nat :: !MatchesWith(p, Stem(filename), k)
  {
    var stem := Stem(filename);
    var m1, m2, m3 := Match(SxxExx, stem), Match(NxN, stem), Match(SeasonEpisode, stem);
    if m1.None? && m2.None? && m3.None? {
      assert EpisodeInfoOf(filename) == NoEpisode;
      forall p: Pattern, k: nat
        ensures !MatchesWith(p, stem, k)
      {
        assert Match(p, stem).None?;
      }
    } else {
      var p := if m1.Some? then SxxExx else if m2.Some? then NxN else SeasonEpisode;
      assert Match(p, stem).Some?;
      assert EpisodeInfoOf(filename).season.Some?;
      var k :| MatchesWith(p, stem, k) && Match(p, stem) == Attempt(p, stem, k)
               && forall j :: j < k ==> !MatchesWith(p, stem, j);
      assert !(forall p: Pattern, k: nat :: !MatchesWith(p, stem, k));
    }
  }

  /** The first pattern takes precedence: once it matches with some title
      length, the record is filled from its match, whatever the other
      patterns would give. */
  lemma FirstPatternWins(filename: string, k: nat)
    requires MatchesWith(SxxExx, Stem(filename), k)
    ensures Match(SxxExx, Stem(filename)).Some?
    ensures EpisodeInfoOf(filename) == FromCaptures(Match(SxxExx, Stem(filename)).value, true)
  {
  }

  /** Only the first pattern yields several episode numbers, the
      multi-episode flag or an episode title. */
  lemma OnlyFirstPatternIsRich(filename: string)
    ensures var info := EpisodeInfoOf(filename);
      (info.isMultiEpisode || |info.episodes| > 1 || info.episodeTitle.Some?)
        ==> exists k :: MatchesWith(SxxExx, Stem(filename), k)
  {
    var stem := Stem(filename);
    var m1 := Match(SxxExx, stem);
    if m1.None? {
      var m2 := Match(NxN, stem);
      var m3 := Match(SeasonEpisode, stem);
      if m2.Some? {
        FromCapturesWellFormed(m2.value, false);
      } else if m3.Some? {
        FromCapturesWellFormed(m3.value, false);
      }
    }
  }

  /** An episode title, when there is one, is non-empty, stripped, has no
      dot and contains none of the release tags. */
  lemma EpisodeTitleOfInfo(filename: string)
    ensures EpisodeInfoOf(filename).episodeTitle.Some? ==>
      CleanEpisodeTitle(EpisodeInfoOf(filename).episodeTitle.value)
  {
    var stem := Stem(filename);
    var m1 := Match(SxxExx, stem);
    TitleOnlyFromFirst(filename);
    if m1.Some? && m1.value.rest != "" {
      EpisodeTitleClean(m1.value.rest);
    }
  }

  /** The episode title comes from the last group of the first pattern. */
  lemma TitleOnlyFromFirst(filename: string)
    ensures var m1 := Match(SxxExx, Stem(filename));
      EpisodeInfoOf(filename).episodeTitle
        == if m1.Some? && m1.value.rest != "" then EpisodeTitleOf(m1.value.rest) else None
  {
    var stem := Stem(filename);
    var m1, m2, m3 := Match(SxxExx, stem), Match(NxN, stem), Match(SeasonEpisode, stem);
    if m1.Some? {
      assert EpisodeInfoOf(filename) == FromCaptures(m1.value, true);
    } else if m2.Some? {
      assert EpisodeInfoOf(filename) == FromCaptures(m2.value, false);
    } else if m3.Some? {
      assert EpisodeInfoOf(filename) == FromCaptures(m3.value, false);
    }
  }

  /** A layout with a title of `i` characters makes the pattern match, with
      a title no longer than `i`, and with exactly that layout when no
      shorter title has one. */
  lemma LayoutFound(p: Pattern, s: string, i: nat, c: Captures)
    requires 1 <= i && Layout(p, s, i, c) && WellCaptured(c)
    ensures Match(p, s).Some? && |Match(p, s).value.title| <= i
    ensures |Match(p, s).value.title| == i ==> Match(p, s) == Some(c)
  {
    AttemptFromLayout(p, s, i, c);
    assert MatchesWith(p, s, i);
    var r := Match(p, s);
    var k :| MatchesWith(p, s, k) && r == Attempt(p, s, k) && forall j :: j < k ==> !MatchesWith(p, s, j);
    assert |r.value.title| == k;
  }

  /** The pattern matches exactly when some title length has a well-formed
      layout, and the match has the shortest such title. */
  lemma MatchIsShortestLayout(p: Pattern, s: string)
    ensures Match(p, s).Some? <==> exists i, c :: 1 <= i && Layout(p, s, i, c) && WellCaptured(c)
    ensures Match(p, s).Some? ==> forall i, c :: 1 <= i < |Match(p, s).value.title| && Layout(p, s, i, c) ==> !WellCaptured(c)
  {
    var r := Match(p, s);
    if r.Some? {
      var k :| MatchesWith(p, s, k) && r == Attempt(p, s, k) && forall j :: j < k ==> !MatchesWith(p, s, j);
      assert |r.value.title| == k;
      assert Layout(p, s, k, r.value);
    }
    forall i, c | 1 <= i && Layout(p, s, i, c) && WellCaptured(c)
      ensures r.Some? && |r.value.title| <= i
    {
      LayoutFound(p, s, i, c);
    }
  }
}
