# Media cleaner: name inference and duplicate ranking

This project models the part of the media-library cleaner `media_cleaner.py`
that works out what a file or folder name says about a movie or episode,
and how duplicate movies are grouped and ranked:

- `get_quality_score`: five ordered if/elif chains of substring tests on the
  lower-cased name (resolution, source, codec, audio, HDR). Each branch adds
  a weight, sets a label and appends a detail line. Module `Quality`.
- `get_episode_info`: three filename patterns (`S01E01[E02][E03]`, `1x01`,
  `Season 1 Episode 1`), tried in order. The first that matches fills the
  episode record. Module `Episode`; the regular expressions are hand-written
  matchers that follow Python's lazy `(.+?)`, greedy `\d{1,2}`, optional
  groups and `$`. Each pattern also has a layout predicate that says where
  its captures sit in the text, and the matcher returns exactly the
  well-formed layout with the shortest title.
- `get_normalized_title`: the first `19xx`/`20xx` year, the cut at the year
  and at the first quality tag, separators to spaces, whitespace collapsed,
  trimming, lower-casing and one leading article removed. Module `Title`.
- `find_duplicate_movies`: the loop that puts every movie folder into a
  dictionary bucket keyed by `title` or `title|year`, and the comprehension
  that keeps the buckets holding more than one movie. Module `Duplicates`.
- `show_duplicate_report`: the stable sort of a group by descending score
  and the KEEP / DEL? marks. Module `Report`.
- The name transform inside `clean_folder_names`: the cut at each configured
  tag, dots to spaces and a trailing year put in parentheses. Module
  `FolderName`.
- The transcoding rule of `codec_analysis`. Module `Transcode`.

Module `Text` holds the string operations these share (`str.lower`, `in`,
`str.find`, `strip`, `Path.stem`, `re.sub` on single characters and on
whitespace runs, and the `\s*(tag|...).*$` cut). Module `EpisodeExamples`
states what the episode matcher gives for concrete names, one or more for
each pattern.

Methods follow the source where it updates state step by step:
`GetQualityScore`, `GetEpisodeInfo`, `FindDuplicateMovies`, `CleanFolderName`
and `CheckTranscode`. Each is proved equal to a specification function, and
the lemmas state what the source promises about that function.

## Model

| member | source | states |
|---|---|---|
| Text.LowerStr | media_cleaner.py:251 | The lower-cased name has the same length, and each character is the ASCII lower-case form of the original one. |
| Text.Replace | media_cleaner.py:431 | `re.sub` of one character keeps the length, replaces exactly the matching characters and keeps every other one. |
| Text.StripBy | media_cleaner.py:729 | `strip(chars)` removes exactly the longest leading and the longest trailing run of stripped characters: the result starts where the leading run ends, every character after it is stripped, and it neither starts nor ends with a stripped character. It is empty exactly when every character is stripped. |
| Text.Strip | media_cleaner.py:434 | `strip()` removes exactly the leading and the trailing whitespace runs: the same statement as for `strip(chars)`, with whitespace as the stripped characters. |
| Text.CollapseSpacesShape | media_cleaner.py:433 | After `re.sub(r'\s+', ' ', …)` no two whitespace characters are adjacent, every whitespace character is a plain space, every other character comes from the input, the result is no longer than the input, and it starts with a space exactly when the input starts with whitespace. |
| Text.CollapseUnits | media_cleaner.py:433 | A whitespace run of any length becomes one space, and a character that is not whitespace is kept. |
| Text.CollapseConcat | media_cleaner.py:433 | Collapsing works piece by piece wherever the cut does not split a whitespace run. With `CollapseUnits` this fixes the result for every input. |
| Text.CollapseKeepsNonSpaces | media_cleaner.py:433 | The characters that are not whitespace are the same before and after collapsing, in the same order. |
| Text.Find | media_cleaner.py:727-728 | The first occurrence of the tag from a given position: it occurs there and nowhere earlier (where `split` makes its first cut). |
| Text.BaseName | media_cleaner.py:369 | The last path component holds no `/`, and a name without `/` is its own last component. |
| Text.Stem | media_cleaner.py:369 | `Path.stem` is the last path component cut at its last dot when that dot is neither its first nor its last character, and the whole component otherwise. |
| Text.CutAt | media_cleaner.py:388 | The first position where `\s*(tag…).*$` matches: a tag starts after the whitespace run there, and at no earlier position. |
| Text.CutTags | media_cleaner.py:388 | When a tag match starts at the first matching position, the text is cut there and keeps only the final line feed that `$` leaves behind. Text without a match comes back unchanged. |
| Text.NoTagBeforeCut | media_cleaner.py:428 | In text without line feeds, after the cut none of the tags occurs in the text, ignoring case. |
| Text.CutTagsKeeps | media_cleaner.py:428 | The cut adds no character that was not in the text. |
| Quality.ResolutionHit | media_cleaner.py:253-269 | The resolution chain fires some branch, worth at most 100, exactly when one of its tokens occurs. |
| Quality.SourceHit | media_cleaner.py:271-291 | The source chain fires some branch, worth at most 30, exactly when one of its tokens occurs. |
| Quality.CodecHit | media_cleaner.py:293-305 | The codec chain fires some branch, worth at most 20, exactly when one of its tokens occurs. |
| Quality.AudioHit | media_cleaner.py:307-331 | The audio chain fires some branch, worth at most 15, exactly when one of its tokens occurs. |
| Quality.HdrHit | media_cleaner.py:333-349 | The HDR chain fires some branch, worth at most 15, exactly when one of its tokens occurs. |
| Quality.ScoreResolution | media_cleaner.py:253-269 | The resolution block sets the label of the branch that fires, adds its weight and appends its line. |
| Quality.ScoreSource | media_cleaner.py:271-291 | The same for the source block. |
| Quality.ScoreCodec | media_cleaner.py:293-305 | The same for the codec block. |
| Quality.ScoreAudio | media_cleaner.py:307-331 | The same for the audio block. |
| Quality.ScoreHdr | media_cleaner.py:333-349 | The same for the HDR block, which also sets the HDR flag. |
| Quality.GetQualityScore | media_cleaner.py:239-351 | Starting from the unrated record and running the five blocks in order gives the quality record of the name. |
| Quality.ScoreAndDetails | media_cleaner.py:253-349 | The score is the sum of the weights of the branches that fired, at most 100+30+20+15+15 = 180. `details` holds one line per category that fired, in category order, so at most five. |
| Quality.ResolutionMonotone | media_cleaner.py:253-269 | A name that contains every resolution token another name contains gets at least as much from the resolution chain. |
| Quality.SourceMonotone | media_cleaner.py:271-291 | The same for the source chain. |
| Quality.CodecMonotone | media_cleaner.py:293-305 | The same for the codec chain. |
| Quality.AudioMonotone | media_cleaner.py:307-331 | The same for the audio chain. |
| Quality.HdrMonotone | media_cleaner.py:333-349 | The same for the HDR chain. |
| Quality.ScoreMonotone | media_cleaner.py:253-349 | A name whose lower-cased form contains every tested token that another's contains scores at least as much. |
| Quality.ResolutionPrecedence | media_cleaner.py:254-269 | "2160p", "4k" or "uhd" gives the 2160p rating whatever else the name holds. Otherwise "1080p" gives 1080p, then "720p" gives 720p, then "480p" or "dvd" gives 480p. The weights fall 100 > 80 > 60 > 40. |
| Quality.HdrPrecedence | media_cleaner.py:333-349 | An HDR10+ spelling wins over Dolby Vision, Dolby Vision over "hdr10", and "hdr10" over plain "hdr". The weights are 15, 15, 12 and 10. |
| Quality.ResolutionDecides | media_cleaner.py:253-349 | Two names that agree on source, codec, audio and HDR differ in score by exactly their resolution weights, so the better resolution scores strictly higher. |
| Quality.ScoreGrowsWithName | media_cleaner.py:251-349 | A name that contains another name as a substring scores at least as much. |
| Quality.HdrFlag | media_cleaner.py:333-349 | The HDR flag is set exactly when "hdr" or a Dolby Vision spelling occurs in the lower-cased name. |
| Quality.UnratedExactly | media_cleaner.py:241-249 | The result is the initial record (score 0, four "Unknown" labels, no HDR, no details) exactly when none of the tested tokens occurs. |
| Quality.CaseInsensitive | media_cleaner.py:251 | Only the lower-cased name matters. |
| Episode.Digits2End | media_cleaner.py:372 | Greedy `\d{1,2}`: at most two characters, all digits, and the run stops at a non-digit unless it already has two. |
| Episode.Number | media_cleaner.py:375-376 | `int()` of one or two digits is at most 99, and at most 9 for one digit. |
| Episode.OptionalNumber | media_cleaner.py:372 | `(?:[Ee-](\d{1,2}))?` either consumes nothing or captures the one or two digits after the separator. It captures as many digits as greedy `\d{1,2}` takes, and it consumes nothing only where no `E`, `e` or `-` followed by a digit stands. |
| Episode.Digits2EndUnique | media_cleaner.py:372 | A numeral that no further digit can extend ends where the greedy digit run ends. |
| Episode.OptionalNumberUnique | media_cleaner.py:372 | An optional group laid out as the expression allows is exactly what `OptionalNumber` reads. |
| Episode.AttemptSxxExx | media_cleaner.py:372 | When pattern 1 matches with a given title length, the title is that prefix and every capture is well formed; the captures sit in the text as the expression lays them out: separators, `S` or `s` and the season digits, `E` or `e` and the episode digits, each optional number after its `E`, `e` or `-`, and the rest of the line. The episode digits and each optional number are as long as greedy `\d{1,2}` makes them, and an optional group is empty only where it cannot match. |
| Episode.AttemptNxN | media_cleaner.py:395 | The same for pattern 2, which captures no second or third episode: separators, the season digits, `x`, the episode digits as long as greedy `\d{1,2}` makes them, and the rest of the line. |
| Episode.AttemptSeasonEpisode | media_cleaner.py:404 | The same for pattern 3: separators, "season" in any case, optional whitespace, the season digits, separators, "episode" in any case, optional whitespace, the episode digits as long as greedy `\d{1,2}` makes them, and the rest of the line. |
| Episode.Attempt | media_cleaner.py:372-404 | The three patterns share these guarantees, each captures what its own layout places in the text, and only pattern 1 captures extra episodes. |
| Episode.SxxExxFromLayout | media_cleaner.py:372 | Conversely, every well-formed layout of pattern 1 is what the attempt at its title length returns. |
| Episode.NxNFromLayout | media_cleaner.py:395 | The same for pattern 2. |
| Episode.SeasonEpisodeFromLayout | media_cleaner.py:404 | The same for pattern 3. |
| Episode.AttemptFromLayout | media_cleaner.py:372-404 | For every pattern, the attempt at a title length returns exactly the well-formed layout at that length: the expression reads a text in one way once the title is fixed. |
| Episode.LayoutUnique | media_cleaner.py:372-404 | Two well-formed layouts of one pattern with the same title are the same captures. |
| Episode.SearchFindsShortest | media_cleaner.py:372 | When the lazy search succeeds, its result comes from the shortest title length at which the pattern matches. |
| Episode.SearchMissesNone | media_cleaner.py:372 | When the lazy search fails, the pattern matches at no title length. |
| Episode.Match | media_cleaner.py:372-404 | `re.match` returns the captures of the shortest matching title, and nothing exactly when no title length matches; the captures are well formed and laid out in the text as the pattern reads them. |
| Episode.LayoutFound | media_cleaner.py:372-404 | A well-formed layout with a title of i characters makes the pattern match with a title of at most i characters, and with that layout when the title is i characters long. |
| Episode.MatchIsShortestLayout | media_cleaner.py:372-404 | `re.match` succeeds exactly when some title length has a well-formed layout, and no shorter title than the one it returns has one. |
| Episode.ShortestTitleWins | media_cleaner.py:372 | A match at title length k with no match at any shorter length is the match `re.match` returns. |
| Episode.ShowTitle | media_cleaner.py:374 | The show title is the title group with each dot turned into a space and whitespace stripped from both ends, so it has no dot and no whitespace at either end. |
| Episode.BeforeTag | media_cleaner.py:386-388 | The remainder is the last group with its leading separators dropped, its dots turned into spaces and cut at the first tag; it holds no tag (ignoring case), no dot and no line feed. |
| Episode.EpisodeTitleClean | media_cleaner.py:385-390 | An episode title, when set, is non-empty, trimmed, holds no dot or line feed, and holds no quality tag. |
| Episode.FillCommon | media_cleaner.py:374-377 | The lines every branch starts with set the show title, season and episode and append the episode to the list, changing nothing else. |
| Episode.FillMultiEpisode | media_cleaner.py:374-390 | Pattern 1's branch sets season, episode, the list of episode numbers, the multi-episode flag and the episode title from the groups. |
| Episode.EpisodeTitleFrom | media_cleaner.py:385-390 | The handling of a non-empty group 6 gives the stripped text before the first tag, or no title when only whitespace is left. |
| Episode.FillSingleEpisode | media_cleaner.py:396-400 | The branch of pattern 2 or 3 sets season, episode, a one-element list and the show title. |
| Episode.GetEpisodeInfo | media_cleaner.py:358-412 | The three patterns are tried in order, and the first that matches decides the record. |
| Episode.FromCapturesWellFormed | media_cleaner.py:374-400 | A match always gives a well-formed record: season and episode at most 99, one to three episodes, the first being the episode, multi-episode exactly when there are at least two. |
| Episode.EpisodeInfoWellFormed | media_cleaner.py:360-412 | Every path gives a well-formed record; without a season the record is the empty one. |
| Episode.NothingFound | media_cleaner.py:360-367 | The record is the empty one exactly when none of the three patterns matches the stem. |
| Episode.FirstPatternWins | media_cleaner.py:372-392 | When pattern 1 matches, its record is returned, whatever patterns 2 and 3 would do. |
| Episode.OnlyFirstPatternIsRich | media_cleaner.py:377-392 | Several episodes, the multi-episode flag or an episode title can only come from pattern 1. |
| Episode.EpisodeTitleOfInfo | media_cleaner.py:385-390 | A returned episode title is non-empty, trimmed, has no dot and holds no quality tag. |
| Episode.TitleOnlyFromFirst | media_cleaner.py:385-390 | The episode title is set only from a non-empty group 6 of pattern 1. |
| EpisodeExamples.DashMatch | media_cleaner.py:372 | `Show.S01E01-03` matches pattern 1 with episodes 1 and 3 captured. |
| EpisodeExamples.NoGapFilled | media_cleaner.py:377-383 | Episodes `01-03` give the list [1, 3], marked multi-episode; the gap is not filled. |
| EpisodeExamples.DashLetterMatch | media_cleaner.py:371-372 | `Show.S01E01-E03` matches pattern 1 with only episode 1 captured; `-E03` goes to the remainder. |
| EpisodeExamples.DashLetterSingle | media_cleaner.py:377-383 | That name gives the single episode [1] and is not multi-episode. |
| EpisodeExamples.PilotMatch | media_cleaner.py:372 | `Breaking.Bad.S01E01.Pilot.720p` matches pattern 1 with title `Breaking.Bad`, season and episode `01`, and `.Pilot.720p` left over. |
| EpisodeExamples.MultiMatch | media_cleaner.py:372 | `Show.Name.S01E01E02` matches pattern 1 with title `Show.Name`, season `01`, episode `01`, a second episode `02` and nothing left over. |
| EpisodeExamples.MultiInfo | media_cleaner.py:358-392 | `Show.Name.S01E01E02.mkv` gives season 1, episodes [1, 2], show "Show Name", no episode title, and is marked multi-episode. |
| EpisodeExamples.PilotInfo | media_cleaner.py:358-392 | `Breaking.Bad.S01E01.Pilot.720p.mkv` gives season 1, episode 1, show "Breaking Bad" and episode title "Pilot". |
| EpisodeExamples.CrossNotFirst | media_cleaner.py:372 | Pattern 1 does not match `Show.1x05`. |
| EpisodeExamples.CrossMatch | media_cleaner.py:395 | Pattern 2 matches `Show.1x05` with title `Show`, season `1` and episode `05`. |
| EpisodeExamples.CrossInfo | media_cleaner.py:358-400 | `Show.1x05.mkv` gives season 1, episode 5, show "Show" and no episode title. |
| EpisodeExamples.WordyNotEarlier | media_cleaner.py:372-395 | Neither pattern 1 nor pattern 2 matches `Show Season 2 Episode 3`. |
| EpisodeExamples.WordyMatch | media_cleaner.py:404 | Pattern 3 matches `Show Season 2 Episode 3` with title `Show`, season `2` and episode `3`. |
| EpisodeExamples.WordyInfo | media_cleaner.py:358-409 | `Show Season 2 Episode 3.mkv` gives season 2, episode 3, show "Show" and no episode title. |
| Title.FirstYear | media_cleaner.py:422 | The year search: a `19xx` or `20xx` run starts at the result and at no earlier position; there is none exactly when no year occurs. |
| Title.YearCutAt | media_cleaner.py:427 | The first position where the year cut matches (an optional bracket, a `19xx` or `20xx` year, an optional bracket, the rest of the line), and no earlier one matches. |
| Title.NoYearAfterCut | media_cleaner.py:427 | In text without line feeds no year is left after the cut. |
| Title.NoTagAfterCut | media_cleaner.py:428 | In text without line feeds, after the tag cut no title tag is left, ignoring case. |
| Title.Spaced | media_cleaner.py:431-432 | Each `.`, `_` and `-` becomes a space and every other character is kept at its position. |
| Title.ArticleEnd | media_cleaner.py:437 | The leading-article pattern for one article: the article starts the title and is followed by a maximal whitespace run. |
| Title.ArticleCut | media_cleaner.py:437 | Where the title starts after the article: 0 when none matches, otherwise the end of an article and its whitespace, and whichever of "the", "a" and "an" matches fixes that position. |
| Title.StripsOneArticle | media_cleaner.py:437 | "the", "a" or "an" followed by a space is removed from the front, leaving the rest as it was. |
| Title.StripArticle | media_cleaner.py:437 | `^(the\|a\|an)\s+` removal: the result is a suffix of the title, shorter by exactly the article and its whitespace when one leads, and the whole title when none does. |
| Title.ArticleStrippedOnce | media_cleaner.py:437 | Only one article goes: "the the matrix" becomes "the matrix", and stripping articles a second time would change it again. |
| Title.YearOf | media_cleaner.py:422-424 | The year is the first `19xx`/`20xx` run of the stem: four digits starting with "19" or "20"; it is absent exactly when there is no such run. |
| Title.NormalizedTitle | media_cleaner.py:415-440 | The normalised title is lower case, has no `.`, `_` or `-`, only plain spaces, no two spaces in a row and no space at either end; it is the cleaned stem with a leading article and its whitespace removed, or the whole cleaned stem when no article leads; the year is the first `19xx` or `20xx` of the stem. |
| Title.EmptyName | media_cleaner.py:415-440 | The empty name gives an empty title and no year. |
| FolderName.CutTag | media_cleaner.py:725-731 | When the tag occurs, ignoring case, and the text before its first occurrence is not empty once spaces, dots and dashes are stripped from its ends, that stripped text replaces the name. Otherwise the name is kept. The result is a piece of the name, is never empty for a non-empty name, and holds no tag unless it is the name itself. |
| FolderName.StripTagsInfix | media_cleaner.py:724-731 | The whole tag loop keeps a piece of the name and never empties a non-empty name. |
| FolderName.Undotted | media_cleaner.py:733-735 | Without a dot the name is kept. With one, dots become spaces, whitespace runs collapse and the ends are stripped. The result has no dot, no two adjacent whitespace characters and no whitespace at either end. |
| FolderName.YearSuffix | media_cleaner.py:738 | The trailing-year search finds the position of a trailing year exactly when one exists. |
| FolderName.FormatYear | media_cleaner.py:738-740 | The name changes exactly when it ends in a year. The text before the whitespace character is kept, that character becomes a space, the four year digits are put in parentheses, and a final line feed is kept. |
| FolderName.FormatYearIdempotent | media_cleaner.py:738-740 | Formatting the year a second time changes nothing. |
| FolderName.RemoveTags | media_cleaner.py:724-731 | The tag loop applies the one-tag cut for each tag in turn. |
| FolderName.CleanFolderName | media_cleaner.py:721-740 | The tag loop over the default tag list (`ConfigTags`, the tuple at media_cleaner.py:79-87), the dot step and the year step compute the cleaned name. |
| Duplicates.BucketsAreFilters | media_cleaner.py:985-991 | The dictionary's keys, in insertion order, are the distinct keys of the entries. Each bucket holds exactly the entries with that key, in scan order. |
| Duplicates.Partition | media_cleaner.py:966-991 | The buckets taken together hold every scanned entry exactly as often as it was scanned. |
| Duplicates.LargeKeys | media_cleaner.py:994 | The comprehension keeps exactly the keys whose bucket has more than one entry, without repeating any. |
| Duplicates.GroupsAreDuplicates | media_cleaner.py:985-994 | Every returned group has at least two entries, and all of them were scanned with the same key, the title, or the title and year joined by a bar. |
| Duplicates.GroupsDisjoint | media_cleaner.py:989-994 | No entry appears in two groups. |
| Duplicates.InGroupIff | media_cleaner.py:989-994 | An entry is in some group exactly when its key is shared by at least two scanned entries. |
| Duplicates.MakeEntry | media_cleaner.py:969-987 | The entry and key the loop builds for one folder, from its normalised title and its quality score. |
| Duplicates.FindDuplicateMovies | media_cleaner.py:961-996 | The loop and the comprehension return the groups of the scanned folders; no folders gives no groups. |
| Report.Insert | media_cleaner.py:1020 | Inserting a movie into a sorted list adds exactly that movie. |
| Report.SortByScore | media_cleaner.py:1020 | The sorted group is a permutation of the group. |
| Report.SortIsStable | media_cleaner.py:1020 | The sorted group is in descending score order, and movies with equal scores keep their order in the group, as `sorted(…, reverse=True)` promises. |
| Report.SortIsUnique | media_cleaner.py:1020 | Any descending order that keeps equal-score movies in group order is the sorted group. |
| Report.Ranking | media_cleaner.py:1024-1031 | The report lists every movie of the group once, in the order of the score sort; the first line is marked KEEP and every later one DEL?. |
| Report.KeepsTheBest | media_cleaner.py:1016-1031 | Exactly the first movie is marked KEEP and every other one DEL?. Every movie is listed once. The kept one has the best score and is the earliest in the group with that score. |
| Transcode.CheckTranscode | media_cleaner.py:1177-1191 | The four checks append their reasons in order, and a file needs transcoding exactly when some reason was given. |
| Transcode.ReasonsExactly | media_cleaner.py:1180-1191 | Each reason is given exactly when its condition holds (HEVC codec, 2160p resolution, HDR, AVI container), no reason twice, and at least one reason exactly when one condition holds. |
| Transcode.UnratedNeedsOnlyContainer | media_cleaner.py:1163-1191 | A name with no quality token needs transcoding only for the AVI container. |

## Left out

- The filesystem: directory walking, `iterdir`, `is_dir`, `stat`, renaming, moving, deleting and the `_Trailers` filter. `FindDuplicateMovies` takes the folders as a sequence of (path, name, size of the largest video file) instead of scanning them.
- The `try`/`except` around `find_duplicate_movies`: the model has no exceptions to catch.
- The other operations of the program: archive extraction (7-Zip subprocess), subtitle handling, trailer moving, loose-file organising, season organising, empty-folder removal, the health check, the TMDB network lookups, NFO XML reading and writing, `format_file_size` (floating point), logging, coloured output, the global statistics and the command line.
- The counting tables of `codec_analysis`. Only its transcoding rule is modelled, and the container (the upper-cased file suffix) is a parameter.
- The printing of the duplicate report: the score, size and labels printed beside each mark are not modelled.
- Character classes: lower-casing and `re.IGNORECASE` act on ASCII letters only, and `\d` and `int()` on ASCII digits. Python also folds other Unicode letters and accepts other Unicode digits.
- Episode.GetEpisodeInfo: the source's comment names `S01E01-E03`, but the expression accepts only `S01E01-03` for a range. The model follows the expression. `EpisodeExamples` shows both names.
- FolderName.CleanFolderName: the rename on disk and the comparison with the old name are not modelled; only the new name is computed. It uses the default tag tuple; a configuration with other tags is `RemoveTags` applied to those tags.
