# Heading inference for extracted PDF text — a verified model

This project models the heuristics in `main.py` that infer a document's title
and outline from the text lines a PDF reader has extracted. Each line is a
`Blocks.Block`, which holds:

- its text;
- its font size, rounded to an integer by the reader;
- whether its font is bold;
- its bounding box;
- its 1-based page;
- its top and left edges relative to the page size.

The model covers these parts of the pipeline:

- language sniffing (`Languages`);
- the body font size and the size-to-level map (`Styles`);
- title scoring (`Titles`);
- form detection (`Forms`);
- the table-row / list filter and the heading rejection rules (`Filters`);
- the numbering classifier (`Numbering`);
- the assembly of the outline and the removal of duplicates (`Outline`).

`Text` models the few `str` operations the heuristics use: `strip`, `split`,
`lower`, `isupper` and `in`. `Patterns` replaces every regular expression with a
predicate that matches at the start of the string, as `re.match` does. `Config`
holds the constants.

The source's loops are methods. Each method is proved equal to a specification
function:

- `Filters.TableSubpoint` collects the same-row blocks and counts the numbered
  lines;
- `Forms.IsFormLikeDocument` accumulates the form indicators;
- `Titles.FindDocumentTitle` scores the candidates and sorts them;
- `Outline.ProcessBlocks` builds the outline and then removes duplicates with a
  `seen` set.

The properties are proved as lemmas about those functions. The conditional
chains (`detect_language`, `classify_heading_by_numbering`,
`is_plausible_heading`) and the comprehensions of `analyze_document_styles` are
functions.

Float thresholds are compared exactly, by cross-multiplying:

- `100*size >= 115*body` for the heading factor;
- `5*indicators > 2*lines` for the 0.4 form ratio;
- `5*size*count > 6*sum` for "more than 1.2 times the average";
- `10*japanese > length` for the 10% Japanese share.

Each form is shown to agree with the real-number comparison in the source by a
lemma: `Styles.HeadingSizeIsFactorTest`, `Forms.RatioTest`,
`Titles.AboveAverageIsAverageTest` and `Languages.JapaneseShareTest`.

Some consequences of how `main.py` is written:

- In Japanese, `N.N` is tested before `N.N.N` (main.py:124-127). Every
  three-level number also matches `N.N`, so H3 never comes out and `1.1.1` is
  an H2 (`Numbering.JapaneseLevels`, `Numbering.SubsectionLine`).
- The heading-size test is `size >= body * 1.15 and size > body`
  (main.py:252): a size of exactly 1.15 times the body size is a heading size.
- The surrounding set contains the block itself (main.py:299-301). The block
  therefore counts as one of the three blocks that make a table row
  (`Filters.OwnRowIncludesSelf`).
- The title is excluded from the outline by bounding-box equality only
  (main.py:290). Its text is not compared, so another line with the same text
  can still be a heading.
- The junk patterns `www\.` and `@` are applied with `re.match`, so they reject
  only text that starts with them (main.py:155).
- é and ü are in both diacritic sets, so a text that contains one of them is
  never taken for French (`Languages.SharedMarksMeanSpanish`).
- `page_width` is not used by `find_document_title`, so `Titles.FindDocumentTitle`
  does not take it.

## Model

| member | source | states |
|---|---|---|
| `Blocks.LevelNumber` | main.py:254 | The digit of a level's name `H{n}`, between 1 and 4 |
| `Blocks.TopDistance` | main.py:102 | `abs(a['bbox'][1] - b['bbox'][1])`, through `Blocks.Abs`, which is non-negative and equal to the argument or its negation |
| `Blocks.Abs` | main.py:102 | The absolute value: non-negative, and the argument or its negation |
| `Languages.DetectLanguage` | main.py:23-40 | Empty text gives `en`. The result is `ja` exactly when more than a tenth of the characters are hiragana, katakana or CJK ideographs. Otherwise it is `es` exactly when some lower-cased character is a Spanish mark, `fr` exactly when only French marks occur, and `en` otherwise |
| `Languages.SharedMarksMeanSpanish` | main.py:32-38 | A text containing é or ü is never French, and is Spanish unless it is dominated by Japanese |
| `Languages.MarkCount` | main.py:32 | The count of diacritic matches is positive exactly when some character is one of the marks |
| `Languages.JapaneseDominated` | main.py:28-29 | More than a tenth of the characters are hiragana, katakana or CJK ideographs, by `10*count > length` |
| `Languages.JapaneseShareTest` | main.py:29 | `10*count > length` holds iff `count > length*0.1` in exact arithmetic |
| `Languages.IsJapaneseChar` | main.py:28 | The character class `[\u3040-\u309F\u30A0-\u30FF\u4E00-\u9FAF]`: hiragana, katakana and the CJK ideographs up to U+9FAF |
| `Languages.JapaneseCount` | main.py:28 | `len(re.findall(...))` of that class: the number of such characters, at most the length; compared by `Languages.JapaneseShareTest` |
| `Languages.HasMark` | main.py:32-38 | Some character of the lower-cased sample is one of the marks, the test `*_chars > 0`; used by `Languages.DetectLanguage` |
| `Numbering.ClassifyHeadingByNumbering` | main.py:119-139 | Never H4, and never H3 for Japanese |
| `Numbering.JapaneseNumbering` | main.py:121-127 | The Japanese chain: a 第N章-style marker gives H1, then `N.N` gives H2, then `N.N.N` gives H3; its outcomes are characterised by `Numbering.JapaneseLevels` |
| `Numbering.WesternNumbering` | main.py:128-134 | The chain for other languages: `N.N.N` gives H3, then `N.N` gives H2, then `N.` not followed by a digit on a line of fewer than 10 words gives H1; its outcomes are characterised by `Numbering.WesternLevels` |
| `Numbering.WesternLevels` | main.py:128-139 | Outside Japanese, each level is characterised in both directions: H3 iff `N.N.N`; H2 iff `N.N` but not `N.N.N`, or `A. `; H1 iff `N.` not followed by a digit and fewer than 10 words; no level otherwise |
| `Numbering.JapaneseLevels` | main.py:121-139 | In Japanese, H1 iff a 第N章-style marker, H2 iff `N.N` or `A. `, never H3, and a three-level number is an H2 |
| `Numbering.LetterIsNotNumber` | main.py:136-137 | A line starting `A. ` matches no numeric or Japanese marker pattern |
| `Numbering.SectionMarkerIsNotNumber` | main.py:122-124 | A Japanese section marker is never a two-level number |
| `Numbering.ChapterLine` | main.py:133-134 | "1. Introduction" is an H1 |
| `Numbering.SectionLine` | main.py:131-132 | "1.1 Background" is an H2 |
| `Numbering.SubsectionLine` | main.py:121-130 | "1.1.1 Details" is an H3, but an H2 in Japanese |
| `Patterns.NumberDot` | main.py:114 | `^\d+\.`: a non-empty digit run and then a dot at the start; characterised by `Patterns.NumberDotMatches` |
| `Patterns.TwoLevelNumber` | main.py:124-131 | `^\d+\.\d+`: a number, a dot and a digit at the start; characterised by `Patterns.TwoLevelNumberMatches` |
| `Patterns.ThreeLevelNumber` | main.py:126-129 | `^\d+\.\d+\.\d+`; characterised by `Patterns.ThreeLevelNumberMatches` |
| `Patterns.JapaneseSectionMarker` | main.py:122 | `^第?\d+[章節条項目]`: an optional 第, a digit run, then one of 章節条項目 |
| `Patterns.LetterDotSpace` | main.py:136 | `^[A-Z]\.\s`: an ASCII capital, a dot and a whitespace character |
| `Patterns.IsJunk` | main.py:150-155 | Some junk pattern matches at the start of the stripped text: the disjunction of the nine predicates below |
| `Patterns.SerialNumberMarker` | main.py:151 | `^S\.?No\.?` ignoring case: `s`, an optional dot, then `no` |
| `Patterns.SrNumberMarker` | main.py:151 | `^Sr\.?No\.?` ignoring case: `sr`, an optional dot, then `no` |
| `Patterns.PageCaption` | main.py:151 | `^Page\s+\d+` ignoring case: `page`, at least one whitespace character, a digit |
| `Patterns.FigureCaption` | main.py:151 | `^Fig(\.\|ure)?\s*\d+` ignoring case: `fig`, then nothing, `.` or `ure`, then optional whitespace and a digit |
| `Patterns.TableCaption` | main.py:152 | `^Table\s*\d+` ignoring case: `table`, optional whitespace, a digit |
| `Patterns.BareNumber` | main.py:152 | `^\d+\s*$`: a digit run followed only by whitespace |
| `Patterns.SingleLetter` | main.py:152 | `^[A-Za-z]\s*$`: one ASCII letter followed only by whitespace |
| `Patterns.WebAddressStart` | main.py:152-155 | `www\.` under `re.match`, ignoring case: only at the start |
| `Patterns.AtSignStart` | main.py:152-155 | `@` under `re.match`: only at the start |
| `Patterns.NumberDotMatches` | main.py:114 | The scanning predicate for `^\d+\.` agrees with the reading "some digit run followed by a dot" |
| `Patterns.TwoLevelNumberMatches` | main.py:131 | The scanning predicate for `^\d+\.\d+` agrees with the reading "digit run, dot, digit" |
| `Patterns.ThreeLevelNumberMatches` | main.py:129 | The scanning predicate for `^\d+\.\d+\.\d+` agrees with the existence of a split "digits, dot, digits, dot, digit" |
| `Patterns.DigitsThenDotUnique` | main.py:129 | `\d+\.` can match from a position in exactly one way, with the maximal digit run |
| `Patterns.SpacesThenDigitMatches` | main.py:151 | The scanning predicate for `\s*\d` agrees with "some run of spaces, then a digit" |
| `Patterns.NumberPatternsNested` | main.py:129-133 | `N.N.N` implies `N.N`, and `N.N` implies `N.`. `N.` not followed by a digit excludes `N.N` |
| `Patterns.StartsWithDigit` | main.py:133 | The first character is an ASCII digit: what the lookahead `(?!\d)` rules out |
| `Patterns.AfterNumberDot` | main.py:133 | What follows the match of `^\d+\.`: strictly shorter than the text |
| `Patterns.OneDigitThenDot` | main.py:114 | A digit and a dot at the start match `^\d+\.` with a one-digit run, leaving the text after the dot |
| `Patterns.NumberDotNoDigit` | main.py:133 | `^\d+\.(?!\d)`: `N.` not followed by a digit; excludes `N.N` by `Patterns.NumberPatternsNested` |
| `Patterns.BareNumberEnumerator` | main.py:108 | `^\d+\.?\s*$` (also main.py:187): a digit run, an optional dot, then only whitespace; never an application-form line by `Forms.BareNumberIsNoApplication` |
| `Patterns.BareLetterEnumerator` | main.py:108 | `^[a-zA-Z]\)\s*$`: an ASCII letter, `)`, then only whitespace |
| `Patterns.ShortTail` | main.py:191 | `.{1,30}$` matches the whole rest: 1 to 30 non-newline characters, optionally followed by one final newline |
| `Patterns.ShortTailAt` | main.py:191 | `\s*` matches up to `j` and `.{1,30}$` matches from `j` to the end |
| `Patterns.NumberedShortLine` | main.py:191 | `^\d+\.\s*.{1,30}$`: a number and a dot, then some split of the rest into whitespace and a short tail |
| `Patterns.SpacesThenDigit` | main.py:151-152 | `\s*\d` at the start; characterised by `Patterns.SpacesThenDigitMatches` |
| `Patterns.DigitsThenDot` | main.py:114 | One way for `\d+\.` to match from position `a`: a digit run and a dot; unique by `Patterns.DigitsThenDotUnique` |
| `Patterns.ThreeLevelSplit` | main.py:129 | A split of the text as digits, dot, digits, dot, digit |
| `Patterns.ThreeLevelNumberHasSplit` | main.py:129 | A three-level number has such a split |
| `Patterns.SplitIsThreeLevelNumber` | main.py:129 | Any such split makes the text a three-level number |
| `Styles.FontSizes` | main.py:240 | Every non-empty block's size is collected, and nothing else |
| `Styles.FontSizesCons` | main.py:240 | A block gives its size, or nothing when its text is empty, and a block in front puts its part in front: the sizes come in block order, one per block with text |
| `Styles.BodyRangeSizes` | main.py:244 | Keeps exactly the sizes strictly between 8 and 20, with their multiplicities |
| `Styles.MinOf` | main.py:247 | The result is an element that is at most every element |
| `Styles.MostFrequentFrom` | main.py:249 | The index, at or after `i`, of an element of maximal frequency, with every earlier index in range strictly less frequent |
| `Styles.MostCommon` | main.py:249 | The result is an element of maximal frequency, and the first to occur among the most frequent, as `Counter.most_common(1)` picks it |
| `Styles.DistinctDescending` | main.py:251 | The result is strictly decreasing and holds exactly the sizes that occur |
| `Styles.HeadingSizes` | main.py:252 | Keeps, in strictly decreasing order, exactly the sizes `>= 1.15*body` and `> body` |
| `Styles.HeadingSizeIsFactorTest` | main.py:252 | `100*size >= 115*body and size > body` holds iff `size >= body*1.15 and size > body` in exact arithmetic |
| `Styles.LevelAt` | main.py:254 | Position `i` gets level `H{i+1}` |
| `Styles.CountAbove` | main.py:251-254 | In a strictly decreasing list, exactly `a` elements exceed the one at position `a` |
| `Styles.MappedLevelRank` | main.py:254 | Over a strictly decreasing list, a mapped size's level number is one more than the number of larger sizes in the list |
| `Styles.HeadingSizeRanks` | main.py:251-254 | A mapped size's level number is one more than the number of observed heading sizes larger than it |
| `Styles.SizeLevelsShape` | main.py:251-256 | The map has at most 4 keys, each an observed heading size; a larger size gets a lower-numbered level; no two sizes share a level; a heading size is missing only when four larger sizes took the four levels |
| `Styles.ProfileLevelRanks` | main.py:235-256 | In the profile of a document, a mapped size gets `H{n+1}` where `n` counts the document's larger heading sizes |
| `Styles.AnalyzeDocumentStyles` | main.py:235-242 | No block with text gives body size 12 and an empty map |
| `Styles.BodySizeChoice` | main.py:244-249 | The body size is an observed size. If some size is in the body range, it is in range and no in-range size is more frequent. Otherwise it is the smallest size |
| `Styles.SizeLevelsProperties` | main.py:251-256 | The map has at most 4 keys, each observed, `> body` and `>= 1.15*body`. The i-th largest heading size gets `H{i+1}`: a mapped size's level number is one more than the number of larger heading sizes. A larger size gets a lower-numbered level, and no two sizes share a level. A heading size is missing only when four larger sizes took the four levels |
| `Styles.LevelMapOrder` | main.py:254 | On a strictly decreasing list, levels follow the order of the sizes, and a size is left out only after four larger ones |
| `Styles.SizeLevelsCount` | main.py:254 | The map holds `min(len(sizes), 4)` sizes |
| `Styles.InBodyRange` | main.py:244 | `8 < size < 20` |
| `Styles.BodySize` | main.py:244-249 | `most_common_size`: the most common in-range size, or the smallest size when none is in range; characterised by `Styles.BodySizeChoice` |
| `Styles.ProfileBodySize` | main.py:240-249 | For a document with text, the profile's body size is `BodySize` of its font sizes |
| `Styles.StrictlyDecreasing` | main.py:251 | The order of `sorted(set(...), reverse=True)`: every element larger than every later one |
| `Styles.InsertDescending` | main.py:251 | Inserting into a strictly decreasing list keeps it strictly decreasing and adds exactly the new value |
| `Styles.IsHeadingSize` | main.py:252 | `s >= body*1.15 and s > body`, cross-multiplied; equal to the real test by `Styles.HeadingSizeIsFactorTest` |
| `Styles.SizeLevels` | main.py:254 | `size_to_level`: the first four heading sizes mapped to `H1`..`H4` by position; characterised by `Styles.SizeLevelsDomain`, `Styles.SizeLevelsAt` and `Styles.SizeLevelsCount` |
| `Styles.SizeLevelsDomain` | main.py:254 | Every key is one of the first four sizes of the list |
| `Styles.SizeLevelsAt` | main.py:254 | Over a strictly decreasing list, each of the first four sizes is a key, and the size at position `j` maps to `H{j+1}` |
| `Styles.LevelMapPair` | main.py:254 | Of two mapped sizes, the larger has the lower-numbered level |
| `Styles.LevelMapMissing` | main.py:254 | A listed size that is not mapped comes after four mapped sizes, all larger |
| `Filters.CollectSameRow` | main.py:98-103 | The loop builds exactly `SameRowBlocks`: the blocks within the row tolerances of the given block, in document order |
| `Filters.CountNearbyNumbered` | main.py:111-115 | The loop counts exactly the surrounding blocks within 50 whose text starts with `\d+\.` |
| `Filters.TableSubpoint` | main.py:94-117 | True iff at least 3 surrounding blocks have their top within 10, or the stripped text is a bare `\d+\.?` / `[a-zA-Z])`, or at least 3 blocks within 50 start with `\d+\.` |
| `Filters.SameRowMembers` | main.py:101-103 | The row holds exactly the surrounding blocks within the row tolerance |
| `Filters.IsTableSubpoint` | main.py:94-117 | At least 3 blocks in the row, or a bare enumerator, or at least 3 numbered blocks within 50; computed by `Filters.TableSubpoint` and monotone by `Filters.TableSubpointMonotone` |
| `Filters.TableSubpointMonotone` | main.py:101-117 | Inserting blocks into the surrounding set never turns true into false |
| `Filters.OwnRowIncludesSelf` | main.py:101-105 | A block in its own surrounding set is in its own row |
| `Filters.IsPlausibleHeading` | main.py:141-172 | The rejection rules in the source's order; characterised in both directions by `Filters.PlausibleHeadingSound` and `Filters.PlausibleHeadingComplete` |
| `Filters.PlausibleHeadingSound` | main.py:141-172 | A plausible heading meets all of these: not a table sub-point; no junk pattern at the start; 1..20 words and at least 2 characters; no final `,` or `;`; no final `.` with more than 8 words; larger than the body or bold; not all upper case with more than 5 words |
| `Filters.PlausibleHeadingComplete` | main.py:141-172 | A block meeting all of these conditions is a plausible heading |
| `Filters.ShoutedLineRejected` | main.py:169-170 | An upper-case line of more than five words is rejected whatever its font |
| `Filters.PlausibleHeadingAntitone` | main.py:147-148 | A larger surrounding set can only reject more blocks |
| `Filters.PlausibleHeadingBodySize` | main.py:166-167 | A larger body size can only reject more blocks |
| `Filters.PlausibleHeadingHasText` | main.py:158-159 | A plausible heading has non-blank text |
| `Filters.InSameRow` | main.py:102 | The tops are less than 10 apart |
| `Filters.IsNearbyNumbered` | main.py:113-114 | The tops are less than 50 apart and the raw text matches `^\d+\.` |
| `Filters.SameRowBlocks` | main.py:98-103 | `same_row_blocks`: the surrounding blocks in the row, in order, no more than the surrounding ones; members by `Filters.SameRowMembers` |
| `Filters.SameRowBlocksAppend` | main.py:101-103 | The row filter distributes over concatenation of the surrounding blocks |
| `Filters.NearbyNumberedCount` | main.py:111-115 | `nearby_numbered`: how many surrounding blocks are nearby and numbered, at most their number |
| `Filters.NearbyNumberedCountAppend` | main.py:111-115 | The count adds up over concatenation of the surrounding blocks |
| `Filters.IsBareEnumerator` | main.py:108 | The stripped text is a bare number or a bare letter enumerator |
| `Filters.EndsWith` | main.py:163 | `text.endswith(c)` for one character |
| `Forms.FirstPageBlocks` | main.py:176 | Exactly the page-1 blocks |
| `Forms.FirstPageBlocksAppend` | main.py:176 | The filter distributes over concatenation, so the page-1 blocks keep their order |
| `Forms.FirstPageBlocksCount` | main.py:176 | Each page-1 block is kept as many times as it occurs, and any other block is dropped |
| `Forms.FormIndicator` | main.py:184-194 | Each line adds exactly 0, 1 or 3 |
| `Forms.FormIndicatorTotal` | main.py:184-194 | The sum of the line weights, at most 3 per line |
| `Forms.IsFormLike` | main.py:181-196 | Some page-1 line exists and `5*indicators > 2*lines`; equivalent to the 0.4 ratio by `Forms.FormLikeIsRatioTest` |
| `Forms.CountFormIndicators` | main.py:184-194 | The loop computes `FormIndicatorTotal` of the first-page lines |
| `Forms.IsFormLikeDocument` | main.py:174-196 | The result is true iff there are page-1 lines and `5*indicators > 2*lines` |
| `Forms.RatioTest` | main.py:196 | `ind/total > 0.4` in exact arithmetic iff `5*ind > 2*total` |
| `Forms.FormLikeIsRatioTest` | main.py:181-196 | Form-like iff there are page-1 lines and their indicator ratio exceeds 0.4 |
| `Forms.TotalCountsIndicatorLines` | main.py:184-194 | The total is at least the number of lines that trigger a rule |
| `Forms.MostlyIndicatorsIsForm` | main.py:184-196 | If more than 40% of page-1 lines trigger a rule, the document is a form |
| `Forms.NoIndicatorsNoForm` | main.py:184-194 | Lines that trigger no rule give a total of 0 |
| `Forms.ApplicationFormLineWeight` | main.py:184-194 | The total is at least the weight of any single line |
| `Forms.BareNumberIsNoApplication` | main.py:187-190 | A bare number never mentions an application form, so the first two rules never compete |
| `Forms.ApplicationFormMakesForm` | main.py:189-190 | An "application ... form" line makes a page of at most 7 lines a form |
| `Forms.LabelIndicator` | main.py:193-194 | A one-word label with a colon, not starting with a digit and shorter than "application", adds exactly 1 |
| `Forms.CommonLabels` | main.py:193-194 | "Name:", "Date:" and "Signature:" each add 1 |
| `Forms.TotalAtLeastIndicatorLines` | main.py:184-194 | `n` leading lines that each add at least 1 make a total of at least `n` |
| `Forms.AllOnFirstPage` | main.py:176 | When every block is on page 1, the first page is the whole list |
| `Forms.ThreeIndicatorsOfSixIsForm` | main.py:174-196 | Six page-1 lines, any three of which trigger a rule, make a form |
| `Forms.MentionsApplicationForm` | main.py:189 | The lower-cased text contains both `application` and `form` |
| `Forms.IsLabel` | main.py:193 | At most three words and a colon somewhere in the text |
| `Forms.IndicatorLineCount` | main.py:184-194 | The number of lines that trigger some rule, at most the number of lines; bounds the total by `Forms.TotalCountsIndicatorLines` |
| `Titles.EarlyBlocks` | main.py:200 | Exactly the blocks on pages 1 and 2 |
| `Titles.EarlyBlocksAppend` | main.py:200 | The filter distributes over concatenation, so the early blocks keep their order |
| `Titles.EarlyBlocksCount` | main.py:200 | Each block of pages 1-2 is kept as many times as it occurs, and any other block is dropped |
| `Titles.AboveAverageIsAverageTest` | main.py:220-221 | `5*size*count > 6*sum` iff `size > (sum/count)*1.2` in exact arithmetic |
| `Titles.TitleScore` | main.py:207-226 | The score is between 0 and 9. A line near the top scores at least 3, and one below scores at most 6. A line near the top, centred and bold scores at least 7 |
| `Titles.ScoreLine` | main.py:208-226 | The additive scoring computes `TitleScore` of the line |
| `Titles.ScoreCandidates` | main.py:205-228 | The loop builds one `(score, block)` per early line, in order |
| `Titles.CandidateScoreAt` | main.py:205-228 | Each candidate carries its line's score |
| `Titles.SortByScore` | main.py:230 | The result is sorted by descending score, with the same length |
| `Titles.InsertByScore` | main.py:230 | Insertion into a list sorted by descending score gives a sorted list one longer, headed by the new candidate when the old head does not score more |
| `Titles.InsertByScorePosition` | main.py:230 | The result is the old list with the new candidate inserted after every candidate that scores more and before the first that does not |
| `Titles.InsertedAt` | main.py:230 | Defines insertion at position `i` with every earlier candidate scoring more and the next one not |
| `Titles.SortByScorePermutes` | main.py:230 | The sort is a permutation |
| `Titles.FirstBest` | main.py:230-231 | The index of the first candidate with maximal score |
| `Titles.SortHeadIsFirstBest` | main.py:230-231 | Because the sort is stable, its head is the first best candidate |
| `Titles.DocumentTitle` | main.py:198-203 | No box iff no block on pages 1-2, and then the title is "Untitled Document" |
| `Titles.TitleIsFirstBest` | main.py:198-233 | The title is the text and box of the first early line, in input order, whose score is maximal |
| `Titles.TitleNearTop` | main.py:211-218 | If some early line is near the top, centred and bold, the title lies near the top |
| `Titles.FindDocumentTitle` | main.py:198-233 | The method returns `DocumentTitle`: "Untitled Document" and no box when pages 1-2 have no lines, otherwise the text and box of the first line of pages 1-2 with the highest score |
| `Titles.SumFontSizes` | main.py:220 | `sum(b['font_size'] for b in first_page_blocks)` |
| `Titles.AboveAverageSize` | main.py:220-221 | `font_size > avg * 1.2`, cross-multiplied; equal to the real test by `Titles.AboveAverageIsAverageTest` |
| `Titles.NearTop` | main.py:211-212 | `y_relative < 0.3` |
| `Titles.Centred` | main.py:214-215 | `0.2 < x_relative < 0.8` |
| `Titles.CandidateScore` | main.py:207-226 | A line's score against the sizes of all early lines |
| `Titles.CandidatesFrom` | main.py:205-228 | One candidate per line, in order, carrying that line; scores by `Titles.CandidatesFromScore` |
| `Titles.CandidatesFromScore` | main.py:205-228 | The candidate at position `i` carries the score of line `i` |
| `Titles.Candidates` | main.py:205-228 | `title_candidates`: one candidate per early line, in order, carrying that line |
| `Titles.SortedByScore` | main.py:230 | The order of `sort(key=score, reverse=True)`: scores never increase |
| `Titles.InsertByScorePermutes` | main.py:230 | Insertion adds exactly the new candidate to the multiset |
| `Titles.IsFirstBestLine` | main.py:230-232 | Line `k` has the highest score and every earlier line scores less |
| `Titles.FirstBestCandidateIsFirstBestLine` | main.py:230-232 | The first best candidate's index is the first best line |
| `Outline.JoinTextsContainsEach` | main.py:277 | Every first-page text occurs whole in the joined sample |
| `Outline.FirstPageTextCoversPageOne` | main.py:277-278 | Language detection sees every page-1 line |
| `Outline.Surrounding` | main.py:299-301 | The same-page blocks whose tops are less than 100 apart, in order; characterised by `Outline.SurroundingMembers` |
| `Outline.SurroundingMembers` | main.py:299-301 | The surrounding set is exactly the same-page blocks whose tops are less than 100 apart |
| `Outline.SurroundingHoldsSelf` | main.py:299-301 | The block is in its own surrounding set |
| `Outline.SameRowThroughSurrounding` | main.py:299-303 | The row filter sees the same row through the surrounding set as through the whole page |
| `Outline.LevelFor` | main.py:306-313 | Numbering first, then the size map, then H3 for bold text larger than the body; characterised by `Outline.LevelSources` |
| `Outline.NumberingTakesPrecedence` | main.py:306-309 | A numbering level decides whatever the size and weight |
| `Outline.SizeMapBeforeBold` | main.py:310-313 | Without numbering, a mapped size decides whatever the weight |
| `Outline.LevelSources` | main.py:306-313 | A level exists iff numbering, the size map or "bold and larger than body" gives one |
| `Outline.EntryFor` | main.py:289-320 | The entry of one block, or none when a `continue` or a missing level skips it; characterised by `Outline.EntryForHeading` |
| `Outline.EntryForHeading` | main.py:289-320 | An entry is made exactly for blocks passing every test, with their level, text and page |
| `Outline.SomesMembers` | main.py:315-320 | The appended entries are exactly the ones produced |
| `Outline.RawOutline` | main.py:288-320 | The entries of the first pass in block order, one per block at most |
| `Outline.RawOutlineEntryOrigin` | main.py:289-320 | Every raw entry is the entry of some block |
| `Outline.RawOutlineHasEntry` | main.py:289-320 | Every entry made for a block is in the raw outline |
| `Outline.KeySetMembers` | main.py:326-329 | A key is seen iff some entry carries it |
| `Outline.FirstIndex` | main.py:323-329 | The first position of a key |
| `Outline.Dedup` | main.py:322-329 | Duplicate removal, no longer than its input; its properties are `Outline.DedupKeySet`, `Outline.DedupKeepsFirst`, `Outline.DedupOrder` and `Outline.DedupUnique` |
| `Outline.DedupKeySet` | main.py:323-329 | Duplicate removal keeps every `(text, page)` pair |
| `Outline.DedupKeepsFirst` | main.py:323-329 | Each kept entry is its key's first occurrence |
| `Outline.DedupOrder` | main.py:323-329 | Kept entries follow the order of first occurrence |
| `Outline.DedupKeepsFirstOccurrences` | main.py:323-329 | The deduplicated outline covers every pair. It is a subsequence of the raw outline, indexed by strictly increasing first occurrences |
| `Outline.DedupUnique` | main.py:323-329 | No two kept entries share text and page |
| `Outline.RemoveDuplicates` | main.py:322-329 | The `seen`-set loop computes `Dedup`: the first entry with each (text, page) key, in order |
| `Outline.ChooseLevel` | main.py:306-313 | The level chain computes `LevelFor` |
| `Outline.HeadingEntry` | main.py:289-320 | One iteration of the first pass, with its `continue`s, computes `EntryFor` of the block |
| `Outline.CollectHeadings` | main.py:288-320 | The first pass computes the raw outline |
| `Outline.ProcessBlocks` | main.py:276-331 | The pipeline computes `Process` |
| `Outline.Process` | main.py:272-331 | The no-text result, the form result or the deduplicated outline; its properties are `Outline.NoOutlineCases`, `Outline.OutlineEntriesAreHeadings`, `Outline.HeadingsAreInOutline` and `Outline.OutlineUnique` |
| `Outline.NoOutlineCases` | main.py:272-286 | No blocks give the "no extractable text" title. A form keeps its title and gets an empty outline |
| `Outline.AssembledEntriesAreHeadings` | main.py:288-331 | Every assembled entry comes from a block passing every test |
| `Outline.OutlineEntriesAreHeadings` | main.py:276-331 | Every outline entry belongs to a block of a non-form document that is not the title box, lies in the body area, is a plausible heading and has a level |
| `Outline.OutlineExcludesTitleAndMargins` | main.py:289-296 | No entry comes from the title's box or from a block whose top is above 8% or below 92% of the page |
| `Outline.AssembledHeadingsPresent` | main.py:288-331 | Every block passing the tests has its `(text, page)` in the outline |
| `Outline.HeadingsAreInOutline` | main.py:276-331 | The same holds for the whole pipeline |
| `Outline.OutlineUnique` | main.py:322-331 | No two outline entries share text and page |
| `Outline.TableRowIsNotHeading` | main.py:101-106 | A line sharing its row with two or more other lines of its page never becomes an entry |
| `Outline.JoinTexts` | main.py:277 | `" ".join(texts)`; every text occurs in it whole by `Outline.JoinTextsContainsEach` |
| `Outline.FirstPageText` | main.py:277 | The page-1 texts joined with spaces; covers page 1 by `Outline.FirstPageTextCoversPageOne` |
| `Outline.SamePageBlocks` | main.py:300 | The blocks on the page of `b`, in order, no more than all blocks |
| `Outline.SamePageMembers` | main.py:300 | Exactly the blocks on the page of `b` |
| `Outline.InBodyArea` | main.py:294-296 | `0.08 <= y_relative <= 0.92`: neither header nor footer |
| `Outline.IsHeadingBlock` | main.py:289-313 | The block is not the title's box, has text, lies in the body area, is a plausible heading and gets a level |
| `Outline.Somes` | main.py:315-320 | The entries present in a list of optional entries, in order, no more than the list |
| `Outline.EntryOptions` | main.py:289-320 | `EntryFor` of each block, position by position, one per block |
| `Outline.KeyOf` | main.py:326 | `identifier = (text, page)` |
| `Outline.KeySet` | main.py:324-329 | `seen` after a pass over the entries; members by `Outline.KeySetMembers` |
| `Outline.Assemble` | main.py:285-331 | A form keeps its title and gets an empty outline; otherwise the deduplicated first-pass outline; its properties are `Outline.AssembledEntriesAreHeadings` and `Outline.AssembledHeadingsPresent` |
| `Outline.IsEntryOf` | main.py:315-320 | `e` is the entry made for the heading block `b`: its level, text and page |
| `Text.Strip` | main.py:96 | `str.strip()`: no whitespace at either end of a non-empty result |
| `Text.StripRemovesSpace` | main.py:96 | `strip` keeps a run of the text and removes only whitespace around it |
| `Text.Lower` | main.py:189 | `str.lower()` for ASCII and Latin-1, character by character, same length |
| `Text.IsUpper` | main.py:169 | `str.isupper()`: some upper-case letter and no lower-case letter |
| `Text.Split` | main.py:144 | `str.split()`: the maximal runs of non-space characters |
| `Text.SplitWords` | main.py:144 | Every piece of `split()` is a non-empty run without whitespace |
| `Text.IsSplitOf` | main.py:144 | Defines a decomposition of a string into whitespace and maximal non-space runs, in order |
| `Text.LStripAfterSpace` | main.py:144 | `lstrip` of leading whitespace up to a non-space character leaves the rest |
| `Text.SplitIsSplitOf` | main.py:144 | The result of `split()` decomposes the string |
| `Text.SplitOfUnique` | main.py:144 | Any decomposition is the result of `split()` |
| `Text.SplitCharacterised` | main.py:144 | `split()` is exactly the sequence of maximal non-space runs, in order, and is empty iff the string is all whitespace |
| `Text.WordCountBound` | main.py:144-145 | At most `(len+1)/2` words |
| `Text.SplitSingleWord` | main.py:193 | A single word splits into itself |
| `Text.FoldAtIsLowerSlice` | main.py:155 | A case-insensitive literal match is equality of the lower-cased slice with the literal |
| `Text.ContainsAt` | main.py:189 | `sub in s` iff `sub` occurs at some index |
| `Text.IsDigit` | main.py:108 | An ASCII digit, as `\d` is read here |
| `Text.IsAsciiLetter` | main.py:108 | `[a-zA-Z]` |
| `Text.IsSpace` | main.py:96 | CPython's `str.isspace` |
| `Text.AllSpace` | main.py:108 | Every character is whitespace |
| `Text.IsUpperChar` | main.py:169 | An upper-case letter of ASCII or Latin-1, or Ÿ |
| `Text.IsLowerChar` | main.py:169 | A lower-case letter of ASCII or Latin-1 |
| `Text.LowerChar` | main.py:189 | The lower-case form of one character |
| `Text.LStrip` | main.py:96 | `lstrip()`: no leading whitespace; `Text.LStripRemovesSpace` gives the rest |
| `Text.LStripRemovesSpace` | main.py:96 | `lstrip` removes a prefix of whitespace only |
| `Text.RStrip` | main.py:96 | `rstrip()`: no trailing whitespace; `Text.RStripRemovesSpace` gives the rest |
| `Text.RStripRemovesSpace` | main.py:96 | `rstrip` removes a suffix of whitespace only |
| `Text.RStripKeepsHead` | main.py:96 | `rstrip` leaves the first character in place |
| `Text.WordLength` | main.py:144 | The length of the leading non-space run |
| `Text.WordLengthRun` | main.py:144 | That run is non-space and ends at whitespace or at the end |
| `Text.LeadingSpaces` | main.py:151 | The length of the leading whitespace run |
| `Text.LeadingSpacesRun` | main.py:151 | That run is whitespace and ends at a non-space or at the end |
| `Text.LeadingDigits` | main.py:114 | The length of the leading digit run |
| `Text.LeadingDigitsRun` | main.py:114 | That run is digits and ends at a non-digit or at the end |
| `Text.IsWord` | main.py:144 | A non-empty run without whitespace |
| `Text.WordAt` | main.py:144 | A word at index `i`, preceded only by whitespace and followed by whitespace or the end |
| `Text.WordCount` | main.py:145 | `len(text.split())`; bounded by `Text.WordCountBound` |
| `Text.SplitWord` | main.py:144 | A word followed by a space is split off as the first piece |
| `Text.OccursAt` | main.py:189 | `sub` occurs at index `i` |
| `Text.Contains` | main.py:189 | `sub in s`; equal to occurrence at some index by `Text.ContainsAt` |
| `Text.FoldAt` | main.py:151-155 | A case-insensitive match of a lower-case ASCII literal at `i`; characterised by `Text.FoldAtIsLowerSlice` |

## Left out

- PDF reading (`validate_pdf_input`, `extract_text_blocks`, the file checks of `process_pdf`) is left out, because it is I/O through PyMuPDF. The block list and its derived fields (`is_bold`, `y_relative`, `x_relative`, the rounded font size) are inputs.
- The "Empty Document" result for a PDF with zero pages (main.py:265-266) is left out, because it is decided by the reader before any block exists. Only the "no extractable text" result for an empty block list is modelled.
- `main` is left out: directory listing, JSON output, logging and the file-size and page-count limits are orchestration and I/O.
- Floating point is not modelled. Positions are exact reals and thresholds are compared by cross-multiplication, so rounding of `bbox[1] / page.rect.height`, of the average font size and of `1 - 0.08` is not modelled.
- `Patterns` is not a general regular-expression engine. `\d` is ASCII digits only, whereas Python's `\d` also accepts other Unicode decimal digits such as full-width ones. Under `re.IGNORECASE`, the ASCII letters of a pattern match only their ASCII upper- and lower-case forms. So the Kelvin sign, the long s, the dotless ı and the dotted İ do not match `k`, `s` and `i`: "Fıg 3" and "FİG 3" are junk for `main.py` but not for the model.
- `Text` does not model the full Unicode tables. `str.lower` and `str.isupper` are modelled for ASCII and Latin-1, plus Ÿ (U+0178), an upper-case letter whose lower-case form ÿ is in Latin-1; every other character is treated as uncased. Whitespace follows CPython's `str.isspace` exactly.
- Logging in `process_pdf` is left out.
