# Lyric classification engine: a verified Dafny model

This project models the text classification engine of a small lyrics service,
`src/services/analysis.py`. The engine classifies a multi-line text in two ways:

- **Rhyme scheme.** It takes the last word of each non-blank line and turns it into
  a rhyme key. The key is the word's rhyming part from a pronunciation dictionary,
  or its last two letters when the dictionary has no answer. The first four keys
  are then matched against the guarded patterns ABAB, AABB and ABBA, in that order.
  If none matches, the scheme is FREE.
- **Tone.** A sentiment score is put into one of three buckets: uplifting,
  melancholic or confident.

The `analyze` facade trims the lines, drops the blank ones and runs both
classifiers. `rewrite` then picks one of the pre-authored four-line stanzas for the
detected tone and wraps it in a fixed payload.

Files:

- `text.dfy`, module `PyText`: the Python string operations the engine relies on.
  These are `str.lower`, `str.strip` (with `lstrip` / `rstrip`), `str.splitlines`,
  and `re.findall` with the pattern `[A-Za-z']+`. Each is proved against a
  characterisation: strip returns a slice with only whitespace outside it,
  splitlines reverses a `"\n"` join, and the last `findall` match is the last
  maximal run of word characters.
- `analysis.dfy`, module `Analysis`: the engine itself.
  - The dictionary is a `Pronouncer` value with two function fields,
    `phonesForWord` and `rhymingPart`.
  - The sentiment scorer is a function parameter `polarity: string -> real`.
  - The random stanza draw in `rewrite` is an index `pick` that the caller
    supplies. It must be below the length of the tone's stanza list.

Everything is a pure function, as in the source. The source has no loops and no
in-place updates.

On three points the code is easy to misread; the model follows the code:

- `analyze` short-circuits only on the empty string, not on whitespace-only text.
  Text made only of whitespace goes through the normal path. It keeps no lines and
  is FREE, and its tone comes from the scorer (`Analysis.WhitespaceText`). In the
  deployed service the HTTP layer strips the request text first, so such text
  arrives there as "".
- The fallback key is computed when the dictionary has no pronunciation, and also
  when `rhymingPart` returns nothing or an empty string. This is because the source
  combines the two with Python's `or`.
- The thresholds are the float literals `0.3` and `-0.3`. The model uses the exact
  value of the binary64 number nearest to 3/10, which is slightly smaller than 3/10
  (`Analysis.Threshold`). Scores are taken to be the exact values of the scorer's
  floats. A score that prints as `0.3` is therefore uplifting, exactly as in Python.

## Model

| member | source | states |
|---|---|---|
| `PyText.FindWords` | src/services/analysis.py:10 | every match of `[A-Za-z']+` is non-empty and made only of letters and apostrophes |
| `PyText.FindWordsLast` | src/services/analysis.py:28 | `findall` finds nothing iff the line has no word character; otherwise its last match is the last maximal run `s[i..j]` of word characters |
| `PyText.LastRunUnique` | src/services/analysis.py:28-29 | a line has at most one last maximal run, so the token is determined by the line |
| `PyText.Lower` | src/services/analysis.py:21 | lower-casing keeps the length and maps each character to its ASCII lower-case form; `PyText.LowerIdempotent` and `PyText.LowerWordChars` give its properties |
| `PyText.TrimLeft` | src/services/analysis.py:42 | `lstrip` never lengthens the line; `PyText.TrimLeftSpec` states what it removes |
| `PyText.TrimRight` | src/services/analysis.py:42 | `rstrip` never lengthens the line; `PyText.TrimRightSpec` states what it removes |
| `PyText.TrimLeftSpec` | src/services/analysis.py:42 | `lstrip` leaves a suffix that does not start with whitespace, and removes only whitespace |
| `PyText.TrimRightSpec` | src/services/analysis.py:42 | `rstrip` leaves a prefix that does not end with whitespace, and removes only whitespace |
| `PyText.Strip` | src/services/analysis.py:42 | the stripped line is empty iff the line is all whitespace; otherwise it starts and ends with a non-space character |
| `PyText.StripSlice` | src/services/analysis.py:58 | the stripped line is a slice `s[i..j]` with only whitespace before `i` and after `j` |
| `PyText.StripIdempotent` | src/services/analysis.py:58 | stripping an already stripped line changes nothing |
| `PyText.SplitLines` | src/services/analysis.py:58 | no line contains a line break; the text has lines iff it is non-empty |
| `PyText.SplitLinesChars` | src/services/analysis.py:58 | every line is made of characters of the text |
| `PyText.SplitLinesCons` | src/services/analysis.py:58 | a break-free line followed by `"\n"` is split off as the first line, and splitting goes on after the terminator |
| `PyText.SplitJoinRoundTrip` | src/services/analysis.py:58 | splitting a `"\n"` join of break-free lines, the last one non-empty, returns those lines |
| `PyText.LineBreakIsSpace` | src/services/analysis.py:58 | every line boundary is whitespace for strip |
| `PyText.LowerIdempotent` | src/services/analysis.py:21 | lower-casing twice equals lower-casing once |
| `PyText.LowerWordChars` | src/services/analysis.py:29 | lower-casing a run of word characters keeps them word characters and leaves no upper-case letter |
| `Analysis.LineEndToken` | src/services/analysis.py:27-29 | the token is made of word characters and has no upper-case letter |
| `Analysis.LineEndTokenIsLastRun` | src/services/analysis.py:27-29 | the token is "" iff the line has no `[A-Za-z']` character; otherwise it is the lower-cased last maximal run |
| `Analysis.LineEndTokenOf` | src/services/analysis.py:27-29 | for `pre + w + post`, where `w` is a run not continued from `pre` and `post` has no word character, the token is `w` lower-cased |
| `Analysis.LastTwo` | src/services/analysis.py:23 | `word[-2:]` is the suffix of length two, or the whole word when it is shorter |
| `Analysis.RhymeKey` | src/services/analysis.py:20-24 | a non-empty word never gets an empty key |
| `Analysis.RhymeKeyFallback` | src/services/analysis.py:20-24 | the key is `rhyming_part(phones[0])` when that is non-empty; if there is no pronunciation, or the rhyming part is empty or missing, it is the last two characters of the lower-cased word |
| `Analysis.RhymeKeyIgnoresCase` | src/services/analysis.py:21-24 | the key of a word equals the key of its lower-cased form |
| `Analysis.UnknownWordKey` | src/services/analysis.py:21-23 | a word without a pronunciation ("zzXXQQ") has the key "qq" |
| `Analysis.NonBlank` | src/services/analysis.py:42 | only lines that are non-blank after stripping are kept, each of them an input line; completeness and order are `Analysis.NonBlankInOrder` |
| `Analysis.NonBlankInOrder` | src/services/analysis.py:42 | the kept lines are a subsequence of the input, and every non-blank line is kept exactly as often as it occurs |
| `Analysis.RhymeKeys` | src/services/analysis.py:42-43 | there is one key per non-blank line, in order: key i is the rhyme key of line i's end token |
| `Analysis.Classify` | src/services/analysis.py:45-52 | the three guarded patterns, checked in the source's order; its meaning is stated by `Analysis.ClassifyExact` and `Analysis.GuardsExclusive` |
| `Analysis.DetectRhymeScheme` | src/services/analysis.py:41-52 | the scheme of the first four non-blank lines' keys; stated by `Analysis.ShortInputIsFree`, `Analysis.SchemeOfFirstFour`, `Analysis.FirstFourOnly`, `Analysis.BlankLinesIrrelevant` and `Analysis.BlankLineIgnored` |
| `Analysis.ClassifyExact` | src/services/analysis.py:45-52 | ABAB iff a==c, b==d, a!=b; AABB iff a==b, c==d, a!=c; ABBA iff a==d, b==c, a!=b; FREE iff none of these; four equal keys give FREE |
| `Analysis.GuardsExclusive` | src/services/analysis.py:46-51 | no two of the three guarded conditions can hold together, so the order of the checks does not matter |
| `Analysis.ShortInputIsFree` | src/services/analysis.py:44-52 | fewer than four non-blank lines (including none) give FREE |
| `Analysis.SchemeOfFirstFour` | src/services/analysis.py:41-52 | with four or more non-blank lines, the scheme is the pattern of the keys of the first four |
| `Analysis.NonBlankAppend` | src/services/analysis.py:42 | filtering blank lines distributes over concatenation |
| `Analysis.NonBlankIdempotent` | src/services/analysis.py:42 | filtering twice equals filtering once |
| `Analysis.BlankLinesIrrelevant` | src/services/analysis.py:42-52 | classifying only the non-blank lines gives the same scheme |
| `Analysis.FirstFourOnly` | src/services/analysis.py:45 | once there are four non-blank lines, appending any lines leaves the scheme unchanged |
| `Analysis.BlankLineIgnored` | src/services/analysis.py:42 | inserting a blank line anywhere leaves the scheme unchanged |
| `Analysis.ToneOf` | src/services/analysis.py:34-38 | the bucket of a score; its buckets are stated by `Analysis.ToneThresholds` and `Analysis.ToneMonotone` |
| `Analysis.DetectTone` | src/services/analysis.py:32-38 | the bucket of the scorer's score of the whole text, as `Analysis.Analyze` reports it for every non-empty text |
| `Analysis.ToneThresholds` | src/services/analysis.py:32-38 | uplifting iff score >= 0.3, melancholic iff score <= -0.3, confident iff strictly between; 0.3 itself is uplifting and -0.3 melancholic (as floats and as exact reals) |
| `Analysis.ToneMonotone` | src/services/analysis.py:34-38 | a higher score never gives a lower tone (melancholic, then confident, then uplifting) |
| `Analysis.LabelsInjective` | src/services/analysis.py:35-52 | distinct schemes and distinct tones are reported as distinct strings |
| `Analysis.StrippedLines` | src/services/analysis.py:58 | every kept line is non-empty and already stripped |
| `Analysis.Analyze` | src/services/analysis.py:55-61 | `analyze("")` is `([], FREE, confident)`; any other text gets the tone of the scorer's score of the whole text; every returned line is stripped and non-empty |
| `Analysis.StrippedLinesInOrder` | src/services/analysis.py:58 | the kept lines are a subsequence of the stripped lines, and each non-empty stripped line is kept as often as it occurs |
| `Analysis.AnalyzeKeepsLines` | src/services/analysis.py:58 | `analyze` keeps the stripped non-blank lines of the text, in their original order and with their multiplicities, and no empty line |
| `Analysis.AnalyzeScheme` | src/services/analysis.py:58-59 | on `analyze`'s lines the classifier drops nothing more: FREE below four lines, otherwise the pattern of the first four lines' keys |
| `Analysis.NonBlankOfStripped` | src/services/analysis.py:42 | lines that are already stripped and non-empty pass the blank-line filter unchanged |
| `Analysis.WhitespaceText` | src/services/analysis.py:56-61 | non-empty text made only of whitespace gives no lines and FREE, with the tone of its score |
| `Analysis.BlankLinesStripToNothing` | src/services/analysis.py:58 | lines made only of whitespace keep nothing |
| `Analysis.StrippedLinesOfStripped` | src/services/analysis.py:58 | lines that are already stripped and non-empty are all kept, unchanged |
| `Analysis.AnalyzeJoinedLines` | src/services/analysis.py:55-61 | analysing clean lines joined with `"\n"` returns those lines, with their scheme and the tone of the text's score |
| `Analysis.SubsequenceSkip` | src/services/analysis.py:42-58 | a subsequence stays one when any line is put in front of the sequence it is taken from, as happens for each dropped blank line |
| `Analysis.TemplateTable` | src/services/analysis.py:64-107 | the table has exactly the keys uplifting, melancholic and confident, two stanzas each, and every stanza has four lines |
| `Analysis.Candidates` | src/services/analysis.py:113 | the stanza list of the tone's label, with the confident list as default; `Analysis.CandidatesOfTone` shows the default is never taken |
| `Analysis.CandidatesOfTone` | src/services/analysis.py:113 | every tone has its own list of two stanzas, so the `confident` default is never used |
| `Analysis.Rewrite` | src/services/analysis.py:110-124 | detected scheme, tone and line count equal `analyze`'s; the stanza is entry `pick` of the tone's list and has four lines; `chosen_scheme` is always "ABAB"; `source` is the fixed tag |
| `Analysis.RewritePicksInRange` | src/services/analysis.py:113-114 | for any text, both draws 0 and 1 are valid picks from the tone's list |
| `Analysis.EmptyText` | src/services/analysis.py:56-57 | the empty text analyses to `([], FREE, confident)` and rewrites to a confident stanza with line count 0 |

## Left out

- The HTTP layer (`app.py`) is not modelled: Flask routing, JSON and form parsing, the HTML rendering, and the request counters and uptime in `metrics`. It is I/O plumbing and has no algorithmic content.
- The internals of the `pronouncing` package and of VADER's `polarity_scores` are foreign code. `phones_for_word`, `rhyming_part` and the compound score are opaque parameters, so the model makes no claim about which words rhyme or what score a text gets.
- Floating-point arithmetic inside the scorer is not modelled. A score is the exact real value of the float.
- `random.choice` is replaced by the caller-supplied index `pick`. Uniformity and the varying draws across calls are not modelled.
- Case folding is ASCII only. This does not change the engine's behaviour, because lower-casing is only ever applied to `[A-Za-z']` tokens. `Analysis.RhymeKey` does accept any string, and for non-ASCII letters it differs from Python's `str.lower`.
- The whitespace and line-break sets are those of `str.isspace` and `str.splitlines` in current Python, written out as fixed character lists. Changes in later Unicode versions are not followed.
- `_analyzer` is a process-wide object. It is modelled as the plain `polarity` parameter, because it has no state.
- The engine's determinism for `analyze` needs no lemma: `Analysis.Analyze` is a function.
- Whether the first uplifting stanza, once analysed, really classifies as ABAB is not evaluated on its literal text. The verifier's unfolding of the token scan over those literal lines is too expensive. `Analysis.LineEndTokenOf`, `Analysis.AnalyzeJoinedLines` and `Analysis.AnalyzeScheme` state the general facts that such a check would combine.
