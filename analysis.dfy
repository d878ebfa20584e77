/** The lyric classification engine: line-end tokens, rhyme keys with a
    graphemic fallback, the rhyme-scheme classifier, tone buckets, and the
    `analyze` / `rewrite` facade with its stanza table.

    The pronunciation dictionary and the sentiment scorer are foreign code;
    they are parameters here: a `Pronouncer` value and a `Scorer` function.
    The random stanza draw is a caller-supplied index. */
module Analysis {
  import opened PyText

  datatype Option<T> = None | Some(value: T)

  /** The pronunciation dictionary: `phonesForWord` lists the pronunciations
      of a word (empty when the word is unknown), `rhymingPart` gives the part
      of a pronunciation from its last stressed vowel on, or nothing. */
  datatype Pronouncer = Pronouncer(
    phonesForWord: string -> seq<string>,
    rhymingPart: string -> Option<string>)

  /** The compound polarity score of a text. */
  type Scorer = string -> real

  datatype Scheme = ABAB | AABB | ABBA | FREE

  datatype Tone = Uplifting | Melancholic | Confident

  /** The result of `analyze`: the kept lines, the rhyme scheme and the tone. */
  datatype AnalysisResult = AnalysisResult(lines: seq<string>, rhymeScheme: Scheme, tone: Tone)

  /** The string the source returns for a scheme. */
  function SchemeLabel(s: Scheme): string {
    match s
    case ABAB => "ABAB"
    case AABB => "AABB"
    case ABBA => "ABBA"
    case FREE => "FREE"
  }

  /** The string the source returns for a tone. */
  function ToneLabel(t: Tone): string {
    match t
    case Uplifting => "uplifting"
    case Melancholic => "melancholic"
    case Confident => "confident"
  }

  /** Distinct schemes and distinct tones have distinct labels. */
  lemma LabelsInjective(s: Scheme, s': Scheme, t: Tone, t': Tone)
    ensures SchemeLabel(s) == SchemeLabel(s') ==> s == s'
    ensures ToneLabel(t) == ToneLabel(t') ==> t == t'
  {
  }

  // -------------------------------------------------------- line-end token

  /** `_line_end_token`: the lower-cased last `[A-Za-z']+` match of the line,
      or "" when there is none.  The result holds no upper-case letter. */
  function LineEndToken(line: string): (r: string)
    ensures AllWord(r)
    ensures forall k :: 0 <= k < |r| ==> !('A' <= r[k] <= 'Z')
  {
    var tokens := FindWords(line);
    if tokens == [] then ""
    else
      LowerWordChars(Last(tokens));
      Lower(Last(tokens))
  }

  /** The token is "" exactly when the line has no word character; otherwise
      it is the lower-cased last maximal run of word characters. */
  lemma LineEndTokenIsLastRun(line: string)
    ensures LineEndToken(line) == "" <==> NoWord(line)
    ensures !NoWord(line) ==>
      exists i, j :: IsLastRun(line, i, j) && LineEndToken(line) == Lower(line[i..j])
  {
    FindWordsLast(line);
  }

  /** The token of `pre + w + post` is `w` lower-cased when `w` is a run of
      word characters not continued from `pre` and `post` has none. */
  lemma LineEndTokenOf(pre: string, w: string, post: string)
    requires w != [] && AllWord(w) && NoWord(post)
    requires pre == [] || !IsWordChar(pre[|pre| - 1])
    ensures LineEndToken(pre + w + post) == Lower(w)
  {
    var line := pre + w + post;
    var i, j := |pre|, |pre| + |w|;
    assert line[i..j] == w;
    assert line[j..] == post;
    assert i > 0 ==> line[i - 1] == pre[|pre| - 1];
    assert IsLastRun(line, i, j);
    assert line[i] == w[0];
    LineEndTokenIsLastRun(line);
    var i', j' :| IsLastRun(line, i', j') && LineEndToken(line) == Lower(line[i'..j']);
    LastRunUnique(line, i, j, i', j');
  }

  // -------------------------------------------------------------- rhyme key

  /** The last two characters of a word, or the whole word when it is shorter. */
  function LastTwo(s: string): (r: string)
    ensures |r| == (if |s| < 2 then |s| else 2)
    ensures r == s[|s| - |r|..]
  {
    if |s| <= 2 then s else s[|s| - 2..]
  }

  /** The dictionary knows the lower-cased word and yields a non-empty
      rhyming part for its first pronunciation. */
  predicate HasRhymingPart(p: Pronouncer, lw: string) {
    var phones := p.phonesForWord(lw);
    phones != [] && p.rhymingPart(phones[0]).Some? && p.rhymingPart(phones[0]).value != ""
  }

  /** `_last_stressed_vowel_phoneme`: the rhyming part of the first
      pronunciation, falling back to the last two characters of the
      lower-cased word.  A non-empty word never gets an empty key. */
  function RhymeKey(p: Pronouncer, word: string): (r: string)
    ensures word != "" ==> r != ""
  {
    var lw := Lower(word);
    var phones := p.phonesForWord(lw);
    if phones == [] then LastTwo(lw)
    else
      var part := p.rhymingPart(phones[0]);
      if part.Some? && part.value != "" then part.value else LastTwo(lw)
  }

  /** The key is the dictionary's rhyming part when there is one, and the
      graphemic suffix of the lower-cased word in both fallback cases. */
  lemma RhymeKeyFallback(p: Pronouncer, word: string)
    ensures var lw := Lower(word);
      (HasRhymingPart(p, lw) ==> RhymeKey(p, word) == p.rhymingPart(p.phonesForWord(lw)[0]).value)
      && (p.phonesForWord(lw) == [] ==> RhymeKey(p, word) == LastTwo(lw))
      && (!HasRhymingPart(p, lw) ==> RhymeKey(p, word) == LastTwo(lw))
  {
  }

  /** The key of a word does not depend on its letter case. */
  lemma RhymeKeyIgnoresCase(p: Pronouncer, word: string)
    ensures RhymeKey(p, Lower(word)) == RhymeKey(p, word)
  {
    LowerIdempotent(word);
  }

  /** A word unknown to the dictionary keys on its last two letters, lower-cased. */
  lemma UnknownWordKey(p: Pronouncer)
    requires p.phonesForWord("zzxxqq") == []
    ensures RhymeKey(p, "zzXXQQ") == "qq"
  {
    assert Lower("zzXXQQ") == "zzxxqq";
  }

  // ----------------------------------------------------------- rhyme scheme

  /** The lines that are not blank once stripped, in their order. */
  function NonBlank(lines: seq<string>): (r: seq<string>)
    ensures |r| <= |lines|
    ensures forall i :: 0 <= i < |r| ==> Strip(r[i]) != ""
    ensures forall l :: l in r ==> l in lines
  {
    if lines == [] then []
    else if Strip(lines[0]) != "" then [lines[0]] + NonBlank(lines[1..])
    else NonBlank(lines[1..])
  }

  /** The rhyme keys of the non-blank lines, in order: `keys` in the source. */
  function RhymeKeys(p: Pronouncer, lines: seq<string>): (keys: seq<string>)
    ensures |keys| == |NonBlank(lines)|
    ensures forall i :: 0 <= i < |keys| ==> keys[i] == RhymeKey(p, LineEndToken(NonBlank(lines)[i]))
  {
    var ends := seq(|NonBlank(lines)|, i requires 0 <= i < |NonBlank(lines)| => LineEndToken(NonBlank(lines)[i]));
    seq(|ends|, i requires 0 <= i < |ends| => RhymeKey(p, ends[i]))
  }

  /** The guarded patterns on four keys, checked in the source's order. */
  function Classify(a: string, b: string, c: string, d: string): Scheme {
    if a == c && b == d && a != b then ABAB
    else if a == b && c == d && a != c then AABB
    else if a == d && b == c && a != b then ABBA
    else FREE
  }

  /** `detect_rhyme_scheme`: the pattern of the first four non-blank lines'
      keys, or FREE when there are fewer than four. */
  function DetectRhymeScheme(p: Pronouncer, lines: seq<string>): Scheme {
    var keys := RhymeKeys(p, lines);
    if |keys| >= 4 then Classify(keys[0], keys[1], keys[2], keys[3]) else FREE
  }

  /** Each label holds exactly when its own guard holds, so the order of the
      checks does not matter; four equal keys are FREE. */
  lemma ClassifyExact(a: string, b: string, c: string, d: string)
    ensures Classify(a, b, c, d) == ABAB <==> (a == c && b == d && a != b)
    ensures Classify(a, b, c, d) == AABB <==> (a == b && c == d && a != c)
    ensures Classify(a, b, c, d) == ABBA <==> (a == d && b == c && a != b)
    ensures Classify(a, b, c, d) == FREE <==>
      !(a == c && b == d && a != b) && !(a == b && c == d && a != c) && !(a == d && b == c && a != b)
    ensures a == b == c == d ==> Classify(a, b, c, d) == FREE
  {
  }

  /** No two of the three guards hold at once. */
  lemma GuardsExclusive(a: string, b: string, c: string, d: string)
    ensures !((a == c && b == d && a != b) && (a == b && c == d && a != c))
    ensures !((a == c && b == d && a != b) && (a == d && b == c && a != b))
    ensures !((a == b && c == d && a != c) && (a == d && b == c && a != b))
  {
  }

  /** Fewer than four non-blank lines, in particular no lines, give FREE. */
  lemma ShortInputIsFree(p: Pronouncer, lines: seq<string>)
    requires |NonBlank(lines)| < 4
    ensures DetectRhymeScheme(p, lines) == FREE
  {
  }

  /** The scheme is the pattern of the keys of the first four non-blank lines. */
  lemma SchemeOfFirstFour(p: Pronouncer, lines: seq<string>)
    requires |NonBlank(lines)| >= 4
    ensures var kept := NonBlank(lines);
      DetectRhymeScheme(p, lines) == Classify(
        RhymeKey(p, LineEndToken(kept[0])), RhymeKey(p, LineEndToken(kept[1])),
        RhymeKey(p, LineEndToken(kept[2])), RhymeKey(p, LineEndToken(kept[3])))
  {
  }

  /** The filter keeps exactly the non-blank lines: they form a subsequence of
      the input, and each non-blank line is kept as often as it occurs. */
  lemma {:induction false} NonBlankInOrder(lines: seq<string>)
    ensures IsSubsequence(NonBlank(lines), lines)
    ensures forall l :: Strip(l) != "" ==> multiset(NonBlank(lines))[l] == multiset(lines)[l]
    decreases |lines|
  {
    if lines != [] {
      NonBlankInOrder(lines[1..]);
      var rest := NonBlank(lines[1..]);
      assert lines == [lines[0]] + lines[1..];
      assert multiset(lines) == multiset{lines[0]} + multiset(lines[1..]);
      if Strip(lines[0]) != "" {
        assert NonBlank(lines) == [lines[0]] + rest;
        assert multiset([lines[0]] + rest) == multiset{lines[0]} + multiset(rest);
        assert ([lines[0]] + rest)[1..] == rest;
      } else {
        SubsequenceSkip(rest, lines[0], lines[1..]);
      }
    }
  }

  /** Filtering distributes over concatenation. */
  lemma {:induction false} NonBlankAppend(xs: seq<string>, ys: seq<string>)
    ensures NonBlank(xs + ys) == NonBlank(xs) + NonBlank(ys)
    decreases |xs|
  {
    if xs == [] {
      assert xs + ys == ys;
    } else {
      assert (xs + ys)[1..] == xs[1..] + ys;
      NonBlankAppend(xs[1..], ys);
    }
  }

  /** Filtering twice is filtering once. */
  lemma {:induction false} NonBlankIdempotent(lines: seq<string>)
    ensures NonBlank(NonBlank(lines)) == NonBlank(lines)
    decreases |lines|
  {
    if lines != [] {
      NonBlankIdempotent(lines[1..]);
      if Strip(lines[0]) != "" {
        var rest := NonBlank(lines[1..]);
        assert ([lines[0]] + rest)[1..] == rest;
      }
    }
  }

  /** Classifying only the non-blank lines gives the same scheme. */
  lemma BlankLinesIrrelevant(p: Pronouncer, lines: seq<string>)
    ensures DetectRhymeScheme(p, NonBlank(lines)) == DetectRhymeScheme(p, lines)
  {
    NonBlankIdempotent(lines);
  }

  /** Lines after the first four non-blank ones are never consulted. */
  lemma FirstFourOnly(p: Pronouncer, lines: seq<string>, more: seq<string>)
    requires |NonBlank(lines)| >= 4
    ensures DetectRhymeScheme(p, lines + more) == DetectRhymeScheme(p, lines)
  {
    NonBlankAppend(lines, more);
    var kept, kept' := NonBlank(lines), NonBlank(lines + more);
    assert kept'[..4] == kept[..4];
    SchemeOfFirstFour(p, lines);
    SchemeOfFirstFour(p, lines + more);
  }

  /** Inserting a blank line anywhere leaves the scheme unchanged. */
  lemma BlankLineIgnored(p: Pronouncer, xs: seq<string>, blank: string, ys: seq<string>)
    requires Strip(blank) == ""
    ensures DetectRhymeScheme(p, xs + [blank] + ys) == DetectRhymeScheme(p, xs + ys)
  {
    NonBlankAppend(xs + [blank], ys);
    NonBlankAppend(xs, [blank]);
    NonBlankAppend(xs, ys);
    assert NonBlank([blank]) == [];
    assert NonBlank(xs + [blank]) == NonBlank(xs);
  }

  // ------------------------------------------------------------------- tone

  /** The float literal `0.3` of the source: the binary64 value nearest to
      3/10, which lies just below it.  Scores are the exact values of the
      scorer's floats, and float comparison is exact, so comparing reals
      against this constant is the source's comparison. */
  const Threshold: real := 0.299999999999999988897769753748434595763683319091796875

  /** The tone bucket of a polarity score. */
  function ToneOf(score: real): Tone {
    if score >= Threshold then Uplifting
    else if score <= -Threshold then Melancholic
    else Confident
  }

  /** `detect_tone`: the bucket of the scorer's compound score of the text. */
  function DetectTone(polarity: Scorer, text: string): Tone {
    ToneOf(polarity(text))
  }

  /** The three buckets partition the scores at the two thresholds, and each
      threshold itself (the source's `0.3` and `-0.3`) falls in the outer
      bucket; so do the exact reals 3/10 and -3/10. */
  lemma ToneThresholds(score: real)
    ensures ToneOf(score) == Uplifting <==> score >= Threshold
    ensures ToneOf(score) == Melancholic <==> score <= -Threshold
    ensures ToneOf(score) == Confident <==> -Threshold < score < Threshold
    ensures ToneOf(Threshold) == Uplifting && ToneOf(-Threshold) == Melancholic
    ensures ToneOf(0.3) == Uplifting && ToneOf(-0.3) == Melancholic
    ensures 0.3 - 0.0000000000000001 < Threshold < 0.3
  {
  }

  /** Melancholic < confident < uplifting. */
  function ToneRank(t: Tone): nat {
    match t
    case Melancholic => 0
    case Confident => 1
    case Uplifting => 2
  }

  /** A higher score never gives a lower tone. */
  lemma ToneMonotone(s: real, t: real)
    requires s <= t
    ensures ToneRank(ToneOf(s)) <= ToneRank(ToneOf(t))
  {
  }

  // ---------------------------------------------------------------- analyze

  /** Each line stripped, dropping those that strip to nothing.
      Every element is non-empty and already stripped. */
  function StrippedLines(lines: seq<string>): (r: seq<string>)
    ensures forall i :: 0 <= i < |r| ==> r[i] != "" && Strip(r[i]) == r[i]
  {
    if lines == [] then []
    else
      var rest := StrippedLines(lines[1..]);
      var s := Strip(lines[0]);
      if s != "" then
        StripIdempotent(lines[0]);
        [s] + rest
      else rest
  }

  /** `analyze`: the empty text short-circuits; any other text is split into
      lines, stripped and filtered, then classified. */
  function Analyze(p: Pronouncer, polarity: Scorer, text: string): (r: AnalysisResult)
    ensures text == "" ==> r == AnalysisResult([], FREE, Confident)
    ensures text != "" ==> r.tone == ToneOf(polarity(text))
    ensures forall i :: 0 <= i < |r.lines| ==> r.lines[i] != "" && Strip(r.lines[i]) == r.lines[i]
  {
    if text == "" then AnalysisResult([], FREE, Confident)
    else
      var lines := StrippedLines(SplitLines(text));
      AnalysisResult(lines, DetectRhymeScheme(p, lines), DetectTone(polarity, text))
  }

  /** Every line stripped, keeping blank ones: the reference the kept lines
      are compared with. */
  ghost function StripEach(lines: seq<string>): (r: seq<string>)
    ensures |r| == |lines|
  {
    if lines == [] then [] else [Strip(lines[0])] + StripEach(lines[1..])
  }

  /** `xs` can be obtained from `ys` by deleting elements. */
  ghost predicate IsSubsequence<T>(xs: seq<T>, ys: seq<T>)
    decreases |ys|
  {
    if xs == [] then true
    else if ys == [] then false
    else if xs[0] == ys[0] then IsSubsequence(xs[1..], ys[1..])
    else IsSubsequence(xs, ys[1..])
  }

  /** The stripped non-blank lines are the non-empty stripped lines, in their
      original order and with their original multiplicities. */
  lemma {:induction false} StrippedLinesInOrder(lines: seq<string>)
    ensures IsSubsequence(StrippedLines(lines), StripEach(lines))
    ensures forall l :: l != "" ==> multiset(StrippedLines(lines))[l] == multiset(StripEach(lines))[l]
    decreases |lines|
  {
    if lines != [] {
      StrippedLinesInOrder(lines[1..]);
      var rest, each := StrippedLines(lines[1..]), StripEach(lines[1..]);
      var s := Strip(lines[0]);
      assert StripEach(lines) == [s] + each;
      assert multiset([s] + each) == multiset{s} + multiset(each);
      if s != "" {
        assert StrippedLines(lines) == [s] + rest;
        assert multiset([s] + rest) == multiset{s} + multiset(rest);
        assert ([s] + rest)[1..] == rest;
        assert ([s] + each)[1..] == each;
      } else {
        assert StrippedLines(lines) == rest;
        SubsequenceSkip(rest, s, each);
      }
    }
  }

  /** A subsequence stays one after any element is put in front. */
  lemma {:induction false} SubsequenceSkip<T>(xs: seq<T>, y: T, ys: seq<T>)
    requires IsSubsequence(xs, ys)
    ensures IsSubsequence(xs, [y] + ys)
    decreases |ys|, 1
  {
    assert ([y] + ys)[1..] == ys;
    if xs != [] && xs[0] == y {
      SubsequenceDropFirst(xs, ys);
    }
  }

  /** Dropping the first element of a subsequence keeps it one. */
  lemma {:induction false} SubsequenceDropFirst<T>(xs: seq<T>, ys: seq<T>)
    requires xs != [] && IsSubsequence(xs, ys)
    ensures IsSubsequence(xs[1..], ys)
    decreases |ys|, 0
  {
    if xs[0] == ys[0] {
      SubsequenceSkip(xs[1..], ys[0], ys[1..]);
    } else {
      SubsequenceDropFirst(xs, ys[1..]);
      SubsequenceSkip(xs[1..], ys[0], ys[1..]);
    }
    assert ys == [ys[0]] + ys[1..];
  }

  /** `analyze` keeps the stripped non-blank lines of the text: in order, each
      as often as it occurs, and no empty line. */
  lemma AnalyzeKeepsLines(p: Pronouncer, polarity: Scorer, text: string)
    requires text != ""
    ensures var r := Analyze(p, polarity, text);
      var each := StripEach(SplitLines(text));
      && IsSubsequence(r.lines, each)
      && "" !in r.lines
      && forall l :: l != "" ==> multiset(r.lines)[l] == multiset(each)[l]
  {
    StrippedLinesInOrder(SplitLines(text));
  }

  /** On the lines `analyze` keeps, the classifier filters nothing more: the
      scheme is FREE below four lines and otherwise the pattern of the keys
      of the first four kept lines. */
  lemma AnalyzeScheme(p: Pronouncer, polarity: Scorer, text: string)
    ensures var r := Analyze(p, polarity, text);
      && (|r.lines| < 4 ==> r.rhymeScheme == FREE)
      && (|r.lines| >= 4 ==> r.rhymeScheme == Classify(
            RhymeKey(p, LineEndToken(r.lines[0])), RhymeKey(p, LineEndToken(r.lines[1])),
            RhymeKey(p, LineEndToken(r.lines[2])), RhymeKey(p, LineEndToken(r.lines[3]))))
  {
    var r := Analyze(p, polarity, text);
    NonBlankOfStripped(r.lines);
  }

  /** Lines that are all non-blank pass the classifier's filter unchanged. */
  lemma {:induction false} NonBlankOfStripped(lines: seq<string>)
    requires forall i :: 0 <= i < |lines| ==> lines[i] != "" && Strip(lines[i]) == lines[i]
    ensures NonBlank(lines) == lines
    decreases |lines|
  {
    if lines != [] {
      NonBlankOfStripped(lines[1..]);
      assert lines == [lines[0]] + lines[1..];
    }
  }

  /** Only the empty text short-circuits: a text of whitespace alone keeps no
      line and is FREE, but its tone still comes from the scorer. */
  lemma WhitespaceText(p: Pronouncer, polarity: Scorer, text: string)
    requires text != "" && AllSpace(text)
    ensures Analyze(p, polarity, text) == AnalysisResult([], FREE, ToneOf(polarity(text)))
  {
    var lines := SplitLines(text);
    SplitLinesChars(text);
    forall i | 0 <= i < |lines| ensures AllSpace(lines[i]) {
      assert CharsFrom(lines[i], text);
      forall k | 0 <= k < |lines[i]| ensures IsSpace(lines[i][k]) {
        assert lines[i][k] in text;
      }
    }
    BlankLinesStripToNothing(lines);
  }

  lemma {:induction false} BlankLinesStripToNothing(lines: seq<string>)
    requires forall i :: 0 <= i < |lines| ==> AllSpace(lines[i])
    ensures StrippedLines(lines) == []
    decreases |lines|
  {
    if lines != [] {
      BlankLinesStripToNothing(lines[1..]);
    }
  }

  // ---------------------------------------------------------------- rewrite

  /** A pre-authored four-line stanza. */
  type Stanza = seq<string>

  /** The stanzas of `_TEMPLATES`, two per tone. */
  const UpliftingA: Stanza := [
    "Lift up the chorus, let troubles unwind,",
    "paper-thin shadows fall out of the frame,",
    "Bright city rhythm keeps time in your mind,",
    "walk through the rain and remember your name."
  ]
  const UpliftingB: Stanza := [
    "Morning will open the blinds on your doubt,",
    "traffic will hum like a soft saxophone,",
    "you'll turn the volume of courage back out,",
    "finding the skyline is already home."
  ]
  const MelancholicA: Stanza := [
    "Echoes on hallway tiles keep time,",
    "neon is humming a faded refrain,",
    "Letters you folded won\U{2019}t quite rhyme,",
    "lonely umbrellas confess to the rain."
  ]
  const MelancholicB: Stanza := [
    "Windows breathe fog while the streetlights align,",
    "coffee cups shiver in puddles of gold,",
    "yesterday\U{2019}s playlist replays every line,",
    "telling a story that\U{2019}s already told."
  ]
  const ConfidentA: Stanza := [
    "Hands on the groove and the city aligns,",
    "faces like mirrors reflect what you send,",
    "Beat after beat you redraw the lines,",
    "verse after verse you decide how they end."
  ]
  const ConfidentB: Stanza := [
    "Bass in your chest like a well-tuned machine,",
    "pavement becomes your own personal stage,",
    "you've learned to remix every awkward scene,",
    "dropping the doubt and then raising the gauge."
  ]

  /** `_TEMPLATES`: the stanzas for each tone label. */
  const Templates: map<string, seq<Stanza>> := map[
    "uplifting" := [UpliftingA, UpliftingB],
    "melancholic" := [MelancholicA, MelancholicB],
    "confident" := [ConfidentA, ConfidentB]
  ]

  /** The fixed tag of the template strategy. */
  const SourceTag: string := "local-lite (no syllables)"

  /** The table holds exactly the three tone labels, two stanzas each, and
      every stanza has four lines. */
  lemma TemplateTable()
    ensures Templates.Keys == {"uplifting", "melancholic", "confident"}
    ensures forall key :: key in Templates ==> |Templates[key]| == 2
    ensures forall key, i :: key in Templates && 0 <= i < |Templates[key]| ==> |Templates[key][i]| == 4
  {
  }

  /** The stanza list of a tone's label, falling back to the confident list
      for a label the table lacks. */
  function Candidates(tone: Tone): seq<Stanza> {
    var key := ToneLabel(tone);
    if key in Templates then Templates[key] else Templates["confident"]
  }

  /** Every tone has its own stanza list, so the default never applies. */
  lemma CandidatesOfTone(t: Tone)
    ensures ToneLabel(t) in Templates && Candidates(t) == Templates[ToneLabel(t)]
    ensures |Candidates(t)| == 2
  {
  }

  /** The `analysis` part of the payload. */
  datatype AnalysisSummary = AnalysisSummary(detectedScheme: string, tone: string, lineCount: nat)

  /** The dictionary `rewrite` returns. */
  datatype RewritePayload = RewritePayload(
    analysis: AnalysisSummary,
    rewrite: Stanza,
    chosenScheme: string,
    source: string)

  /** `rewrite`: the analysis summary with the stanza at index `pick` of the
      tone's list (`pick` stands for the random draw). */
  function Rewrite(p: Pronouncer, polarity: Scorer, text: string, pick: nat): (r: RewritePayload)
    requires pick < |Candidates(Analyze(p, polarity, text).tone)|
    ensures var a := Analyze(p, polarity, text);
      && r.analysis.detectedScheme == SchemeLabel(a.rhymeScheme)
      && r.analysis.tone == ToneLabel(a.tone)
      && r.analysis.lineCount == |a.lines|
      && r.rewrite == Templates[ToneLabel(a.tone)][pick]
      && r.rewrite in Templates[ToneLabel(a.tone)]
      && |r.rewrite| == 4
    ensures r.chosenScheme == "ABAB"
    ensures r.source == "local-lite (no syllables)"
  {
    var analysis := Analyze(p, polarity, text);
    var templates := Candidates(analysis.tone);
    CandidatesOfTone(analysis.tone);
    TemplateTable();
    var stanza := templates[pick];
    RewritePayload(
      AnalysisSummary(SchemeLabel(analysis.rhymeScheme), ToneLabel(analysis.tone), |analysis.lines|),
      stanza,
      "ABAB",
      SourceTag)
  }

  /** Either draw of the two in each list is a valid pick for any text. */
  lemma RewritePicksInRange(p: Pronouncer, polarity: Scorer, text: string, pick: nat)
    requires pick < 2
    ensures pick < |Candidates(Analyze(p, polarity, text).tone)|
  {
    CandidatesOfTone(Analyze(p, polarity, text).tone);
  }

  /** The empty text analyses to no lines, FREE and confident, and rewrites
      to a confident stanza. */
  lemma EmptyText(p: Pronouncer, polarity: Scorer, pick: nat)
    requires pick < 2
    ensures Analyze(p, polarity, "") == AnalysisResult([], FREE, Confident)
    ensures Rewrite(p, polarity, "", pick).analysis == AnalysisSummary("FREE", "confident", 0)
    ensures Rewrite(p, polarity, "", pick).rewrite == Templates["confident"][pick]
  {
  }

  // --------------------------------------------------------------- scenario

  /** Lines that are already stripped and non-empty are kept as they are. */
  lemma {:induction false} StrippedLinesOfStripped(lines: seq<string>)
    requires forall i :: 0 <= i < |lines| ==> lines[i] != "" && Strip(lines[i]) == lines[i]
    ensures StrippedLines(lines) == lines
    decreases |lines|
  {
    if lines != [] {
      StrippedLinesOfStripped(lines[1..]);
      assert lines == [lines[0]] + lines[1..];
    }
  }

  /** Joining clean lines with "\n" and analysing the text gives the same
      lines back, so `analyze` classifies exactly those lines. */
  lemma AnalyzeJoinedLines(p: Pronouncer, polarity: Scorer, lines: seq<string>)
    requires lines != []
    requires forall i :: 0 <= i < |lines| ==> lines[i] != "" && Strip(lines[i]) == lines[i]
    requires forall i :: 0 <= i < |lines| ==> BreakFree(lines[i])
    ensures var r := Analyze(p, polarity, JoinLines(lines));
      r.lines == lines && r.rhymeScheme == DetectRhymeScheme(p, lines)
      && r.tone == ToneOf(polarity(JoinLines(lines)))
  {
    SplitJoinRoundTrip(lines);
    StrippedLinesOfStripped(lines);
  }
}
