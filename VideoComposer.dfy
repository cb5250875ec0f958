/**
 * The deterministic parts of the video composer
 * (src/components/VideoComposer.tsx): the greedy word wrap of
 * `drawTextBlock`, the caption and file name of a finished video, the
 * progress of the frame loop, and the guard in front of rendering.
 *
 * The text width is a parameter `measure`: whatever width the canvas
 * reports for a string with its current font.
 */
module VideoComposer {
  import opened Wrappers
  import opened Text
  import opened ScriptEngine

  /** Length of a rendered video, in milliseconds. */
  const DurationMs: real := 9000.0
  /** The type of the recorded blob. */
  const VideoMime := "video/webm"

  /** A finished video as the publisher receives it; the recording is its bytes. */
  datatype GeneratedVideo = GeneratedVideo(blob: seq<bv8>, url: string, fileName: string, hashtags: seq<string>, caption: string)

  /** A generated script together with its hashtags, as the composer receives it. */
  datatype TaggedScript = TaggedScript(script: GeneratedScript, hashtags: seq<string>)

  // ---------------------------------------------------------------------
  // Greedy word wrap
  // ---------------------------------------------------------------------

  /** The lines pushed so far and the line being built. */
  datatype WrapState = WrapState(lines: seq<string>, current: string)

  /** The text is upper-cased only when asked to. */
  function Processed(text: string, uppercase: bool): (r: string)
    ensures |r| == |text|
    ensures !uppercase ==> r == text
    ensures uppercase ==> r == Upper(text)
    ensures uppercase ==> forall i :: 0 <= i < |r| ==> !('a' <= r[i] <= 'z')
  {
    if uppercase then Upper(text) else text
  }

  /**
   * The current line with one more word: the word alone on an empty line,
   * otherwise the line, one space and the word.
   */
  function TestLine(current: string, word: string): (r: string)
    ensures EndsWith(r, word)
    ensures current == [] ==> r == word
    ensures current != [] ==> |r| == |current| + 1 + |word| && r[..|current| + 1] == current + " "
  {
    if current != [] then current + " " + word else word
  }

  /**
   * One turn of the loop: an overflowing test line pushes the current line (if any) and starts over from the word.
   * Lines are only ever appended, a pushed line is the non-empty current line, and the new current line
   * ends with the word and either fits or is the word alone.
   */
  function Step(st: WrapState, word: string, maxWidth: real, measure: string -> real): (r: WrapState)
    ensures st.lines <= r.lines && |r.lines| <= |st.lines| + 1
    ensures |r.lines| == |st.lines| + 1 ==> st.current != [] && r.lines[|st.lines|] == st.current
    ensures r.current == word || measure(r.current) <= maxWidth
  {
    var test := TestLine(st.current, word);
    if measure(test) > maxWidth then
      WrapState(if st.current != [] then st.lines + [st.current] else st.lines, word)
    else
      WrapState(st.lines, test)
  }

  /**
   * The loop over all words, from a given state: the lines already pushed stay
   * in front, each word pushes at most one line, and the current line ends
   * with the last word.
   */
  function Fold(words: seq<string>, st: WrapState, maxWidth: real, measure: string -> real): (r: WrapState)
    ensures st.lines <= r.lines && |r.lines| <= |st.lines| + |words|
    ensures words == [] ==> r == st
    decreases |words|
  {
    if words == [] then st else Fold(words[1..], Step(st, words[0], maxWidth, measure), maxWidth, measure)
  }

  /** After at least one word, the current line ends with the last word. */
  lemma {:induction false} FoldEndsWithLast(words: seq<string>, st: WrapState, maxWidth: real, measure: string -> real)
    requires words != []
    ensures EndsWith(Fold(words, st, maxWidth, measure).current, words[|words| - 1])
    decreases |words|
  {
    var next := Step(st, words[0], maxWidth, measure);
    assert Fold(words, st, maxWidth, measure) == Fold(words[1..], next, maxWidth, measure);
    if |words| == 1 {
      assert words[1..] == [];
      StepEndsWithWord(st, words[0], maxWidth, measure);
    } else {
      FoldEndsWithLast(words[1..], next, maxWidth, measure);
      assert words[1..][|words[1..]| - 1] == words[|words| - 1];
    }
  }

  /** After one turn, the current line ends with the word just taken. */
  lemma StepEndsWithWord(st: WrapState, word: string, maxWidth: real, measure: string -> real)
    ensures EndsWith(Step(st, word, maxWidth, measure).current, word)
  {
    var test := TestLine(st.current, word);
    if measure(test) > maxWidth {
      assert word[|word| - |word|..] == word;
    }
  }

  /** After the loop: the last line is pushed exactly when it is not empty, after the lines already pushed. */
  function Finish(st: WrapState): (r: seq<string>)
    ensures st.lines <= r
    ensures |r| == |st.lines| + 1 <==> st.current != []
    ensures |r| != |st.lines| + 1 ==> r == st.lines
    ensures st.current != [] ==> r[|st.lines|] == st.current
  {
    if st.current != [] then st.lines + [st.current] else st.lines
  }

  /** A line fits the width, or it is a single word that is too wide on its own. */
  predicate Fits(line: string, maxWidth: real, measure: string -> real) {
    measure(line) <= maxWidth || ' ' !in line
  }

  /** The first word of a line. */
  function FirstWord(line: string): string {
    Split(line, ' ')[0]
  }

  /** No line could have taken the next line's first word. */
  predicate Greedy(lines: seq<string>, maxWidth: real, measure: string -> real) {
    forall k :: 0 <= k < |lines| - 1 ==> measure(lines[k] + " " + FirstWord(lines[k + 1])) > maxWidth
  }

  /** The words of the processed text have no empty piece: no leading, trailing or doubled spaces. */
  predicate NoEmptyWords(text: string, uppercase: bool) {
    forall k :: 0 <= k < |Split(Processed(text, uppercase), ' ')| ==> Split(Processed(text, uppercase), ' ')[k] != []
  }

  /**
   * The lines `drawTextBlock` draws. Every line is non-empty and either fits
   * or is a single over-wide word.
   */
  function Wrap(text: string, uppercase: bool, maxWidth: real, measure: string -> real): (lines: seq<string>)
    ensures forall k :: 0 <= k < |lines| ==> lines[k] != [] && Fits(lines[k], maxWidth, measure)
  {
    var words := Split(Processed(text, uppercase), ' ');
    FoldKeepsShape(words, WrapState([], ""), maxWidth, measure);
    Finish(Fold(words, WrapState([], ""), maxWidth, measure))
  }

  /**
   * The line breaking of `drawTextBlock`: split the (possibly upper-cased)
   * text at single spaces, grow the current line while the measure allows,
   * and push it when the next word would overflow.
   */
  method DrawTextBlock(text: string, uppercase: bool, maxWidth: real, measure: string -> real) returns (lines: seq<string>)
    ensures lines == Wrap(text, uppercase, maxWidth, measure)
  {
    var processed := if uppercase then Upper(text) else text;
    assert processed == Processed(text, uppercase);
    var words := Split(processed, ' ');
    lines := [];
    var currentLine := "";
    var i := 0;
    while i < |words|
      invariant 0 <= i <= |words|
      invariant Fold(words[i..], WrapState(lines, currentLine), maxWidth, measure)
             == Fold(words, WrapState([], ""), maxWidth, measure)
    {
      var word := words[i];
      ghost var before := WrapState(lines, currentLine);
      assert Fold(words[i..], before, maxWidth, measure) == Fold(words[i + 1..], Step(before, word, maxWidth, measure), maxWidth, measure) by {
        assert words[i..][1..] == words[i + 1..];
      }
      var testLine := if currentLine != [] then currentLine + " " + word else word;
      if measure(testLine) > maxWidth {
        if currentLine != [] {
          lines := lines + [currentLine];
        }
        currentLine := word;
      } else {
        currentLine := testLine;
      }
      assert WrapState(lines, currentLine) == Step(before, word, maxWidth, measure);
      i := i + 1;
    }
    ghost var done := Fold(words, WrapState([], ""), maxWidth, measure);
    assert WrapState(lines, currentLine) == done by {
      assert words[|words|..] == [];
    }
    if currentLine != [] {
      lines := lines + [currentLine];
    }
    assert lines == Finish(done);
  }

  // The shape of every line, kept by each turn of the loop.

  predicate Shaped(st: WrapState, maxWidth: real, measure: string -> real) {
    && (forall k :: 0 <= k < |st.lines| ==> st.lines[k] != [] && Fits(st.lines[k], maxWidth, measure))
    && Fits(st.current, maxWidth, measure)
  }

  lemma StepKeepsShape(st: WrapState, word: string, maxWidth: real, measure: string -> real)
    requires Shaped(st, maxWidth, measure) && ' ' !in word
    ensures Shaped(Step(st, word, maxWidth, measure), maxWidth, measure)
  {
  }

  lemma {:induction false} FoldKeepsShape(words: seq<string>, st: WrapState, maxWidth: real, measure: string -> real)
    requires Shaped(st, maxWidth, measure)
    requires forall k :: 0 <= k < |words| ==> ' ' !in words[k]
    ensures Shaped(Fold(words, st, maxWidth, measure), maxWidth, measure)
    ensures forall k :: 0 <= k < |Finish(Fold(words, st, maxWidth, measure))| ==>
      Finish(Fold(words, st, maxWidth, measure))[k] != [] && Fits(Finish(Fold(words, st, maxWidth, measure))[k], maxWidth, measure)
    decreases |words|
  {
    if words != [] {
      StepKeepsShape(st, words[0], maxWidth, measure);
      FoldKeepsShape(words[1..], Step(st, words[0], maxWidth, measure), maxWidth, measure);
    }
  }

  // Greedy maximality, kept by each turn of the loop when no word is empty.

  /** A line that grows keeps its first word. */
  lemma {:induction false} FirstWordExtend(c: string, w: string)
    ensures FirstWord(c + " " + w) == FirstWord(c)
    decreases |c|
  {
    if c == [] {
      assert ([] + " " + w)[1..] == w;
    } else {
      assert (c + " " + w)[1..] == c[1..] + " " + w;
      FirstWordExtend(c[1..], w);
    }
  }

  predicate Maximal(st: WrapState, maxWidth: real, measure: string -> real) {
    && (st.current == [] ==> st.lines == [])
    && Greedy(st.lines, maxWidth, measure)
    && (st.lines != [] ==> measure(st.lines[|st.lines| - 1] + " " + FirstWord(st.current)) > maxWidth)
  }

  /** Pushing the current line keeps consecutive lines greedy. */
  lemma PushGreedy(st: WrapState, maxWidth: real, measure: string -> real)
    requires Maximal(st, maxWidth, measure) && st.current != []
    ensures Greedy(st.lines + [st.current], maxWidth, measure)
  {
    var l := st.lines + [st.current];
    forall k | 0 <= k < |l| - 1 ensures measure(l[k] + " " + FirstWord(l[k + 1])) > maxWidth {
      if k < |st.lines| - 1 {
        assert l[k] == st.lines[k] && l[k + 1] == st.lines[k + 1];
      } else {
        assert l[k] == st.lines[|st.lines| - 1] && l[k + 1] == st.current;
      }
    }
  }

  lemma StepKeepsMaximal(st: WrapState, word: string, maxWidth: real, measure: string -> real)
    requires Maximal(st, maxWidth, measure) && word != [] && ' ' !in word
    ensures Maximal(Step(st, word, maxWidth, measure), maxWidth, measure)
  {
    var test := TestLine(st.current, word);
    if st.current != [] {
      if measure(test) > maxWidth {
        PushGreedy(st, maxWidth, measure);
        SplitWord(word, ' ', []);
        var l := st.lines + [st.current];
        assert l[|l| - 1] == st.current;
      } else {
        FirstWordExtend(st.current, word);
      }
    }
  }

  lemma {:induction false} FoldKeepsMaximal(words: seq<string>, st: WrapState, maxWidth: real, measure: string -> real)
    requires Maximal(st, maxWidth, measure)
    requires forall k :: 0 <= k < |words| ==> words[k] != [] && ' ' !in words[k]
    ensures Maximal(Fold(words, st, maxWidth, measure), maxWidth, measure)
    decreases |words|
  {
    if words != [] {
      StepKeepsMaximal(st, words[0], maxWidth, measure);
      FoldKeepsMaximal(words[1..], Step(st, words[0], maxWidth, measure), maxWidth, measure);
    }
  }

  /**
   * Greedy maximality: when no word is empty, each line followed by the
   * next line's first word would have overflowed.
   */
  lemma WrapGreedy(text: string, uppercase: bool, maxWidth: real, measure: string -> real)
    requires NoEmptyWords(text, uppercase)
    ensures Greedy(Wrap(text, uppercase, maxWidth, measure), maxWidth, measure)
  {
    var words := Split(Processed(text, uppercase), ' ');
    var st := Fold(words, WrapState([], ""), maxWidth, measure);
    FoldKeepsMaximal(words, WrapState([], ""), maxWidth, measure);
    if st.current != [] {
      PushGreedy(st, maxWidth, measure);
    }
  }

  // Joining the lines gives back the text when no word is empty.

  /** Two pieces of text with a space between them, leaving out an empty side. */
  function Glue(a: string, b: string): string {
    if a == [] then b else if b == [] then a else a + " " + b
  }

  /** The text the state stands for: its lines and current line, joined by spaces. */
  function Flat(st: WrapState): string {
    Join(Finish(st), " ")
  }

  predicate Compact(st: WrapState) {
    (forall k :: 0 <= k < |st.lines| ==> st.lines[k] != []) && (st.current == [] ==> st.lines == [])
  }

  /** A line pushed before a new word: the flat text gains a space and the word. */
  lemma FlatPush(l: seq<string>, c: string, w: string)
    requires c != [] && w != []
    ensures Join((l + [c]) + [w], " ") == Glue(Join(l + [c], " "), w)
  {
    JoinSnoc(l, c, " ");
    JoinSnoc(l + [c], w, " ");
  }

  /** A word added to the current line: the flat text gains a space and the word. */
  lemma FlatExtend(l: seq<string>, c: string, w: string)
    requires c != [] && w != []
    ensures Join(l + [c + " " + w], " ") == Glue(Join(l + [c], " "), w)
  {
    JoinSnoc(l, c, " ");
    JoinSnoc(l, c + " " + w, " ");
  }

  lemma StepFlat(st: WrapState, word: string, maxWidth: real, measure: string -> real)
    requires Compact(st) && word != []
    ensures Compact(Step(st, word, maxWidth, measure))
    ensures Flat(Step(st, word, maxWidth, measure)) == Glue(Flat(st), word)
  {
    var c := st.current;
    if c != [] {
      if measure(TestLine(c, word)) > maxWidth {
        FlatPush(st.lines, c, word);
      } else {
        FlatExtend(st.lines, c, word);
      }
    }
  }

  lemma GlueAssoc(a: string, w: string, b: string)
    requires w != []
    ensures Glue(Glue(a, w), b) == Glue(a, Glue(w, b))
  {
  }

  /** The join of non-empty words is the first word glued to the join of the rest. */
  lemma JoinGlue(words: seq<string>)
    requires words != [] && forall k :: 0 <= k < |words| ==> words[k] != []
    ensures Join(words, " ") == Glue(words[0], Join(words[1..], " "))
  {
    if |words| > 1 {
      JoinNonEmpty(words[1..], " ");
      JoinCons(words[0], words[1..], " ");
      assert [words[0]] + words[1..] == words;
    }
  }

  lemma {:induction false} FoldFlat(words: seq<string>, st: WrapState, maxWidth: real, measure: string -> real)
    requires Compact(st)
    requires forall k :: 0 <= k < |words| ==> words[k] != []
    ensures Flat(Fold(words, st, maxWidth, measure)) == Glue(Flat(st), Join(words, " "))
    decreases |words|
  {
    if words != [] {
      var w := words[0];
      var next := Step(st, w, maxWidth, measure);
      StepFlat(st, w, maxWidth, measure);
      FoldFlat(words[1..], next, maxWidth, measure);
      assert Fold(words, st, maxWidth, measure) == Fold(words[1..], next, maxWidth, measure);
      GlueAssoc(Flat(st), w, Join(words[1..], " "));
      JoinGlue(words);
    }
  }

  /**
   * When no word is empty, the lines joined by single spaces are the
   * processed text: upper-cased exactly when `uppercase` is set, otherwise
   * the text itself.
   */
  lemma WrapJoin(text: string, uppercase: bool, maxWidth: real, measure: string -> real)
    requires NoEmptyWords(text, uppercase)
    ensures Join(Wrap(text, uppercase, maxWidth, measure), " ") == if uppercase then Upper(text) else text
  {
    var words := Split(Processed(text, uppercase), ' ');
    FoldFlat(words, WrapState([], ""), maxWidth, measure);
    JoinSplit(Processed(text, uppercase), ' ');
  }

  // ---------------------------------------------------------------------
  // Caption, file name and frame progress
  // ---------------------------------------------------------------------

  /** `niche.replace(/\s+/g, "-")`: every run of whitespace becomes one dash. */
  function Slug(s: string): (r: string)
    ensures NoSpace(r) && |r| <= |s|
  {
    SlugFrom(s, false)
  }

  /**
   * The slug of `s`, where `inRun` says that the character before `s` was
   * whitespace (and so already became a dash).
   */
  function SlugFrom(s: string, inRun: bool): (r: string)
    ensures NoSpace(r) && |r| <= |s|
    decreases |s|
  {
    if s == [] then []
    else
      var head := if !IsSpace(s[0]) then [s[0]] else if inRun then [] else "-";
      NoSpaceAppend(head, SlugFrom(s[1..], IsSpace(s[0])));
      head + SlugFrom(s[1..], IsSpace(s[0]))
  }

  /** A string without whitespace is its own slug. */
  lemma {:induction false} SlugPlain(a: string)
    requires NoSpace(a)
    ensures Slug(a) == a
    decreases |a|
  {
    if a != [] {
      SlugPlain(a[1..]);
      assert [a[0]] + a[1..] == a;
    }
  }

  /** Inside a run, further whitespace adds nothing. */
  lemma {:induction false} SlugInRun(ws: string, b: string)
    requires AllSpace(ws)
    ensures SlugFrom(ws + b, true) == SlugFrom(b, true)
    decreases |ws|
  {
    if ws != [] {
      assert (ws + b)[0] == ws[0];
      assert (ws + b)[1..] == ws[1..] + b;
      SlugInRun(ws[1..], b);
    } else {
      assert ws + b == b;
    }
  }

  /** A run of whitespace at the start, up to the next non-space character, becomes one dash. */
  lemma SlugSpaceRun(ws: string, b: string)
    requires ws != [] && AllSpace(ws)
    requires b == [] || !IsSpace(b[0])
    ensures Slug(ws + b) == "-" + Slug(b)
  {
    var s := ws + b;
    assert s[0] == ws[0] && s[1..] == ws[1..] + b;
    SlugInRun(ws[1..], b);
    assert SlugFrom(b, true) == Slug(b);
  }

  /**
   * A maximal run of whitespace after a stretch without whitespace becomes a
   * single dash, whatever its length.
   */
  lemma {:induction false} SlugRun(a: string, ws: string, b: string)
    requires NoSpace(a) && ws != [] && AllSpace(ws)
    requires b == [] || !IsSpace(b[0])
    ensures Slug(a + ws + b) == a + "-" + Slug(b)
    decreases |a|
  {
    if a == [] {
      assert a + ws + b == ws + b;
      SlugSpaceRun(ws, b);
    } else {
      var s := a + ws + b;
      assert s[0] == a[0] && s[1..] == a[1..] + ws + b;
      assert Slug(s) == [a[0]] + Slug(a[1..] + ws + b);
      SlugRun(a[1..], ws, b);
      assert [a[0]] + a[1..] == a;
    }
  }

  /** The name of a finished video: the niche's slug, a dash, the time in milliseconds and ".webm". */
  function FileName(niche: string, nowMs: nat): (r: string)
    ensures |r| > |Slug(niche)| + 5
    ensures r[..|Slug(niche)|] == Slug(niche) && r[|r| - 5..] == ".webm"
  {
    Slug(niche) + "-" + Decimal(nowMs) + ".webm"
  }

  /**
   * The caption of a finished video: it starts with the hook followed by a
   * space, ends with the hashtags joined by spaces, and has the call to action
   * between the two, with one space on each side.
   */
  function Caption(s: TaggedScript): (r: string)
    ensures |r| == |s.script.hook| + |s.script.cta| + |Join(s.hashtags, " ")| + 2
    ensures r[..|s.script.hook| + 1] == s.script.hook + " "
    ensures r[|s.script.hook| + 1..|s.script.hook| + 1 + |s.script.cta| + 1] == s.script.cta + " "
    ensures EndsWith(r, Join(s.hashtags, " "))
  {
    s.script.hook + " " + s.script.cta + " " + Join(s.hashtags, " ")
  }

  /** `Math.min(elapsed / VIDEO_DURATION_MS, 1)`. */
  function Progress(elapsedMs: real): (p: real)
    ensures p <= 1.0
    ensures p == 1.0 <==> elapsedMs >= DurationMs
    ensures 0.0 <= elapsedMs ==> 0.0 <= p
    ensures elapsedMs < DurationMs ==> p == elapsedMs / DurationMs
  {
    var ratio := elapsedMs / DurationMs;
    if ratio < 1.0 then ratio else 1.0
  }

  /** Another frame is requested while the progress is below one. */
  predicate RequestsNextFrame(elapsedMs: real) {
    Progress(elapsedMs) < 1.0
  }

  /** The frame loop goes on exactly while less than the duration has elapsed. */
  lemma NextFrameWhileRunning(elapsedMs: real)
    ensures RequestsNextFrame(elapsedMs) <==> elapsedMs < DurationMs
  {
  }

  /**
   * `generateVideo` through `recorder.onstop`: nothing happens without a
   * canvas, a loaded image, a script and a 2D context; otherwise the video
   * carries the recording, the caption, the script's hashtags and the name
   * built from the niche and the stop time.
   */
  function Render(hasCanvas: bool, hasImage: bool, script: Option<TaggedScript>, hasContext: bool,
                  recording: seq<bv8>, url: string, stopMs: nat): (r: Option<GeneratedVideo>)
    ensures r.Some? <==> hasCanvas && hasImage && script.Some? && hasContext
    ensures r.Some? ==> r.value.hashtags == script.value.hashtags && r.value.blob == recording
    ensures r.Some? ==> r.value.caption == Caption(script.value) && r.value.fileName == FileName(script.value.script.niche, stopMs)
  {
    if !hasCanvas || !hasImage || script.None? then None
    else if !hasContext then None
    else
      var s := script.value;
      Some(GeneratedVideo(recording, url, FileName(s.script.niche, stopMs), s.hashtags, Caption(s)))
  }

  /** A niche of words separated by single spaces gets a name of the words joined by dashes. */
  lemma {:induction false} SlugOfWords(ws: seq<string>)
    requires ws != []
    requires forall k :: 0 <= k < |ws| ==> ws[k] != [] && NoSpace(ws[k])
    ensures Slug(Join(ws, " ")) == Join(ws, "-")
    decreases |ws|
  {
    if |ws| == 1 {
      SlugPlain(ws[0]);
    } else {
      SlugOfWords(ws[1..]);
      JoinCons(ws[0], ws[1..], " ");
      JoinCons(ws[0], ws[1..], "-");
      assert [ws[0]] + ws[1..] == ws;
      var rest := Join(ws[1..], " ");
      assert rest[0] == ws[1][0] by {
        if |ws[1..]| > 1 {
          JoinCons(ws[1], ws[2..], " ");
          assert [ws[1]] + ws[2..] == ws[1..];
        }
      }
      SlugRun(ws[0], " ", rest);
    }
  }
}
