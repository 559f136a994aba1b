/**
 * Text layout of a text box: the text is cut into lines at line feeds and into words at word
 * boundaries, words that run past the wrap width are moved to a new line, and each line gets
 * its width and height. Hit-testing finds the line, word and character under a local point.
 * Widths come from a measuring function on strings, standing for the canvas's text metrics.
 */
module TextBox {
  import opened Wrappers
  import opened Strings

  datatype Character = Character(text: string, width: real, height: real)

  datatype Word = Word(text: string, width: real, height: real, characters: seq<Character>)

  datatype Line = Line(width: real, height: real, words: seq<Word>)

  // ---------------------------------------------------------------------------
  // words and raw lines

  /** A word as the layout builds it: measured whole, and each of its characters measured alone. */
  function MakeWord(token: string, fontSize: real, measure: string -> real): Word {
    Word(token, measure(token), fontSize,
         seq(|token|, k requires 0 <= k < |token| => Character([token[k]], measure([token[k]]), fontSize)))
  }

  function CharTexts(cs: seq<Character>): seq<string> {
    seq(|cs|, k requires 0 <= k < |cs| => cs[k].text)
  }

  function WordTexts(ws: seq<Word>): seq<string> {
    seq(|ws|, k requires 0 <= k < |ws| => ws[k].text)
  }

  /** An unwrapped line: the words of one line of the text, between two line feeds. */
  function RawLine(raw: string, fontSize: real, measure: string -> real): Line {
    var tokens := SplitAtBoundaries(raw);
    Line(0.0, 0.0, seq(|tokens|, k requires 0 <= k < |tokens| => MakeWord(tokens[k], fontSize, measure)))
  }

  /** The unwrapped lines of a text, one per line-feed-separated piece, in order. */
  function RawLines(text: string, fontSize: real, measure: string -> real): seq<Line> {
    LinesOf(SplitOn(text, '\n'), fontSize, measure)
  }

  function LinesOf(raws: seq<string>, fontSize: real, measure: string -> real): seq<Line> {
    seq(|raws|, k requires 0 <= k < |raws| => RawLine(raws[k], fontSize, measure))
  }

  lemma {:induction false} ConcatSingletons(s: string)
    ensures Concat(seq(|s|, k requires 0 <= k < |s| => [s[k]])) == s
    decreases |s|
  {
    var parts := seq(|s|, k requires 0 <= k < |s| => [s[k]]);
    if s != [] {
      ConcatSingletons(s[1..]);
      assert parts[1..] == seq(|s[1..]|, k requires 0 <= k < |s[1..]| => [s[1..][k]]);
      assert s == [s[0]] + s[1..];
    }
  }

  /** The characters of a word spell it, one character each, all of the font's height. */
  lemma CharactersSpellWord(token: string, fontSize: real, measure: string -> real)
    ensures Concat(CharTexts(MakeWord(token, fontSize, measure).characters)) == token
    ensures |MakeWord(token, fontSize, measure).characters| == |token|
    ensures forall c :: c in MakeWord(token, fontSize, measure).characters ==> c.height == fontSize && |c.text| == 1
  {
    assert CharTexts(MakeWord(token, fontSize, measure).characters) == seq(|token|, k requires 0 <= k < |token| => [token[k]]);
    ConcatSingletons(token);
  }

  /** The words of a raw line spell it; there is always at least one word, each as high as the font. */
  lemma WordsSpellRawLine(raw: string, fontSize: real, measure: string -> real)
    ensures Concat(WordTexts(RawLine(raw, fontSize, measure).words)) == raw
    ensures RawLine(raw, fontSize, measure).words != []
    ensures forall w :: w in RawLine(raw, fontSize, measure).words ==> w.height == fontSize && w.width == measure(w.text)
  {
    assert WordTexts(RawLine(raw, fontSize, measure).words) == SplitAtBoundaries(raw);
  }

  /** One line per line feed, plus one. */
  lemma RawLineCount(text: string, fontSize: real, measure: string -> real)
    ensures |RawLines(text, fontSize, measure)| == multiset(text)['\n'] + 1
  {
    SplitOnCount(text, '\n');
  }

  /** The first half of layout: one line per raw line, each holding the measured words of that line. */
  method SplitLines(text: string, fontSize: real, measure: string -> real) returns (lines: seq<Line>)
    ensures lines == RawLines(text, fontSize, measure)
  {
    lines := [];
    var rawLines := SplitOn(text, '\n');
    for r := 0 to |rawLines|
      invariant |lines| == r
      invariant forall k :: 0 <= k < r ==> lines[k] == RawLine(rawLines[k], fontSize, measure)
    {
      var line := SplitWords(rawLines[r], fontSize, measure);
      lines := lines + [line];
    }
  }

  /** One line of the split pass: a line holding the measured words of `raw`, in order. */
  method SplitWords(raw: string, fontSize: real, measure: string -> real) returns (line: Line)
    ensures line == RawLine(raw, fontSize, measure)
  {
    line := Line(0.0, 0.0, []);
    var words := SplitAtBoundaries(raw);
    for w := 0 to |words|
      invariant line.width == 0.0 && line.height == 0.0 && |line.words| == w
      invariant forall k :: 0 <= k < w ==> line.words[k] == MakeWord(words[k], fontSize, measure)
    {
      var word := MakeWord(words[w], fontSize, measure);
      line := line.(words := line.words + [word]);
    }
  }

  // ---------------------------------------------------------------------------
  // wrapping

  /** All the words of the lines, in order. */
  function Flatten(lines: seq<Line>): seq<Word> {
    if |lines| == 0 then [] else lines[0].words + Flatten(lines[1..])
  }

  /** The x cursor of the wrap pass at word `j`: the widths of the words before it, each followed by a space. */
  function Offset(ws: seq<Word>, j: nat, space: real): real
    requires j <= |ws|
  {
    if j == 0 then 0.0 else Offset(ws, j - 1, space) + ws[j - 1].width + space
  }

  /** Word `m` ends within the wrap width. */
  predicate EndsWithin(ws: seq<Word>, m: nat, wrap: real, space: real)
    requires m < |ws|
  {
    Offset(ws, m, space) + ws[m].width <= wrap
  }

  /** None of the first `j` words ends past the wrap width. */
  predicate FitsBefore(ws: seq<Word>, j: nat, wrap: real, space: real)
    requires j <= |ws|
  {
    forall m :: 0 <= m < j ==> EndsWithin(ws, m, wrap, space)
  }

  /** A line the wrap pass leaves as it is. */
  predicate Fits(ws: seq<Word>, wrap: real, space: real) {
    FitsBefore(ws, |ws|, wrap, space)
  }

  /** Every word is at most as wide as the wrap width. */
  predicate Narrow(ws: seq<Word>, wrap: real) {
    forall m :: 0 <= m < |ws| ==> ws[m].width <= wrap
  }

  lemma AppendAssoc<T>(x: seq<T>, y: seq<T>, z: seq<T>)
    ensures x + (y + z) == (x + y) + z
  {
  }

  lemma SplitAround<T>(s: seq<T>, i: nat)
    requires i < |s|
    ensures s[i..] == [s[i]] + s[i + 1..] && s == s[..i] + s[i..]
  {
  }

  lemma FlattenCons(line: Line, rest: seq<Line>)
    ensures Flatten([line] + rest) == line.words + Flatten(rest)
  {
    assert ([line] + rest)[1..] == rest;
  }

  lemma {:induction false} FlattenAppend(a: seq<Line>, b: seq<Line>)
    ensures Flatten(a + b) == Flatten(a) + Flatten(b)
  {
    if a == [] {
      assert a + b == b;
    } else {
      FlattenAppend(a[1..], b);
      assert a + b == [a[0]] + (a[1..] + b);
      FlattenCons(a[0], a[1..] + b);
      assert a == [a[0]] + a[1..];
      FlattenCons(a[0], a[1..]);
      AppendAssoc(a[0].words, Flatten(a[1..]), Flatten(b));
    }
  }

  lemma FlattenAt(lines: seq<Line>, i: nat)
    requires i < |lines|
    ensures Flatten(lines) == Flatten(lines[..i]) + lines[i].words + Flatten(lines[i + 1..])
    ensures Flatten(lines[i..]) == lines[i].words + Flatten(lines[i + 1..])
  {
    SplitAround(lines, i);
    FlattenCons(lines[i], lines[i + 1..]);
    FlattenAppend(lines[..i], lines[i..]);
    AppendAssoc(Flatten(lines[..i]), lines[i].words, Flatten(lines[i + 1..]));
  }

  lemma NarrowAt(lines: seq<Line>, i: nat, wrap: real)
    requires i < |lines| && Narrow(Flatten(lines), wrap)
    ensures Narrow(lines[i].words, wrap)
  {
    var pre, ws, post := Flatten(lines[..i]), lines[i].words, Flatten(lines[i + 1..]);
    assert Narrow(pre + ws + post, wrap) by {
      FlattenAt(lines, i);
    }
    forall m | 0 <= m < |ws|
      ensures ws[m].width <= wrap
    {
      assert ws[m] == (pre + ws + post)[|pre| + m];
    }
  }

  lemma {:induction false} OffsetPrefix(ws: seq<Word>, j: nat, m: nat, space: real)
    requires m <= j <= |ws|
    ensures Offset(ws[..j], m, space) == Offset(ws, m, space)
    decreases m
  {
    if m > 0 {
      OffsetPrefix(ws, j, m - 1, space);
      assert ws[..j][m - 1] == ws[m - 1];
    }
  }

  lemma FitsPrefix(ws: seq<Word>, j: nat, wrap: real, space: real)
    requires j <= |ws| && FitsBefore(ws, j, wrap, space)
    ensures Fits(ws[..j], wrap, space)
  {
    forall m | 0 <= m < j
      ensures EndsWithin(ws[..j], m, wrap, space)
    {
      assert EndsWithin(ws, m, wrap, space);
      OffsetPrefix(ws, j, m, space);
    }
  }

  /**
   * The lines after the wrap pass has split the last line `i` of `before` before its first word
   * that ends past the wrap width.
   */
  ghost predicate WrappedAt(before: seq<Line>, lines: seq<Line>, i: nat, wrap: real, space: real) {
    i + 1 == |before| && |lines| == i + 2 && lines[..i] == before[..i] &&
    lines[i] == before[i].(words := lines[i].words) && lines[i + 1] == Line(0.0, 0.0, lines[i + 1].words) &&
    lines[i].words + lines[i + 1].words == before[i].words &&
    lines[i].words != [] && lines[i + 1].words != [] && Fits(lines[i].words, wrap, space) &&
    FitsBefore(before[i].words, |lines[i].words|, wrap, space) &&
    !EndsWithin(before[i].words, |lines[i].words|, wrap, space)
  }

  // ---------------------------------------------------------------------------
  // the greedy wrap, stated on its own

  /** The position of the first word that ends past the wrap width, or the number of words when none does. */
  function FirstOverflow(ws: seq<Word>, wrap: real, space: real): (j: nat)
    ensures j <= |ws| && FitsBefore(ws, j, wrap, space)
    ensures j < |ws| ==> !EndsWithin(ws, j, wrap, space)
  {
    OverflowFrom(ws, 0, wrap, space)
  }

  function OverflowFrom(ws: seq<Word>, m: nat, wrap: real, space: real): (j: nat)
    requires m <= |ws| && FitsBefore(ws, m, wrap, space)
    ensures m <= j <= |ws| && FitsBefore(ws, j, wrap, space)
    ensures j < |ws| ==> !EndsWithin(ws, j, wrap, space)
    decreases |ws| - m
  {
    if m == |ws| || !EndsWithin(ws, m, wrap, space) then m else OverflowFrom(ws, m + 1, wrap, space)
  }

  /** The first overflowing word is the only position before which every word ends in time and at which one does not. */
  lemma FirstOverflowUnique(ws: seq<Word>, j: nat, wrap: real, space: real)
    requires j <= |ws| && FitsBefore(ws, j, wrap, space)
    requires j < |ws| ==> !EndsWithin(ws, j, wrap, space)
    ensures FirstOverflow(ws, wrap, space) == j
  {
  }

  /**
   * The greedy wrap of one line: the line keeps the words before the first one that ends past
   * the wrap width, and the rest form a new line, which is wrapped in turn. A line whose first
   * word is itself too wide is left whole; the wrap pass never finishes on such a line.
   */
  function Greedy(line: Line, wrap: real, space: real): seq<Line>
    decreases |line.words|
  {
    var j := FirstOverflow(line.words, wrap, space);
    if j == 0 || j == |line.words| then [line]
    else [line.(words := line.words[..j])] + Greedy(Line(0.0, 0.0, line.words[j..]), wrap, space)
  }

  /** The greedy wrap of every line, in order. */
  function GreedyAll(lines: seq<Line>, wrap: real, space: real): seq<Line> {
    if lines == [] then [] else Greedy(lines[0], wrap, space) + GreedyAll(lines[1..], wrap, space)
  }

  /** The greedy wrap keeps the words of the line, in order; the first piece keeps the line's fields, later pieces are new lines. */
  lemma {:induction false} GreedyKeepsWords(line: Line, wrap: real, space: real)
    ensures Flatten(Greedy(line, wrap, space)) == line.words
    ensures Greedy(line, wrap, space)[0] == line.(words := Greedy(line, wrap, space)[0].words)
    ensures forall k :: 0 < k < |Greedy(line, wrap, space)| ==>
              Greedy(line, wrap, space)[k] == Line(0.0, 0.0, Greedy(line, wrap, space)[k].words)
    decreases |line.words|
  {
    var ws, j := line.words, FirstOverflow(line.words, wrap, space);
    if j != 0 && j != |ws| {
      var rest := Line(0.0, 0.0, ws[j..]);
      GreedyKeepsWords(rest, wrap, space);
      var r := Greedy(line, wrap, space);
      assert r == [line.(words := ws[..j])] + Greedy(rest, wrap, space);
      FlattenAppend([line.(words := ws[..j])], Greedy(rest, wrap, space));
      assert ws == ws[..j] + ws[j..];
      forall k | 0 < k < |r|
        ensures r[k] == Line(0.0, 0.0, r[k].words)
      {
        assert r[k] == Greedy(rest, wrap, space)[k - 1];
      }
    }
  }

  /** A line of words that each fit the wrap width is left whole by the greedy wrap exactly when it fits. */
  lemma GreedyKeepsFitting(line: Line, wrap: real, space: real)
    requires Narrow(line.words, wrap)
    ensures Greedy(line, wrap, space) == [line] <==> Fits(line.words, wrap, space)
  {
    var ws, j := line.words, FirstOverflow(line.words, wrap, space);
    if Fits(ws, wrap, space) {
      FirstOverflowUnique(ws, |ws|, wrap, space);
    } else {
      assert EndsWithin(ws, 0, wrap, space);
      assert Greedy(line, wrap, space)[0].words == ws[..j];
    }
  }

  /** Every piece of the greedy wrap of a line of narrow words fits, and none is empty unless the line is. */
  lemma {:induction false} GreedyFits(line: Line, wrap: real, space: real)
    requires Narrow(line.words, wrap)
    ensures forall k :: 0 <= k < |Greedy(line, wrap, space)| ==> Fits(Greedy(line, wrap, space)[k].words, wrap, space)
    ensures line.words != [] ==> forall k :: 0 <= k < |Greedy(line, wrap, space)| ==> Greedy(line, wrap, space)[k].words != []
    decreases |line.words|
  {
    var ws, j := line.words, FirstOverflow(line.words, wrap, space);
    if ws != [] {
      assert EndsWithin(ws, 0, wrap, space);
    }
    if j == |ws| {
      FirstOverflowUnique(ws, j, wrap, space);
    } else if j != 0 {
      var rest := Line(0.0, 0.0, ws[j..]);
      assert Narrow(rest.words, wrap) by {
        forall m | 0 <= m < |rest.words| ensures rest.words[m].width <= wrap {
          assert rest.words[m] == ws[j + m];
        }
      }
      GreedyFits(rest, wrap, space);
      FitsPrefix(ws, j, wrap, space);
      var r := Greedy(line, wrap, space);
      forall k | 0 < k < |r|
        ensures r[k] == Greedy(rest, wrap, space)[k - 1]
      {
      }
    }
  }

  /**
   * The greedy wrap cuts as late as it can: the first word of each new line would have ended
   * past the wrap width on the line before it.
   */
  lemma {:induction false} GreedyCutsLate(line: Line, wrap: real, space: real)
    ensures forall k :: 0 <= k < |Greedy(line, wrap, space)| - 1 ==> CutLate(Greedy(line, wrap, space), k, wrap, space)
    decreases |line.words|
  {
    var ws, j := line.words, FirstOverflow(line.words, wrap, space);
    if j != 0 && j != |ws| {
      var rest := Line(0.0, 0.0, ws[j..]);
      var tail := Greedy(rest, wrap, space);
      GreedyCutsLate(rest, wrap, space);
      GreedyStartsLine(rest, wrap, space);
      var r := Greedy(line, wrap, space);
      assert r == [line.(words := ws[..j])] + tail;
      assert r[0].words + [r[1].words[0]] == ws[..j + 1];
      OffsetPrefix(ws, j + 1, j, space);
      assert CutLate(r, 0, wrap, space);
      forall k | 1 <= k < |r| - 1
        ensures CutLate(r, k, wrap, space)
      {
        assert CutLate(tail, k - 1, wrap, space);
        assert r[k] == tail[k - 1] && r[k + 1] == tail[k];
      }
    }
  }

  /** Line `k + 1` starts with a word that would have ended past the wrap width at the end of line `k`. */
  predicate CutLate(r: seq<Line>, k: nat, wrap: real, space: real)
    requires k + 1 < |r|
  {
    r[k + 1].words != [] && !EndsWithin(r[k].words + [r[k + 1].words[0]], |r[k].words|, wrap, space)
  }

  /** The first piece of the greedy wrap of a non-empty line starts with the line's first word. */
  lemma GreedyStartsLine(line: Line, wrap: real, space: real)
    requires line.words != []
    ensures Greedy(line, wrap, space)[0].words != [] && Greedy(line, wrap, space)[0].words[0] == line.words[0]
  {
  }

  /** Wrapping all lines keeps all words, in order. */
  lemma {:induction false} GreedyAllKeepsWords(lines: seq<Line>, wrap: real, space: real)
    ensures Flatten(GreedyAll(lines, wrap, space)) == Flatten(lines)
    decreases |lines|
  {
    if lines != [] {
      GreedyAllKeepsWords(lines[1..], wrap, space);
      GreedyKeepsWords(lines[0], wrap, space);
      FlattenAppend(Greedy(lines[0], wrap, space), GreedyAll(lines[1..], wrap, space));
    }
  }

  /** Wrapping lines of narrow words gives lines that all fit, and no empty line unless one was there. */
  lemma {:induction false} GreedyAllFits(lines: seq<Line>, wrap: real, space: real)
    requires Narrow(Flatten(lines), wrap)
    ensures forall k :: 0 <= k < |GreedyAll(lines, wrap, space)| ==> Fits(GreedyAll(lines, wrap, space)[k].words, wrap, space)
    ensures (forall k :: 0 <= k < |lines| ==> lines[k].words != []) ==>
              forall k :: 0 <= k < |GreedyAll(lines, wrap, space)| ==> GreedyAll(lines, wrap, space)[k].words != []
    decreases |lines|
  {
    if lines != [] {
      NarrowAt(lines, 0, wrap);
      assert Narrow(Flatten(lines[1..]), wrap) by {
        FlattenAt(lines, 0);
        var pre := lines[0].words;
        forall m | 0 <= m < |Flatten(lines[1..])| ensures Flatten(lines[1..])[m].width <= wrap {
          assert Flatten(lines[1..])[m] == Flatten(lines)[|pre| + m];
        }
      }
      GreedyAllFits(lines[1..], wrap, space);
      GreedyFits(lines[0], wrap, space);
      var a, b := Greedy(lines[0], wrap, space), GreedyAll(lines[1..], wrap, space);
      forall k | |a| <= k < |a| + |b|
        ensures (a + b)[k] == b[k - |a|]
      {
      }
      if forall k :: 0 <= k < |lines| ==> lines[k].words != [] {
        assert lines[0].words != [];
        assert forall k :: 0 <= k < |lines[1..]| ==> lines[1..][k].words != [] by {
          forall k | 0 <= k < |lines[1..]| ensures lines[1..][k].words != [] {
            assert lines[1..][k] == lines[k + 1];
          }
        }
      }
    }
  }

  /** The greedy wrap of the lines from `i` on is that of line `i` followed by that of the rest. */
  lemma GreedyAllAt(lines: seq<Line>, i: nat, wrap: real, space: real)
    requires i < |lines|
    ensures GreedyAll(lines[i..], wrap, space) == Greedy(lines[i], wrap, space) + GreedyAll(lines[i + 1..], wrap, space)
  {
    assert lines[i..][0] == lines[i] && lines[i..][1..] == lines[i + 1..];
  }

  /** One call of the wrap pass on line `i` moves the boundary of the finished lines by one, along the greedy wrap. */
  lemma GreedyStep(before: seq<Line>, lines: seq<Line>, i: nat, wrap: real, space: real)
    requires i < |before|
    requires Fits(before[i].words, wrap, space) ==> lines == before
    requires !Fits(before[i].words, wrap, space) ==> WrappedAt(before, lines, i, wrap, space)
    ensures i < |lines|
    ensures lines[..i + 1] + GreedyAll(lines[i + 1..], wrap, space) == before[..i] + GreedyAll(before[i..], wrap, space)
  {
    var ws := before[i].words;
    GreedyAllAt(before, i, wrap, space);
    if Fits(ws, wrap, space) {
      FirstOverflowUnique(ws, |ws|, wrap, space);
      assert lines[..i + 1] == before[..i] + [before[i]];
    } else {
      var j := |lines[i].words|;
      FirstOverflowUnique(ws, j, wrap, space);
      assert ws[..j] == lines[i].words && ws[j..] == lines[i + 1].words;
      assert Greedy(before[i], wrap, space) == [lines[i]] + Greedy(lines[i + 1], wrap, space);
      assert before[i + 1..] == [] && lines[i + 2..] == [];
      GreedyAllAt(lines, i + 1, wrap, space);
      assert lines[..i + 1] == before[..i] + [lines[i]];
    }
  }

  /** What the pass knows when word `j` of line `i` runs past the wrap width: this is the last line and not its first word. */
  lemma OverflowAtEnd(lines: seq<Line>, i: nat, j: nat, x: real, wrap: real, space: real)
    requires i < |lines| && j < |lines[i].words| && Narrow(lines[i].words, wrap)
    requires i < |lines| - 1 ==> Fits(lines[i].words, wrap, space)
    requires x == Offset(lines[i].words, j, space) && x + lines[i].words[j].width > wrap
    ensures i + 1 == |lines| && 0 < j
  {
    assert !EndsWithin(lines[i].words, j, wrap, space);
  }

  /** After a split of the last line, the words are the same and the pass may go on with the new line. */
  lemma WrapKeeps(lines0: seq<Line>, before: seq<Line>, lines: seq<Line>, i: nat, wrap: real, space: real)
    requires i < |before| && WrappedAt(before, lines, i, wrap, space)
    requires |before| >= |lines0| && forall k :: 0 <= k < |lines0| - 1 ==> before[k] == lines0[k]
    requires forall k :: 0 <= k < i ==> Fits(before[k].words, wrap, space)
    ensures Flatten(lines) == Flatten(before)
    ensures |Flatten(lines[i + 1..])| < |Flatten(before[i..])|
    ensures forall k :: 0 <= k < |lines0| - 1 ==> lines[k] == lines0[k]
    ensures forall k :: 0 <= k < i + 1 ==> Fits(lines[k].words, wrap, space)
  {
    FlattenAt(before, i);
    FlattenAt(lines, i);
    FlattenAt(lines, i + 1);
    assert lines[..i] == before[..i];
    assert before[i + 1..] == [] && lines[i + 2..] == [];
    forall k | 0 <= k < i
      ensures lines[k] == before[k]
    {
      assert lines[..i][k] == before[..i][k];
    }
  }

  /**
   * One line of the wrap pass: the x cursor advances by each word's width and a space; at the
   * first word that would end past the wrap width, that word and the rest of the line move to a
   * new line inserted right after. Only the last line can overflow, so there is never a next
   * line to take the words.
   */
  method WrapLine(lines0: seq<Line>, i: nat, wrapWidth: real, spaceWidth: real) returns (lines: seq<Line>)
    requires i < |lines0| && Narrow(lines0[i].words, wrapWidth)
    requires i < |lines0| - 1 ==> Fits(lines0[i].words, wrapWidth, spaceWidth)
    ensures Fits(lines0[i].words, wrapWidth, spaceWidth) ==> lines == lines0
    ensures !Fits(lines0[i].words, wrapWidth, spaceWidth) ==> WrappedAt(lines0, lines, i, wrapWidth, spaceWidth)
  {
    lines := lines0;
    ghost var wrapped := false;
    var x := 0.0;
    var j := 0;
    while j < |lines[i].words|
      invariant i < |lines| && 0 <= j <= |lines[i].words| + 1
      invariant !wrapped ==> lines == lines0 && j <= |lines[i].words| &&
                             x == Offset(lines[i].words, j, spaceWidth) && FitsBefore(lines[i].words, j, wrapWidth, spaceWidth)
      invariant wrapped ==> j == |lines[i].words| + 1 && WrappedAt(lines0, lines, i, wrapWidth, spaceWidth)
      decreases |lines[i].words| + 1 - j
    {
      var word := lines[i].words[j];
      if x + word.width > wrapWidth {
        OverflowAtEnd(lines, i, j, x, wrapWidth, spaceWidth);
        // `lines[i + 1]` does not exist here, so the next line is a new, empty one.
        var nextLine := Line(0.0, 0.0, []);
        var k := j;
        while k < |lines[i].words|
          invariant j <= k <= |lines[i].words|
          invariant nextLine == Line(0.0, 0.0, lines[i].words[j..k])
        {
          nextLine := nextLine.(words := nextLine.words + [lines[i].words[k]]);
          k := k + 1;
        }
        FitsPrefix(lines[i].words, j, wrapWidth, spaceWidth);
        assert lines[i].words[..j] + lines[i].words[j..] == lines[i].words;
        lines := lines[i := lines[i].(words := lines[i].words[..j])];
        lines := lines[..i + 1] + [nextLine] + lines[i + 1..];
        x := 0.0;
        wrapped := true;
      }
      x := x + word.width + spaceWidth;
      j := j + 1;
    }
  }

  /**
   * The lines the wrap pass handles: every word fits the wrap width on its own, and every line
   * but the last fits it unwrapped.
   */
  predicate Wrappable(lines0: seq<Line>, wrapWidth: real, spaceWidth: real) {
    Narrow(Flatten(lines0), wrapWidth) &&
    forall k :: 0 <= k < |lines0| - 1 ==> Fits(lines0[k].words, wrapWidth, spaceWidth)
  }

  /**
   * The wrap pass of layout. Each line is scanned with an x cursor that advances by the word's
   * width and a space; at the first word that would end past the wrap width, that word and the
   * rest move to a new line inserted right after, which the pass scans next.
   */
  method WrapLines(lines0: seq<Line>, wrapWidth: real, spaceWidth: real) returns (lines: seq<Line>)
    requires Wrappable(lines0, wrapWidth, spaceWidth)
    ensures lines == GreedyAll(lines0, wrapWidth, spaceWidth)
    ensures Flatten(lines) == Flatten(lines0)
    ensures forall k :: 0 <= k < |lines| ==> Fits(lines[k].words, wrapWidth, spaceWidth)
    ensures |lines| >= |lines0| && forall k :: 0 <= k < |lines0| - 1 ==> lines[k] == lines0[k]
    ensures (forall k :: 0 <= k < |lines0| ==> lines0[k].words != []) ==> forall k :: 0 <= k < |lines| ==> lines[k].words != []
  {
    lines := lines0;
    var i := 0;
    assert lines[..0] == [] && lines[0..] == lines;
    while i < |lines|
      invariant WrapProgress(lines0, lines, i, wrapWidth, spaceWidth)
      decreases |Flatten(lines[i..])|, |lines| - i
    {
      ghost var before := lines;
      NarrowAt(lines, i, wrapWidth);
      lines := WrapLine(lines, i, wrapWidth, spaceWidth);
      WrapProgressStep(lines0, before, lines, i, wrapWidth, spaceWidth);
      i := i + 1;
    }
    WrapDone(lines0, lines, i, wrapWidth, spaceWidth);
  }

  /** What the wrap pass keeps true from one line to the next: lines before `i` are done, along the greedy wrap. */
  ghost predicate WrapProgress(lines0: seq<Line>, lines: seq<Line>, i: nat, wrap: real, space: real) {
    i <= |lines| && |lines| >= |lines0| &&
    Wrappable(lines0, wrap, space) &&
    Flatten(lines) == Flatten(lines0) &&
    (forall k :: 0 <= k < |lines0| - 1 ==> lines[k] == lines0[k]) &&
    (forall k :: 0 <= k < i ==> Fits(lines[k].words, wrap, space)) &&
    (forall k :: i <= k < |lines| - 1 ==> Fits(lines[k].words, wrap, space)) &&
    ((forall k :: 0 <= k < |lines0| ==> lines0[k].words != []) ==> forall k :: 0 <= k < |lines| ==> lines[k].words != []) &&
    lines[..i] + GreedyAll(lines[i..], wrap, space) == GreedyAll(lines0, wrap, space)
  }

  /** Once every line has been passed, the lines are the greedy wrap of the raw ones. */
  lemma WrapDone(lines0: seq<Line>, lines: seq<Line>, i: nat, wrap: real, space: real)
    requires WrapProgress(lines0, lines, i, wrap, space) && i >= |lines|
    ensures lines == GreedyAll(lines0, wrap, space)
    ensures Flatten(lines) == Flatten(lines0)
    ensures forall k :: 0 <= k < |lines| ==> Fits(lines[k].words, wrap, space)
    ensures |lines| >= |lines0| && forall k :: 0 <= k < |lines0| - 1 ==> lines[k] == lines0[k]
    ensures (forall k :: 0 <= k < |lines0| ==> lines0[k].words != []) ==> forall k :: 0 <= k < |lines| ==> lines[k].words != []
  {
    assert lines[..i] == lines && lines[i..] == [];
  }

  /** One pass of the outer wrap loop keeps its progress and leaves fewer words, or as many and fewer lines, ahead. */
  lemma WrapProgressStep(lines0: seq<Line>, before: seq<Line>, lines: seq<Line>, i: nat, wrap: real, space: real)
    requires WrapProgress(lines0, before, i, wrap, space) && i < |before|
    requires Fits(before[i].words, wrap, space) ==> lines == before
    requires !Fits(before[i].words, wrap, space) ==> WrappedAt(before, lines, i, wrap, space)
    ensures WrapProgress(lines0, lines, i + 1, wrap, space)
    ensures |Flatten(lines[i + 1..])| <= |Flatten(before[i..])|
    ensures |Flatten(lines[i + 1..])| == |Flatten(before[i..])| ==> |lines| == |before|
  {
    GreedyStep(before, lines, i, wrap, space);
    FlattenAt(before, i);
    if lines != before {
      WrapKeeps(lines0, before, lines, i, wrap, space);
    } else {
      FlattenAt(lines, i);
    }
  }

  // ---------------------------------------------------------------------------
  // line sizes

  /** The words' widths added up, without spaces. */
  function TotalWidth(ws: seq<Word>): real {
    if |ws| == 0 then 0.0 else TotalWidth(ws[..|ws| - 1]) + ws[|ws| - 1].width
  }

  /** The largest word height, and 0 for a line without words. */
  function MaxHeight(ws: seq<Word>): real {
    if |ws| == 0 then 0.0 else Max(MaxHeight(ws[..|ws| - 1]), ws[|ws| - 1].height)
  }

  function Max(a: real, b: real): real { if a < b then b else a }

  /** The line height is the tallest word, or 0: no word is taller and, unless it is 0, some word has it. */
  lemma {:induction false} MaxHeightIsTallest(ws: seq<Word>)
    ensures MaxHeight(ws) >= 0.0
    ensures forall w :: w in ws ==> w.height <= MaxHeight(ws)
    ensures MaxHeight(ws) == 0.0 || exists w :: w in ws && w.height == MaxHeight(ws)
    decreases |ws|
  {
    if ws != [] {
      var init := ws[..|ws| - 1];
      MaxHeightIsTallest(init);
      assert ws == init + [ws[|ws| - 1]];
      if MaxHeight(init) != 0.0 && MaxHeight(init) >= ws[|ws| - 1].height {
        var w :| w in init && w.height == MaxHeight(init);
        assert w in ws;
      }
    }
  }

  /** The cursor at word `j`: the widths of the words before it plus one space for each. */
  lemma {:induction false} OffsetIsWidthPlusSpaces(ws: seq<Word>, j: nat, space: real)
    requires j <= |ws|
    ensures Offset(ws, j, space) == TotalWidth(ws[..j]) + j as real * space
    decreases j
  {
    if j > 0 {
      OffsetIsWidthPlusSpaces(ws, j - 1, space);
      assert ws[..j][..j - 1] == ws[..j - 1];
      OneMore(j, space);
    }
  }

  lemma OneMore(j: nat, f: real)
    requires j > 0
    ensures j as real * f == (j - 1) as real * f + f
  {
  }

  /** A wrapped line, with a space between consecutive words, is no wider than the wrap width. */
  lemma FittingLineWidth(ws: seq<Word>, wrap: real, space: real)
    requires ws != [] && Fits(ws, wrap, space)
    ensures TotalWidth(ws) + (|ws| - 1) as real * space <= wrap
  {
    assert EndsWithin(ws, |ws| - 1, wrap, space);
    LastWordEnd(ws, wrap, space);
  }

  lemma LastWordEnd(ws: seq<Word>, wrap: real, space: real)
    requires ws != [] && Offset(ws, |ws| - 1, space) + ws[|ws| - 1].width <= wrap
    ensures TotalWidth(ws) + (|ws| - 1) as real * space <= wrap
  {
    OffsetIsWidthPlusSpaces(ws, |ws| - 1, space);
  }

  /** The last pass of layout: each line's width and height from its words. */
  method MeasureLines(lines0: seq<Line>) returns (lines: seq<Line>)
    ensures |lines| == |lines0|
    ensures forall k :: 0 <= k < |lines| ==>
              lines[k] == lines0[k].(width := TotalWidth(lines0[k].words), height := MaxHeight(lines0[k].words))
  {
    lines := lines0;
    for k := 0 to |lines|
      invariant |lines| == |lines0|
      invariant forall m :: 0 <= m < k ==>
                  lines[m] == lines0[m].(width := TotalWidth(lines0[m].words), height := MaxHeight(lines0[m].words))
      invariant forall m :: k <= m < |lines| ==> lines[m] == lines0[m]
    {
      var width := 0.0;
      var height := 0.0;
      var words := lines[k].words;
      for m := 0 to |words|
        invariant width == TotalWidth(words[..m]) && height == MaxHeight(words[..m])
      {
        assert words[..m + 1][..m] == words[..m];
        width := width + words[m].width;
        height := Max(height, words[m].height);
      }
      assert words[..|words|] == words;
      lines := lines[k := lines[k].(width := width, height := height)];
    }
  }

  /**
   * layout: split, wrap, then size the lines. The result is the greedy wrap of the text's lines,
   * each sized from its words. Every word of the text must fit the wrap width on its own, and
   * every line of the text but the last must fit it unwrapped; the wrap pass does not terminate,
   * or duplicates a line, otherwise.
   */
  method Layout(text: string, fontSize: real, measure: string -> real, wrapWidth: real) returns (lines: seq<Line>)
    requires Wrappable(RawLines(text, fontSize, measure), wrapWidth, measure(" "))
    ensures var wrapped := GreedyAll(RawLines(text, fontSize, measure), wrapWidth, measure(" "));
            |lines| == |wrapped| &&
            forall k :: 0 <= k < |lines| ==>
              lines[k] == wrapped[k].(width := TotalWidth(wrapped[k].words), height := MaxHeight(wrapped[k].words))
    ensures Flatten(lines) == Flatten(RawLines(text, fontSize, measure))
    ensures forall k :: 0 <= k < |lines| ==> Fits(lines[k].words, wrapWidth, measure(" ")) && lines[k].words != []
    ensures forall k :: 0 <= k < |lines| ==>
              lines[k].width == TotalWidth(lines[k].words) && lines[k].height == MaxHeight(lines[k].words)
    ensures |lines| >= |RawLines(text, fontSize, measure)|
    ensures forall k :: 0 <= k < |RawLines(text, fontSize, measure)| - 1 ==> lines[k].words == RawLines(text, fontSize, measure)[k].words
  {
    var spaceWidth := measure(" ");
    var raw := SplitLines(text, fontSize, measure);
    forall k | 0 <= k < |raw|
      ensures raw[k].words != []
    {
      WordsSpellRawLine(SplitOn(text, '\n')[k], fontSize, measure);
    }
    var wrapped := WrapLines(raw, wrapWidth, spaceWidth);
    lines := MeasureLines(wrapped);
    FlattenSameWords(lines, wrapped);
  }

  lemma {:induction false} FlattenSameWords(lines: seq<Line>, other: seq<Line>)
    requires |lines| == |other| && forall k :: 0 <= k < |lines| ==> lines[k].words == other[k].words
    ensures Flatten(lines) == Flatten(other)
    decreases |lines|
  {
    if lines != [] {
      FlattenSameWords(lines[1..], other[1..]);
    }
  }

  /** Laying out loses no text: the words of all lines spell the text with its line feeds left out. */
  lemma {:induction false} LaidOutWordsSpellText(text: string, fontSize: real, measure: string -> real)
    ensures Concat(WordTexts(Flatten(RawLines(text, fontSize, measure)))) == Concat(SplitOn(text, '\n'))
  {
    WordsSpellLines(SplitOn(text, '\n'), fontSize, measure);
  }

  lemma {:induction false} WordsSpellLines(raws: seq<string>, fontSize: real, measure: string -> real)
    ensures Concat(WordTexts(Flatten(LinesOf(raws, fontSize, measure)))) == Concat(raws)
    decreases |raws|
  {
    if raws != [] {
      var lines := LinesOf(raws, fontSize, measure);
      var rest := Flatten(lines[1..]);
      WordsSpellLines(raws[1..], fontSize, measure);
      assert lines[1..] == LinesOf(raws[1..], fontSize, measure);
      WordsSpellRawLine(raws[0], fontSize, measure);
      assert Flatten(lines) == lines[0].words + rest;
      WordTextsAppend(lines[0].words, rest);
      ConcatAppend(WordTexts(lines[0].words), WordTexts(rest));
    }
  }

  lemma WordTextsAppend(a: seq<Word>, b: seq<Word>)
    ensures WordTexts(a + b) == WordTexts(a) + WordTexts(b)
  {
  }

  // ---------------------------------------------------------------------------
  // height and hit-testing

  /** The `height` getter: the line heights added up from the first line. */
  function TextHeight(lines: seq<Line>): real {
    if |lines| == 0 then 0.0 else TextHeight(lines[..|lines| - 1]) + lines[|lines| - 1].height
  }

  /** A laid-out text whose lines all hold words is as high as one font size per line. */
  lemma TextHeightOfLines(lines: seq<Line>, fontSize: real)
    requires fontSize >= 0.0
    requires forall k :: 0 <= k < |lines| ==> lines[k].words != [] && lines[k].height == MaxHeight(lines[k].words)
    requires forall k, m :: 0 <= k < |lines| && 0 <= m < |lines[k].words| ==> lines[k].words[m].height == fontSize
    ensures TextHeight(lines) == |lines| as real * fontSize
  {
    assert TextHeight(lines) == Stack(|lines|, fontSize) by {
      TextHeightStacks(lines, fontSize);
    }
    StackIsProduct(|lines|, fontSize);
  }

  /** `n` copies of `f` added up. */
  function Stack(n: nat, f: real): real {
    if n == 0 then 0.0 else Stack(n - 1, f) + f
  }

  lemma {:induction false} StackIsProduct(n: nat, f: real)
    ensures Stack(n, f) == n as real * f
  {
    if n > 0 {
      StackIsProduct(n - 1, f);
      assert n as real * f == (n - 1) as real * f + f;
    }
  }

  lemma {:induction false} TextHeightStacks(lines: seq<Line>, fontSize: real)
    requires fontSize >= 0.0
    requires forall k :: 0 <= k < |lines| ==> lines[k].words != [] && lines[k].height == MaxHeight(lines[k].words)
    requires forall k, m :: 0 <= k < |lines| && 0 <= m < |lines[k].words| ==> lines[k].words[m].height == fontSize
    ensures TextHeight(lines) == Stack(|lines|, fontSize)
    decreases |lines|
  {
    if lines != [] {
      var n := |lines| - 1;
      var init := lines[..n];
      assert forall k :: 0 <= k < n ==> init[k] == lines[k];
      TextHeightStacks(init, fontSize);
      MaxHeightIsTallest(lines[n].words);
      assert lines[n].words[0] in lines[n].words;
    }
  }

  /** The y of the top of line `k`: the heights of the lines above it. */
  function LineTop(lines: seq<Line>, k: nat): real
    requires k <= |lines|
  {
    TextHeight(lines[..k])
  }

  /** The x of the left edge of word `j`: the widths of the words before it. */
  function WordLeft(ws: seq<Word>, j: nat): real
    requires j <= |ws|
  {
    TotalWidth(ws[..j])
  }

  /** The x of the left edge of character `c`, counted from `start`. */
  function CharLeft(cs: seq<Character>, c: nat, start: real): real
    requires c <= |cs|
  {
    if c == 0 then start else CharLeft(cs, c - 1, start) + cs[c - 1].width
  }

  predicate InLine(lines: seq<Line>, k: nat, y: real)
    requires k < |lines|
  {
    LineTop(lines, k) <= y <= LineTop(lines, k) + lines[k].height
  }

  predicate InWord(ws: seq<Word>, j: nat, top: real, x: real, y: real)
    requires j < |ws|
  {
    WordLeft(ws, j) <= x <= WordLeft(ws, j) + ws[j].width && top <= y <= top + ws[j].height
  }

  predicate InChar(cs: seq<Character>, c: nat, start: real, top: real, x: real, y: real)
    requires c < |cs|
  {
    CharLeft(cs, c, start) <= x <= CharLeft(cs, c, start) + cs[c].width && top <= y <= top + cs[c].height
  }

  /** The line, word and character under a point, by their positions. */
  datatype Selection = Selection(line: Option<nat>, word: Option<nat>, character: Option<nat>)

  /**
   * getSelectedObjects: the first line whose closed band holds `localY`; then the first word of
   * that line under the point; then, from that word's left edge, the first character under it.
   */
  method GetSelectedObjects(localX: real, localY: real, lines: seq<Line>) returns (s: Selection)
    ensures s.line.Some? ==> s.line.value < |lines| && InLine(lines, s.line.value, localY)
    ensures forall k :: 0 <= k < |lines| && (s.line.None? || k < s.line.value) ==> !InLine(lines, k, localY)
    ensures s.word.Some? ==> s.line.Some? && s.word.value < |lines[s.line.value].words|
    ensures s.line.Some? ==>
              var ws, top := lines[s.line.value].words, LineTop(lines, s.line.value);
              (s.word.Some? ==> InWord(ws, s.word.value, top, localX, localY)) &&
              forall j :: 0 <= j < |ws| && (s.word.None? || j < s.word.value) ==> !InWord(ws, j, top, localX, localY)
    ensures s.character.Some? ==> s.word.Some? && s.character.value < |lines[s.line.value].words[s.word.value].characters|
    ensures s.word.Some? ==>
              var ws, top := lines[s.line.value].words, LineTop(lines, s.line.value);
              var cs, start := ws[s.word.value].characters, WordLeft(ws, s.word.value);
              (s.character.Some? ==> InChar(cs, s.character.value, start, top, localX, localY)) &&
              forall c :: 0 <= c < |cs| && (s.character.None? || c < s.character.value) ==> !InChar(cs, c, start, top, localX, localY)
  {
    var selectedLine: Option<nat> := None;
    var selectedWord: Option<nat> := None;
    var selectedChar: Option<nat> := None;
    var lineY := 0.0;
    var k := 0;
    while k < |lines|
      invariant 0 <= k <= |lines| && lineY == LineTop(lines, k)
      invariant forall m :: 0 <= m < k ==> !InLine(lines, m, localY)
    {
      if localY >= lineY && localY <= lineY + lines[k].height {
        selectedLine := Some(k);
        break;
      }
      assert lines[..k + 1][..k] == lines[..k];
      lineY := lineY + lines[k].height;
      k := k + 1;
    }
    if selectedLine.Some? {
      var ws := lines[k].words;
      var wordX := 0.0;
      var j := 0;
      while j < |ws|
        invariant 0 <= j <= |ws| && wordX == WordLeft(ws, j)
        invariant forall m :: 0 <= m < j ==> !InWord(ws, m, lineY, localX, localY)
      {
        if localX >= wordX && localX <= wordX + ws[j].width && localY >= lineY && localY <= lineY + ws[j].height {
          selectedWord := Some(j);
          break;
        }
        assert ws[..j + 1][..j] == ws[..j];
        wordX := wordX + ws[j].width;
        j := j + 1;
      }
      if selectedWord.Some? {
        var cs := ws[j].characters;
        var charX := wordX;
        var c := 0;
        while c < |cs|
          invariant 0 <= c <= |cs| && charX == CharLeft(cs, c, wordX)
          invariant forall m :: 0 <= m < c ==> !InChar(cs, m, wordX, lineY, localX, localY)
        {
          if localX >= charX && localX <= charX + cs[c].width && localY >= lineY && localY <= lineY + cs[c].height {
            selectedChar := Some(c);
            break;
          }
          charX := charX + cs[c].width;
          c := c + 1;
        }
      }
    }
    s := Selection(selectedLine, selectedWord, selectedChar);
  }

  /** With no negative line height, every y from the top to the bottom of the text falls in some line. */
  lemma {:induction false} SomeLineHolds(lines: seq<Line>, y: real)
    requires forall k :: 0 <= k < |lines| ==> lines[k].height >= 0.0
    requires |lines| > 0 && 0.0 <= y <= TextHeight(lines)
    ensures exists k :: 0 <= k < |lines| && InLine(lines, k, y)
    decreases |lines|
  {
    var n := |lines| - 1;
    assert lines[..n + 1] == lines;
    if y >= LineTop(lines, n) {
      assert InLine(lines, n, y);
    } else {
      var init := lines[..n];
      SomeLineHolds(init, y);
      var k :| 0 <= k < |init| && InLine(init, k, y);
      assert init[..k] == lines[..k];
      assert InLine(lines, k, y);
    }
  }
}
