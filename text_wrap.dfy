/**
 * The label wrapper `wrap` of `js/line-chart.js` (lines 251-284): the text is
 * split into words at whitespace, and the words are laid out greedily into
 * `tspan` lines, a new line being started with a word whenever appending that
 * word makes the current line wider than `width`.
 *
 * The text measurement (`getComputedTextLength`) is the parameter `measure`,
 * applied to the words of a line.
 */
module TextWrap {
  import opened Seqs

  /** The line height, in ems. */
  const LINE_HEIGHT: real := 1.1

  /** The characters the regular expression class `\s` matches. */
  predicate IsSpace(c: char)
  {
    c == ' ' || c == '\t' || c == '\n' || c == '\r' || c == '\U{B}' || c == '\U{C}' ||
    c == '\U{A0}' || c == '\U{1680}' || ('\U{2000}' <= c <= '\U{200A}') ||
    c == '\U{2028}' || c == '\U{2029}' || c == '\U{202F}' || c == '\U{205F}' ||
    c == '\U{3000}' || c == '\U{FEFF}'
  }

  /** `s` without its leading whitespace. */
  function DropSpaces(s: string): (r: string)
    ensures |r| <= |s|
    ensures r == [] || !IsSpace(r[0])
    ensures s != [] && IsSpace(s[0]) ==> |r| < |s|
    ensures Filter(r, c => !IsSpace(c)) == Filter(s, c => !IsSpace(c))
  {
    if s != [] && IsSpace(s[0]) then DropSpaces(s[1..]) else s
  }

  /** `s.split(/\s+/)`: the pieces between maximal runs of whitespace; a
      leading (trailing) run gives an empty first (last) piece. */
  function Split(s: string): (words: seq<string>)
    ensures |words| >= 1
    decreases |s|
  {
    if s == [] then [""]
    else if IsSpace(s[0]) then [""] + Split(DropSpaces(s))
    else
      var rest := Split(s[1..]);
      [[s[0]] + rest[0]] + rest[1..]
  }

  /** The non-whitespace characters of `s`, in order. */
  function Letters(s: string): string
  {
    Filter(s, c => !IsSpace(c))
  }

  /** `w` holds no whitespace character. */
  predicate NoSpace(w: string)
  {
    forall j :: 0 <= j < |w| ==> !IsSpace(w[j])
  }

  /** No piece of a split holds a whitespace character. */
  lemma {:induction false} SplitNoSpaces(s: string)
    ensures forall i :: 0 <= i < |Split(s)| ==> NoSpace(Split(s)[i])
    decreases |s|
  {
    if s != [] && IsSpace(s[0]) {
      SplitNoSpaces(DropSpaces(s));
      assert Split(s) == [""] + Split(DropSpaces(s));
    } else if s != [] {
      var rest := Split(s[1..]);
      SplitNoSpaces(s[1..]);
      var w := Split(s);
      assert w == [[s[0]] + rest[0]] + rest[1..];
      assert NoSpace(rest[0]);
      assert NoSpace([s[0]] + rest[0]);
    }
  }

  /** Only the first and the last piece of a split can be empty, and the first
      is empty exactly when the text is empty or starts with whitespace. */
  lemma {:induction false} SplitEmptyPieces(s: string)
    ensures forall i :: 0 < i < |Split(s)| - 1 ==> Split(s)[i] != ""
    ensures Split(s)[0] == "" <==> s == [] || IsSpace(s[0])
    decreases |s|
  {
    if s != [] && IsSpace(s[0]) {
      var t := DropSpaces(s);
      SplitEmptyPieces(t);
      var w := Split(s);
      assert w[1..] == Split(t);
      forall i | 0 < i < |w| - 1 ensures w[i] != "" {
        assert w[i] == Split(t)[i - 1];
      }
    } else if s != [] {
      SplitEmptyPieces(s[1..]);
      var w := Split(s);
      forall i | 0 < i < |w| - 1 ensures w[i] != "" {
        assert w[i] == Split(s[1..])[i];
      }
    }
  }

  /** The pieces of a split, joined together, give back the non-whitespace
      characters of the text in order: splitting loses only whitespace. */
  lemma {:induction false} SplitKeepsLetters(s: string)
    ensures Flatten(Split(s)) == Letters(s)
    decreases |s|
  {
    if s != [] && IsSpace(s[0]) {
      var t := DropSpaces(s);
      SplitKeepsLetters(t);
      assert Split(s) == [""] + Split(t);
      assert Flatten(Split(s)) == "" + Flatten(Split(t));
      assert Letters(s) == Letters(t);
    } else if s != [] {
      var rest := Split(s[1..]);
      SplitKeepsLetters(s[1..]);
      var w := Split(s);
      assert rest == [rest[0]] + rest[1..];
      assert Flatten(rest) == rest[0] + Flatten(rest[1..]);
      assert w[1..] == rest[1..];
      assert Flatten(w) == ([s[0]] + rest[0]) + Flatten(rest[1..]);
      assert s == [s[0]] + s[1..];
      assert Letters(s) == [s[0]] + Letters(s[1..]);
    }
  }

  /** `s` with every maximal run of whitespace replaced by one space. */
  function Squeeze(s: string): string
    decreases |s|
  {
    if s == [] then ""
    else if IsSpace(s[0]) then " " + Squeeze(DropSpaces(s))
    else [s[0]] + Squeeze(s[1..])
  }

  /** `words.join(" ")`. */
  function Joined(words: seq<string>): string
  {
    if |words| == 0 then ""
    else if |words| == 1 then words[0]
    else words[0] + " " + Joined(words[1..])
  }

  /** The pieces of a split, joined by single spaces, give the text with each
      run of whitespace squeezed to one space. With `SplitNoSpaces` this fixes
      where the split cuts: at every run of whitespace and nowhere else. */
  lemma {:induction false} SplitJoined(s: string)
    ensures Joined(Split(s)) == Squeeze(s)
    decreases |s|
  {
    if s != [] && IsSpace(s[0]) {
      var t := DropSpaces(s);
      SplitJoined(t);
      var w := Split(s);
      assert w[0] == "" && w[1..] == Split(t);
    } else if s != [] {
      var rest := Split(s[1..]);
      SplitJoined(s[1..]);
      JoinedHead([s[0]], rest);
    }
  }

  /** Letters put before the first word end up at the front of the join. */
  lemma JoinedHead(c: string, words: seq<string>)
    requires words != []
    ensures Joined([c + words[0]] + words[1..]) == c + Joined(words)
  {
    var w := [c + words[0]] + words[1..];
    if |words| > 1 {
      assert w[1..] == words[1..];
      assert (c + words[0]) + " " + Joined(words[1..]) == c + (words[0] + " " + Joined(words[1..]));
    }
  }

  /** The words `while ((word = words.pop()))` consumes: the loop stops at the
      first empty word, which is falsy. */
  function Consumed(words: seq<string>): (r: seq<string>)
    ensures |r| <= |words| && r == words[..|r|]
    ensures forall i :: 0 <= i < |r| ==> r[i] != ""
    ensures |r| == |words| || words[|r|] == ""
  {
    if words == [] || words[0] == "" then [] else [words[0]] + Consumed(words[1..])
  }

  /** One `tspan` of a wrapped label: its words (its text is them joined by a
      space) and its `dy` offset in ems. */
  datatype Tspan = Tspan(words: seq<string>, dy: real)

  function WordsOf(tspans: seq<Tspan>): seq<seq<string>>
  {
    seq(|tspans|, k requires 0 <= k < |tspans| => tspans[k].words)
  }

  /** The `tspan` list with the text of the last one replaced. */
  function WithLastWords(tspans: seq<Tspan>, line: seq<string>): (r: seq<Tspan>)
    requires tspans != []
    ensures |r| == |tspans| && r[..|r| - 1] == tspans[..|tspans| - 1]
    ensures r[|r| - 1] == Tspan(line, tspans[|tspans| - 1].dy)
  {
    tspans[..|tspans| - 1] + [Tspan(line, tspans[|tspans| - 1].dy)]
  }

  lemma WordsOfSnoc(tspans: seq<Tspan>, t: Tspan)
    ensures Flatten(WordsOf(tspans + [t])) == Flatten(WordsOf(tspans)) + t.words
  {
    assert WordsOf(tspans + [t]) == WordsOf(tspans) + [t.words];
    FlattenConcat(WordsOf(tspans), [t.words]);
  }

  /** Every line fits: each word appended to a line left it at most `width`
      wide (the first word of a later line was never measured alone). */
  ghost predicate LinesFit(tspans: seq<Tspan>, width: real, measure: seq<string> -> real)
  {
    forall k, j :: 0 <= k < |tspans| && (if k == 0 then 1 else 2) <= j <= |tspans[k].words| ==>
      measure(tspans[k].words[..j]) <= width
  }

  /** Every later line starts with a word that did not fit on the line before. */
  ghost predicate BreaksOnOverflow(tspans: seq<Tspan>, width: real, measure: seq<string> -> real)
  {
    forall k :: 1 <= k < |tspans| ==>
      tspans[k].words != [] && measure(tspans[k - 1].words + [tspans[k].words[0]]) > width
  }

  /** The k-th line is offset by `k * 1.1 + dy` ems. */
  ghost predicate Spaced(tspans: seq<Tspan>, dy: real)
  {
    forall k :: 0 <= k < |tspans| ==> tspans[k].dy == k as real * LINE_HEIGHT + dy
  }

  /** `tspans` lays out the words `done` greedily: the tspans hold exactly
      those words in order; they are spaced by the line height; every tspan
      after the first starts with a word that overflowed the one before; every
      measured line fits; and the first tspan is empty exactly when there is no
      word or the first word alone is wider than `width`. */
  ghost predicate Laid(tspans: seq<Tspan>, done: seq<string>, width: real, dy: real,
                       measure: seq<string> -> real)
  {
    tspans != [] && Flatten(WordsOf(tspans)) == done &&
    Spaced(tspans, dy) && BreaksOnOverflow(tspans, width, measure) && LinesFit(tspans, width, measure) &&
    (done == [] ==> |tspans| == 1) &&
    (tspans[0].words == [] <==> done == [] || measure([done[0]]) > width)
  }

  /** `wrap` applied to one text element whose text is `text`, whose `dy` is
      `dy` ems, with the given width. The words it consumes (up to the first
      empty one) are laid out greedily into tspans. */
  method Wrap(text: string, width: real, dy: real, measure: seq<string> -> real)
    returns (tspans: seq<Tspan>)
    ensures tspans != []
    ensures Flatten(WordsOf(tspans)) == Consumed(Split(text))
    ensures Spaced(tspans, dy)
    ensures BreaksOnOverflow(tspans, width, measure)
    ensures LinesFit(tspans, width, measure)
    ensures tspans[0].words == [] <==>
              Consumed(Split(text)) == [] || measure([Consumed(Split(text))[0]]) > width
  {
    var words := Split(text);
    tspans := Lay(words, width, dy, measure);
  }

  /** The loop of `wrap` over the words of the text. */
  method Lay(words: seq<string>, width: real, dy: real, measure: seq<string> -> real)
    returns (tspans: seq<Tspan>)
    ensures Laid(tspans, Consumed(words), width, dy, measure)
  {
    var line: seq<string> := [];
    var lineNumber := 0;
    tspans := [Tspan([], dy)];
    assert WordsOf(tspans) == [[]];
    var n := 0;
    while n < |words| && words[n] != ""
      invariant n <= |words|
      invariant forall i :: 0 <= i < n ==> words[i] != ""
      invariant Laid(tspans, words[..n], width, dy, measure)
      invariant lineNumber == |tspans| - 1
      invariant line == tspans[|tspans| - 1].words
    {
      var word := words[n];
      ghost var before, done := tspans, words[..n];
      assert words[..n + 1] == done + [word];
      // line.push(word), and the last tspan is measured with it
      line := line + [word];
      if measure(line) > width {
        // line.pop() gives the last tspan back its previous text; the word
        // starts the next tspan
        line := [word];
        lineNumber := lineNumber + 1;
        tspans := tspans + [Tspan(line, lineNumber as real * LINE_HEIGHT + dy)];
        StartLine(before, tspans, done, word, words[..n + 1], width, dy, measure);
      } else {
        tspans := WithLastWords(tspans, line);
        ExtendLine(before, tspans, done, word, words[..n + 1], width, dy, measure);
      }
      n := n + 1;
    }
    ConsumedIsPrefix(words, n);
  }

  lemma SingleLine(t: Tspan)
    ensures Flatten(WordsOf([t])) == t.words
  {
    assert WordsOf([t]) == [t.words];
  }

  /** Appending a word that fits to the last line keeps the layout invariant. */
  lemma ExtendLine(before: seq<Tspan>, after: seq<Tspan>, done: seq<string>, word: string,
                   next: seq<string>, width: real, dy: real, measure: seq<string> -> real)
    requires Laid(before, done, width, dy, measure)
    requires measure(before[|before| - 1].words + [word]) <= width
    requires after == WithLastWords(before, before[|before| - 1].words + [word])
    requires next == done + [word]
    ensures Laid(after, next, width, dy, measure)
  {
    ExtendShape(before, after, word);
    ExtendFits(before, after, word, width, measure);
    ExtendBreaks(before, after, word, width, measure);
    ExtendFirst(before, after, done, word, next, width, measure);
  }

  /** Appending a word to the last tspan changes that tspan only. */
  lemma ExtendShape(before: seq<Tspan>, after: seq<Tspan>, word: string)
    requires before != [] && after == WithLastWords(before, before[|before| - 1].words + [word])
    ensures |after| == |before|
    ensures forall k :: 0 <= k < |before| - 1 ==> after[k] == before[k]
    ensures after[|after| - 1] == Tspan(before[|before| - 1].words + [word], before[|before| - 1].dy)
    ensures Flatten(WordsOf(after)) == Flatten(WordsOf(before)) + [word]
  {
    var last := |before| - 1;
    assert before == before[..last] + [before[last]];
    WordsOfSnoc(before[..last], before[last]);
    WordsOfSnoc(before[..last], after[last]);
    assert after == before[..last] + [after[last]];
    forall k | 0 <= k < last ensures after[k] == before[k] {
      assert after[..last][k] == before[..last][k];
    }
  }

  /** After a fitting word, the first tspan is empty exactly when it was and
      the first word did not fit alone. */
  lemma ExtendFirst(before: seq<Tspan>, after: seq<Tspan>, done: seq<string>, word: string,
                    next: seq<string>, width: real, measure: seq<string> -> real)
    requires before != [] && |after| == |before| && Flatten(WordsOf(before)) == done
    requires done == [] ==> |before| == 1
    requires before[0].words == [] <==> done == [] || measure([done[0]]) > width
    requires |before| > 1 ==> after[0] == before[0]
    requires after[|after| - 1].words == before[|before| - 1].words + [word]
    requires measure(after[|after| - 1].words) <= width
    requires next == done + [word]
    ensures after[0].words == [] <==> next == [] || measure([next[0]]) > width
  {
    if |before| == 1 {
      SingleLine(before[0]);
      if done == [] {
        assert before[0].words + [word] == [word];
      } else {
        assert next[0] == done[0];
      }
    } else if done != [] {
      assert next[0] == done[0];
    }
  }

  lemma ExtendFits(before: seq<Tspan>, after: seq<Tspan>, word: string, width: real, measure: seq<string> -> real)
    requires before != [] && |after| == |before|
    requires forall k :: 0 <= k < |before| - 1 ==> after[k] == before[k]
    requires after[|after| - 1].words == before[|before| - 1].words + [word]
    requires LinesFit(before, width, measure) && measure(after[|after| - 1].words) <= width
    ensures LinesFit(after, width, measure)
  {
    var last := |before| - 1;
    forall k, j | 0 <= k < |after| && (if k == 0 then 1 else 2) <= j <= |after[k].words|
      ensures measure(after[k].words[..j]) <= width
    {
      if k == last {
        if j == |after[k].words| {
          assert after[k].words[..j] == after[k].words;
        } else {
          assert after[k].words[..j] == before[k].words[..j];
        }
      }
    }
  }

  lemma ExtendBreaks(before: seq<Tspan>, after: seq<Tspan>, word: string, width: real, measure: seq<string> -> real)
    requires before != [] && |after| == |before|
    requires forall k :: 0 <= k < |before| - 1 ==> after[k] == before[k]
    requires after[|after| - 1].words == before[|before| - 1].words + [word]
    requires BreaksOnOverflow(before, width, measure)
    ensures BreaksOnOverflow(after, width, measure)
  {
    var last := |before| - 1;
    forall k | 1 <= k < |after|
      ensures after[k].words != [] && measure(after[k - 1].words + [after[k].words[0]]) > width
    {
      if k == last {
        assert after[k].words[0] == before[k].words[0];
      }
    }
  }

  /** Starting a new line with a word that did not fit keeps the layout invariant. */
  lemma StartLine(before: seq<Tspan>, after: seq<Tspan>, done: seq<string>, word: string,
                  next: seq<string>, width: real, dy: real, measure: seq<string> -> real)
    requires Laid(before, done, width, dy, measure)
    requires measure(before[|before| - 1].words + [word]) > width
    requires after == before + [Tspan([word], |before| as real * LINE_HEIGHT + dy)]
    requires next == done + [word]
    ensures Laid(after, next, width, dy, measure)
  {
    var t := Tspan([word], |before| as real * LINE_HEIGHT + dy);
    WordsOfSnoc(before, t);
    forall k, j | 0 <= k < |after| && (if k == 0 then 1 else 2) <= j <= |after[k].words|
      ensures measure(after[k].words[..j]) <= width
    {
      assert k < |before|;
      assert after[k] == before[k];
    }
    if done == [] {
      SingleLine(before[0]);
      assert before[0].words + [word] == [word];
    } else {
      assert (done + [word])[0] == done[0];
    }
    assert after[0] == before[0];
  }

  /** The consumed words are the prefix up to the first empty word. */
  lemma {:induction false} ConsumedIsPrefix(words: seq<string>, n: nat)
    requires n <= |words|
    requires forall i :: 0 <= i < n ==> words[i] != ""
    requires n == |words| || words[n] == ""
    ensures Consumed(words) == words[..n]
  {
    if n > 0 {
      ConsumedIsPrefix(words[1..], n - 1);
      assert words[..n] == [words[0]] + words[1..][..n - 1];
    }
  }
}
