/** The greedy word wrap the component uses to lay the prompt out under the
    title (`wrapText`). Words are the pieces of `text.split(' ')`; a line
    collects words, each followed by one space, until adding the next word
    would make the measured line wider than `maxWidth`; the first word of a
    line is never measured against the bound. The font measurement is a
    function parameter: no property below assumes anything about it. */
module WordWrap {
  import opened JsString

  /** One `fillText` call: the text drawn and where. */
  datatype TextDraw = TextDraw(text: string, x: real, y: real)

  /** `wrapText`'s `line` variable for a line holding `g`: every word
      followed by one space. */
  function LineText(g: seq<string>): string
  {
    if |g| == 0 then "" else LineText(g[..|g| - 1]) + g[|g| - 1] + " "
  }

  lemma LineTextAppend(g: seq<string>, w: string)
    ensures LineText(g + [w]) == LineText(g) + w + " "
  {
    assert (g + [w])[..|g|] == g;
  }

  /** The words of all lines, in line order. */
  function Flatten(lines: seq<seq<string>>): seq<string>
  {
    if |lines| == 0 then [] else lines[0] + Flatten(lines[1..])
  }

  /** Greedy continuation: `cur` is the line being built, `rest` the words
      still to place. */
  function WrapFrom(measure: string -> real, maxWidth: real, cur: seq<string>, rest: seq<string>): seq<seq<string>>
    decreases |rest|
  {
    if |rest| == 0 then [cur]
    else if !Fits(measure, maxWidth, cur + [rest[0]]) then
      [cur] + WrapFrom(measure, maxWidth, [rest[0]], rest[1..])
    else
      WrapFrom(measure, maxWidth, cur + [rest[0]], rest[1..])
  }

  /** The lines `wrapText` draws for `words`, as lists of words. The first
      word always opens the first line. */
  function Wrap(measure: string -> real, maxWidth: real, words: seq<string>): seq<seq<string>>
  {
    if |words| == 0 then [[]] else WrapFrom(measure, maxWidth, [words[0]], words[1..])
  }

  /** The negation of `wrapText`'s test `ctx.measureText(test).width > maxWidth`,
      where `test` is the line with the next word appended. */
  predicate Fits(measure: string -> real, maxWidth: real, g: seq<string>)
  {
    measure(LineText(g)) <= maxWidth
  }

  /** Every word of line `g` after its first was accepted by the width check
      when it was appended: each prefix of two or more words fits. */
  predicate Accepted(measure: string -> real, maxWidth: real, g: seq<string>)
  {
    forall j :: 2 <= j <= |g| ==> Fits(measure, maxWidth, g[..j])
  }

  /** Independent description of a greedy layout of `words` into `lines`:
      the lines hold the words in order, none is empty, every word that joined
      a line after its first passed the width check, and every line break
      happened because the next word failed it. */
  predicate IsGreedyWrap(measure: string -> real, maxWidth: real, words: seq<string>, lines: seq<seq<string>>)
  {
    && |lines| >= 1
    && (forall k :: 0 <= k < |lines| ==> |lines[k]| >= 1)
    && Flatten(lines) == words
    && (forall k :: 0 <= k < |lines| ==> Accepted(measure, maxWidth, lines[k]))
    && (forall k :: 1 <= k < |lines| ==> !Fits(measure, maxWidth, lines[k - 1] + [lines[k][0]]))
  }

  lemma FlattenCons(line: seq<string>, lines: seq<seq<string>>)
    ensures Flatten([line] + lines) == line + Flatten(lines)
  {
    assert ([line] + lines)[1..] == lines;
  }

  /** With no empty line, there are at least as many words as lines. */
  lemma {:induction false} FlattenLength(lines: seq<seq<string>>)
    requires forall k :: 0 <= k < |lines| ==> |lines[k]| >= 1
    ensures |Flatten(lines)| >= |lines|
  {
    if |lines| > 0 {
      FlattenLength(lines[1..]);
    }
  }

  /** Putting an accepted line in front of a greedy layout whose first word
      does not fit on it gives a greedy layout. */
  lemma GreedyCons(measure: string -> real, maxWidth: real, cur: seq<string>, rest: seq<string>, tail: seq<seq<string>>)
    requires |cur| >= 1 && Accepted(measure, maxWidth, cur)
    requires IsGreedyWrap(measure, maxWidth, rest, tail)
    requires !Fits(measure, maxWidth, cur + [tail[0][0]])
    ensures IsGreedyWrap(measure, maxWidth, cur + rest, [cur] + tail)
  {
    var lines := [cur] + tail;
    FlattenCons(cur, tail);
    forall k | 0 <= k < |lines| ensures |lines[k]| >= 1 && Accepted(measure, maxWidth, lines[k]) {
      if k > 0 {
        assert lines[k] == tail[k - 1];
      }
    }
    forall k | 1 <= k < |lines| ensures !Fits(measure, maxWidth, lines[k - 1] + [lines[k][0]]) {
      if k > 1 {
        assert lines[k - 1] == tail[k - 2] && lines[k] == tail[k - 1];
      }
    }
  }

  /** Dropping the first line of a greedy layout leaves a greedy layout of
      the remaining words. */
  lemma GreedyTail(measure: string -> real, maxWidth: real, words: seq<string>, lines: seq<seq<string>>)
    requires IsGreedyWrap(measure, maxWidth, words, lines)
    requires |lines| >= 2
    ensures |lines[0]| <= |words|
    ensures IsGreedyWrap(measure, maxWidth, words[|lines[0]|..], lines[1..])
  {
    var tail := lines[1..];
    assert lines == [lines[0]] + tail;
    FlattenCons(lines[0], tail);
    assert words[|lines[0]|..] == Flatten(tail);
    forall k | 0 <= k < |tail| ensures |tail[k]| >= 1 && Accepted(measure, maxWidth, tail[k]) {
      assert tail[k] == lines[k + 1];
    }
    forall k | 1 <= k < |tail| ensures !Fits(measure, maxWidth, tail[k - 1] + [tail[k][0]]) {
      assert tail[k - 1] == lines[k] && tail[k] == lines[k + 1];
    }
  }

  /** The first word of a layout with no empty line is the first word of its
      first line. */
  lemma FlattenHead(lines: seq<seq<string>>)
    requires |lines| >= 1 && |lines[0]| >= 1
    ensures |Flatten(lines)| >= 1 && Flatten(lines)[0] == lines[0][0]
  {
    FlattenCons(lines[0], lines[1..]);
    assert lines == [lines[0]] + lines[1..];
  }

  /** Appending a word that fits keeps a line accepted. */
  lemma AcceptedAppend(measure: string -> real, maxWidth: real, cur: seq<string>, w: string)
    requires |cur| >= 1 && Accepted(measure, maxWidth, cur)
    requires Fits(measure, maxWidth, cur + [w])
    ensures Accepted(measure, maxWidth, cur + [w])
  {
    var cur' := cur + [w];
    forall j | 2 <= j <= |cur'| ensures Fits(measure, maxWidth, cur'[..j]) {
      if j <= |cur| {
        assert cur'[..j] == cur[..j];
      } else {
        assert cur'[..j] == cur';
      }
    }
  }

  /** The greedy continuation from an accepted, non-empty line is a greedy
      layout of that line's words followed by the rest. */
  lemma {:induction false} WrapFromIsGreedy(measure: string -> real, maxWidth: real, cur: seq<string>, rest: seq<string>)
    requires |cur| >= 1 && Accepted(measure, maxWidth, cur)
    ensures IsGreedyWrap(measure, maxWidth, cur + rest, WrapFrom(measure, maxWidth, cur, rest))
    decreases |rest|
  {
    if |rest| == 0 {
      FlattenCons(cur, []);
      assert cur + rest == cur;
    } else if !Fits(measure, maxWidth, cur + [rest[0]]) {
      var w := rest[0];
      var tail := WrapFrom(measure, maxWidth, [w], rest[1..]);
      WrapFromIsGreedy(measure, maxWidth, [w], rest[1..]);
      assert [w] + rest[1..] == rest;
      FlattenHead(tail);
      GreedyCons(measure, maxWidth, cur, rest, tail);
    } else {
      AcceptedAppend(measure, maxWidth, cur, rest[0]);
      WrapFromIsGreedy(measure, maxWidth, cur + [rest[0]], rest[1..]);
      assert cur + [rest[0]] + rest[1..] == cur + rest;
    }
  }

  /** `Wrap` produces a greedy layout of its words. */
  lemma WrapIsGreedy(measure: string -> real, maxWidth: real, words: seq<string>)
    requires |words| >= 1
    ensures IsGreedyWrap(measure, maxWidth, words, Wrap(measure, maxWidth, words))
  {
    WrapFromIsGreedy(measure, maxWidth, [words[0]], words[1..]);
    assert [words[0]] + words[1..] == words;
  }

  /** Any greedy layout of `cur + rest` whose first line begins with the
      whole of `cur` is the greedy continuation from `cur`. */
  lemma {:induction false} GreedyFromUnique(measure: string -> real, maxWidth: real, cur: seq<string>, rest: seq<string>, lines: seq<seq<string>>)
    requires |cur| >= 1
    requires IsGreedyWrap(measure, maxWidth, cur + rest, lines)
    requires |lines[0]| >= |cur|
    ensures lines == WrapFrom(measure, maxWidth, cur, rest)
    decreases |rest|
  {
    var tail := lines[1..];
    assert lines == [lines[0]] + tail;
    FlattenCons(lines[0], tail);
    assert lines[0][..|cur|] == (cur + rest)[..|cur|] == cur;
    forall k | 0 <= k < |tail| ensures |tail[k]| >= 1 {
      assert tail[k] == lines[k + 1];
    }
    FlattenLength(tail);
    if |rest| == 0 {
      assert lines[0] == cur;
    } else {
      var w := rest[0];
      if |lines[0]| == |cur| {
        // the line ends with `cur`: a break before `w`, which is only
        // greedy when `w` does not fit
        assert lines[0] == cur;
        GreedyTail(measure, maxWidth, cur + rest, lines);
        assert (cur + rest)[|cur|..] == rest;
        FlattenHead(tail);
        assert !Fits(measure, maxWidth, cur + [w]);
        GreedyFromUnique(measure, maxWidth, [w], rest[1..], tail);
      } else {
        // the line continues with `w`, which therefore fitted
        assert lines[0][..|cur| + 1] == (cur + rest)[..|cur| + 1] == cur + [w];
        assert Fits(measure, maxWidth, cur + [w]);
        assert cur + [w] + rest[1..] == cur + rest;
        GreedyFromUnique(measure, maxWidth, cur + [w], rest[1..], lines);
      }
    }
  }

  /** A greedy layout of a non-empty word list is unique: it is `Wrap`'s. */
  lemma GreedyWrapUnique(measure: string -> real, maxWidth: real, words: seq<string>, lines: seq<seq<string>>)
    requires |words| >= 1
    requires IsGreedyWrap(measure, maxWidth, words, lines)
    ensures lines == Wrap(measure, maxWidth, words)
  {
    assert [words[0]] + words[1..] == words;
    GreedyFromUnique(measure, maxWidth, [words[0]], words[1..], lines);
  }

  /** At least one line is always produced, even for no words at all. */
  lemma WrapNonEmpty(measure: string -> real, maxWidth: real, words: seq<string>)
    ensures |Wrap(measure, maxWidth, words)| >= 1
  {
    if |words| >= 1 {
      WrapIsGreedy(measure, maxWidth, words);
    }
  }

  /** Only a single-word line can be wider than `maxWidth`: any line of two
      or more words, measured with its trailing space, fits. No property of
      `measure` (such as monotonicity) is needed. */
  lemma WrapWidthBound(measure: string -> real, maxWidth: real, words: seq<string>, k: int)
    requires |words| >= 1
    requires 0 <= k < |Wrap(measure, maxWidth, words)|
    requires |Wrap(measure, maxWidth, words)[k]| >= 2
    ensures measure(LineText(Wrap(measure, maxWidth, words)[k])) <= maxWidth
  {
    var g := Wrap(measure, maxWidth, words)[k];
    WrapIsGreedy(measure, maxWidth, words);
    assert Accepted(measure, maxWidth, g);
    assert g[..|g|] == g;
  }

  /** Height of the k-th line. */
  function LineY(y: real, lineHeight: real, k: nat): real
  {
    y + k as real * lineHeight
  }

  lemma LineYNext(y: real, lineHeight: real, k: nat)
    ensures LineY(y, lineHeight, k + 1) == LineY(y, lineHeight, k) + lineHeight
  {
    assert (k + 1) as real * lineHeight == k as real * lineHeight + lineHeight;
  }

  /** The `fillText` calls for `lines`: the trimmed k-th line at
      `y + k * lineHeight`. */
  function Layout(lines: seq<seq<string>>, x: real, y: real, lineHeight: real): (drawn: seq<TextDraw>)
    ensures |drawn| == |lines|
  {
    if |lines| == 0 then []
    else
      var n := |lines| - 1;
      Layout(lines[..n], x, y, lineHeight) + [TextDraw(Trim(LineText(lines[n])), x, LineY(y, lineHeight, n))]
  }

  /** The k-th `fillText` call of a layout draws the trimmed k-th line at
      `y + k * lineHeight`. */
  lemma {:induction false} LayoutAt(lines: seq<seq<string>>, x: real, y: real, lineHeight: real, k: nat)
    requires k < |lines|
    ensures Layout(lines, x, y, lineHeight)[k] == TextDraw(Trim(LineText(lines[k])), x, LineY(y, lineHeight, k))
  {
    var n := |lines| - 1;
    if k < n {
      LayoutAt(lines[..n], x, y, lineHeight, k);
      assert lines[..n][k] == lines[k];
    }
  }

  lemma LayoutAppend(lines: seq<seq<string>>, g: seq<string>, x: real, y: real, lineHeight: real)
    ensures Layout(lines + [g], x, y, lineHeight)
         == Layout(lines, x, y, lineHeight) + [TextDraw(Trim(LineText(g)), x, LineY(y, lineHeight, |lines|))]
  {
    assert (lines + [g])[..|lines|] == lines;
  }

  /** One step of the greedy continuation when the next word does not fit:
      the current line is closed and the word opens the next one. */
  lemma WrapFromBreak(measure: string -> real, maxWidth: real, cur: seq<string>, rest: seq<string>)
    requires |rest| >= 1 && !Fits(measure, maxWidth, cur + [rest[0]])
    ensures WrapFrom(measure, maxWidth, cur, rest) == [cur] + WrapFrom(measure, maxWidth, [rest[0]], rest[1..])
  {
  }

  /** One step of the greedy continuation when the next word fits. */
  lemma WrapFromKeep(measure: string -> real, maxWidth: real, cur: seq<string>, rest: seq<string>)
    requires |rest| >= 1 && Fits(measure, maxWidth, cur + [rest[0]])
    ensures WrapFrom(measure, maxWidth, cur, rest) == WrapFrom(measure, maxWidth, cur + [rest[0]], rest[1..])
  {
  }

  /** What the loop of `wrapText` knows before visiting word `n`: the
      closed lines `done` and the open line `cur` continue into `Wrap`. */
  ghost predicate WrapProgress(measure: string -> real, maxWidth: real, words: seq<string>, n: nat,
                               done: seq<seq<string>>, cur: seq<string>)
    requires n <= |words|
  {
    if n == 0 then cur == [] && done == []
    else Wrap(measure, maxWidth, words) == done + WrapFrom(measure, maxWidth, cur, words[n..])
  }

  /** The loop's break branch: the open line `cur` is closed and the word
      opens the next one. */
  lemma WrapProgressBreak(measure: string -> real, maxWidth: real, words: seq<string>, n: nat,
                          done: seq<seq<string>>, cur: seq<string>)
    requires 0 < n < |words| && WrapProgress(measure, maxWidth, words, n, done, cur)
    requires measure(LineText(cur) + words[n] + " ") > maxWidth
    ensures WrapProgress(measure, maxWidth, words, n + 1, done + [cur], [words[n]])
  {
    var rest := words[n..];
    assert rest[0] == words[n] && rest[1..] == words[n + 1..];
    LineTextAppend(cur, words[n]);
    WrapFromCloseLine(measure, maxWidth, done, cur, rest);
  }

  /** Closing the open line moves it from the continuation to the closed
      lines. */
  lemma WrapFromCloseLine(measure: string -> real, maxWidth: real, done: seq<seq<string>>,
                          cur: seq<string>, rest: seq<string>)
    requires |rest| >= 1 && !Fits(measure, maxWidth, cur + [rest[0]])
    ensures done + WrapFrom(measure, maxWidth, cur, rest)
         == (done + [cur]) + WrapFrom(measure, maxWidth, [rest[0]], rest[1..])
  {
    var tail := WrapFrom(measure, maxWidth, [rest[0]], rest[1..]);
    WrapFromBreak(measure, maxWidth, cur, rest);
    assert done + ([cur] + tail) == (done + [cur]) + tail;
  }

  /** The loop's keep branch: the word joins the open line. */
  lemma WrapTextKeep(measure: string -> real, maxWidth: real, words: seq<string>, n: nat,
                     done: seq<seq<string>>, cur: seq<string>)
    requires n < |words| && WrapProgress(measure, maxWidth, words, n, done, cur)
    requires n == 0 || measure(LineText(cur) + words[n] + " ") <= maxWidth
    ensures WrapProgress(measure, maxWidth, words, n + 1, done, cur + [words[n]])
    ensures LineText(cur + [words[n]]) == LineText(cur) + words[n] + " "
  {
    LineTextAppend(cur, words[n]);
    if n > 0 {
      assert words[n..][0] == words[n] && words[n..][1..] == words[n + 1..];
      WrapFromKeep(measure, maxWidth, cur, words[n..]);
    }
  }

  /** After the last word the open line is the last line of `Wrap`. */
  lemma WrapTextEnd(measure: string -> real, maxWidth: real, words: seq<string>,
                    done: seq<seq<string>>, cur: seq<string>, x: real, y: real, lineHeight: real)
    requires |words| > 0 && WrapProgress(measure, maxWidth, words, |words|, done, cur)
    ensures Wrap(measure, maxWidth, words) == done + [cur]
    ensures Layout(done + [cur], x, y, lineHeight)
         == Layout(done, x, y, lineHeight) + [TextDraw(Trim(LineText(cur)), x, LineY(y, lineHeight, |done|))]
  {
    assert words[|words|..] == [];
    LayoutAppend(done, cur, x, y, lineHeight);
  }

  /** `wrapText(ctx, text, x, y, maxWidth, lineHeight)` with `ctx.measureText`
      abstracted as `measure`: the `fillText` calls are the layout of the
      greedy lines of `text.split(' ')`. */
  method WrapText(measure: string -> real, text: string, x: real, y: real, maxWidth: real, lineHeight: real)
    returns (drawn: seq<TextDraw>)
    ensures drawn == Layout(Wrap(measure, maxWidth, Split(text)), x, y, lineHeight)
    ensures |drawn| >= 1
  {
    var words := Split(text);
    var line := "";
    var ty := y;
    ghost var done: seq<seq<string>> := [];
    ghost var cur: seq<string> := [];
    drawn := [];
    var n := 0;
    while n < |words|
      invariant 0 <= n <= |words|
      invariant line == LineText(cur)
      invariant ty == LineY(y, lineHeight, |done|)
      invariant drawn == Layout(done, x, y, lineHeight)
      invariant WrapProgress(measure, maxWidth, words, n, done, cur)
    {
      var test := line + words[n] + " ";
      if measure(test) > maxWidth && n > 0 {
        WrapProgressBreak(measure, maxWidth, words, n, done, cur);
        LayoutAppend(done, cur, x, y, lineHeight);
        LineYNext(y, lineHeight, |done|);
        LineTextAppend([], words[n]);
        drawn := drawn + [TextDraw(Trim(line), x, ty)];
        done := done + [cur];
        cur := [words[n]];
        line := words[n] + " ";
        ty := ty + lineHeight;
      } else {
        WrapTextKeep(measure, maxWidth, words, n, done, cur);
        line := test;
        cur := cur + [words[n]];
      }
      n := n + 1;
    }
    WrapTextEnd(measure, maxWidth, words, done, cur, x, y, lineHeight);
    WrapNonEmpty(measure, maxWidth, words);
    drawn := drawn + [TextDraw(Trim(line), x, ty)];
  }

  /** A word with no whitespace at either end (in particular, not empty). */
  predicate CleanWord(w: string)
  {
    |w| >= 1 && !IsJsWhitespace(w[0]) && !IsJsWhitespace(w[|w| - 1])
  }

  /** The `line` of a non-empty line is its words joined by single spaces,
      plus one trailing space. */
  lemma {:induction false} LineTextIsJoin(g: seq<string>)
    requires |g| >= 1
    ensures LineText(g) == Join(g) + " "
  {
    var n := |g| - 1;
    if n == 0 {
      assert g[..0] == [];
    } else {
      LineTextIsJoin(g[..n]);
      JoinAppend(g[..n], g[n]);
      assert g[..n] + [g[n]] == g;
    }
  }

  /** Joining clean words gives a string with no whitespace at either end. */
  lemma {:induction false} JoinOfCleanWords(g: seq<string>)
    requires |g| >= 1
    requires forall i :: 0 <= i < |g| ==> CleanWord(g[i])
    ensures CleanWord(Join(g))
  {
    JoinStartsWithFirst(g);
    var n := |g| - 1;
    if n > 0 {
      JoinAppend(g[..n], g[n]);
      assert g[..n] + [g[n]] == g;
    }
  }

  /** For a line of clean words the drawn (trimmed) text is exactly the words
      joined by single spaces. */
  lemma DrawnLineIsJoin(g: seq<string>)
    requires |g| >= 1
    requires forall i :: 0 <= i < |g| ==> CleanWord(g[i])
    ensures Trim(LineText(g)) == Join(g)
  {
    var j := Join(g);
    JoinOfCleanWords(g);
    TrimTrailingSpace(j);
    LineTextIsJoin(g);
  }

  /** Joining two non-empty lists is joining their joins. */
  lemma {:induction false} JoinConcat(a: seq<string>, b: seq<string>)
    requires |a| >= 1 && |b| >= 1
    ensures Join(a + b) == Join(a) + " " + Join(b)
    decreases |a|
  {
    if |a| == 1 {
      assert (a + b)[1..] == b;
    } else {
      assert (a + b)[1..] == a[1..] + b;
      JoinConcat(a[1..], b);
    }
  }

  /** The texts of the drawn lines. */
  function Texts(drawn: seq<TextDraw>): (texts: seq<string>)
    ensures |texts| == |drawn|
  {
    seq(|drawn|, k requires 0 <= k < |drawn| => drawn[k].text)
  }

  /** Each line's words joined by single spaces. */
  function JoinEach(lines: seq<seq<string>>): (texts: seq<string>)
    ensures |texts| == |lines|
  {
    seq(|lines|, k requires 0 <= k < |lines| => Join(lines[k]))
  }

  /** Joining the per-line joins is joining all the words. */
  lemma {:induction false} JoinEachFlatten(lines: seq<seq<string>>)
    requires |lines| >= 1
    requires forall k :: 0 <= k < |lines| ==> |lines[k]| >= 1
    ensures Join(JoinEach(lines)) == Join(Flatten(lines))
    decreases |lines|
  {
    var tail := lines[1..];
    assert lines == [lines[0]] + tail;
    FlattenCons(lines[0], tail);
    if |tail| == 0 {
      assert Flatten(lines) == lines[0];
    } else {
      forall k | 0 <= k < |tail| ensures |tail[k]| >= 1 {
        assert tail[k] == lines[k + 1];
      }
      JoinEachFlatten(tail);
      assert JoinEach(lines)[1..] == JoinEach(tail);
      FlattenLength(tail);
      JoinConcat(lines[0], Flatten(tail));
    }
  }

  /** When the prompt is made of clean words separated by single spaces, the
      drawn lines, joined again with single spaces, give back the prompt:
      every word is drawn exactly once, in order, and nothing else is. */
  lemma DrawnLinesRejoin(measure: string -> real, text: string, x: real, y: real, maxWidth: real, lineHeight: real)
    requires forall i :: 0 <= i < |Split(text)| ==> CleanWord(Split(text)[i])
    ensures Join(Texts(Layout(Wrap(measure, maxWidth, Split(text)), x, y, lineHeight))) == text
  {
    var words := Split(text);
    var lines := Wrap(measure, maxWidth, words);
    var drawn := Layout(lines, x, y, lineHeight);
    WrapIsGreedy(measure, maxWidth, words);
    forall k | 0 <= k < |lines| ensures Texts(drawn)[k] == JoinEach(lines)[k] {
      LayoutAt(lines, x, y, lineHeight, k);
      forall i | 0 <= i < |lines[k]| ensures CleanWord(lines[k][i]) {
        FlattenIndex(lines, k, i);
      }
      DrawnLineIsJoin(lines[k]);
    }
    assert Texts(drawn) == JoinEach(lines);
    JoinEachFlatten(lines);
    JoinSplit(text);
  }

  /** Every word of every line is one of the flattened words. */
  lemma {:induction false} FlattenIndex(lines: seq<seq<string>>, k: nat, i: nat)
    requires k < |lines| && i < |lines[k]|
    ensures exists j :: 0 <= j < |Flatten(lines)| && Flatten(lines)[j] == lines[k][i]
  {
    FlattenCons(lines[0], lines[1..]);
    assert lines == [lines[0]] + lines[1..];
    if k == 0 {
      assert Flatten(lines)[i] == lines[0][i];
    } else {
      FlattenIndex(lines[1..], k - 1, i);
      var j :| 0 <= j < |Flatten(lines[1..])| && Flatten(lines[1..])[j] == lines[1..][k - 1][i];
      assert Flatten(lines)[|lines[0]| + j] == lines[k][i];
    }
  }
}
