/** The JavaScript string operations the component relies on:
    `String.prototype.split(' ')`, `String.prototype.trim()`, and the
    decimal rendering of a non-negative integer in a template literal.
    `Join` is not called by the component: it is the reference inverse of
    `split(' ')`, used to state that the split loses nothing and that the
    drawn lines rejoin to the prompt. */
module JsString {

  /** `s.split(' ')`: every single space separates two pieces, so adjacent,
      leading and trailing spaces yield empty pieces, and the result is never
      empty (`"".split(' ')` is `[""]`). */
  function Split(s: string): (parts: seq<string>)
    ensures |parts| >= 1
    ensures forall i :: 0 <= i < |parts| ==> ' ' !in parts[i]
  {
    if |s| == 0 then [""]
    else
      var rest := Split(s[1..]);
      if s[0] == ' ' then [""] + rest
      else [[s[0]] + rest[0]] + rest[1..]
  }

  /** The pieces with one space between each two: the inverse of `Split`. */
  function Join(parts: seq<string>): string
  {
    if |parts| == 0 then ""
    else if |parts| == 1 then parts[0]
    else parts[0] + " " + Join(parts[1..])
  }

  /** Joining the pieces of a split with single spaces gives back the string. */
  lemma {:induction false} JoinSplit(s: string)
    ensures Join(Split(s)) == s
    decreases |s|
  {
    if |s| > 0 {
      var rest := Split(s[1..]);
      JoinSplit(s[1..]);
      if s[0] == ' ' {
        assert Split(s) == [""] + rest;
        assert ([""] + rest)[1..] == rest;
        assert Join(Split(s)) == "" + " " + Join(rest);
        assert s == [s[0]] + s[1..];
      } else {
        var p := [[s[0]] + rest[0]] + rest[1..];
        assert Split(s) == p;
        if |rest| == 1 {
          assert Join(p) == [s[0]] + rest[0];
          assert Join(rest) == rest[0];
        } else {
          assert p[1..] == rest[1..];
          assert Join(p) == [s[0]] + rest[0] + " " + Join(rest[1..]);
          assert Join(rest) == rest[0] + " " + Join(rest[1..]);
        }
        assert s == [s[0]] + s[1..];
      }
    }
  }

  /** Conversely, splitting a space-free list of pieces joined by single
      spaces gives back exactly those pieces: `Split` and `Join` are inverse
      bijections between strings and non-empty space-free piece lists. */
  lemma {:induction false} SplitJoin(parts: seq<string>)
    requires |parts| >= 1
    requires forall i :: 0 <= i < |parts| ==> ' ' !in parts[i]
    ensures Split(Join(parts)) == parts
    decreases |parts|, |parts[0]|
  {
    var p0 := parts[0];
    if |p0| == 0 {
      if |parts| > 1 {
        var tail := parts[1..];
        assert Join(parts) == " " + Join(tail);
        assert forall i :: 0 <= i < |tail| ==> ' ' !in tail[i] by {
          forall i | 0 <= i < |tail| ensures ' ' !in tail[i] {
            assert tail[i] == parts[i + 1];
          }
        }
        SplitJoin(tail);
        assert (" " + Join(tail))[1..] == Join(tail);
        assert Split(Join(parts)) == [""] + tail;
        assert parts == [""] + tail;
      }
    } else {
      var c := p0[0];
      var parts' := [p0[1..]] + parts[1..];
      assert p0 == [c] + p0[1..];
      assert forall i :: 0 <= i < |parts'| ==> ' ' !in parts'[i] by {
        forall i | 0 <= i < |parts'| ensures ' ' !in parts'[i] {
          if i == 0 {
            assert forall k :: 0 <= k < |p0[1..]| ==> p0[1..][k] == p0[k + 1];
          } else {
            assert parts'[i] == parts[i];
          }
        }
      }
      if |parts| == 1 {
        assert Join(parts') == p0[1..];
      } else {
        assert parts'[1..] == parts[1..];
        assert Join(parts') == p0[1..] + " " + Join(parts[1..]);
      }
      assert Join(parts) == [c] + Join(parts');
      SplitJoin(parts');
      assert ([c] + Join(parts'))[1..] == Join(parts');
      var rest := Split(Join(parts'));
      assert c != ' ';
      assert Split(Join(parts)) == [[c] + rest[0]] + rest[1..];
      assert [[c] + rest[0]] + rest[1..] == [p0] + parts[1..];
      assert parts == [p0] + parts[1..];
    }
  }

  /** A non-empty join starts with its first piece. */
  lemma {:induction false} JoinStartsWithFirst(parts: seq<string>)
    requires |parts| >= 1
    ensures |Join(parts)| >= |parts[0]|
    ensures Join(parts)[..|parts[0]|] == parts[0]
  {
    if |parts| > 1 {
      assert Join(parts) == parts[0] + (" " + Join(parts[1..]));
    }
  }

  /** Appending one piece to a non-empty list puts one space and the piece
      at the end of the join. */
  lemma {:induction false} JoinAppend(parts: seq<string>, w: string)
    requires |parts| >= 1
    ensures Join(parts + [w]) == Join(parts) + " " + w
    decreases |parts|
  {
    var ps := parts + [w];
    if |parts| == 1 {
      assert ps[1..] == [w];
      assert Join(ps) == parts[0] + " " + Join([w]);
    } else {
      assert ps[1..] == parts[1..] + [w];
      JoinAppend(parts[1..], w);
      assert Join(ps) == parts[0] + " " + Join(parts[1..] + [w]);
    }
  }

  /** The characters `String.prototype.trim` removes: the ECMAScript
      WhiteSpace set (TAB, VT, FF, SPACE, NBSP, ZWNBSP and the Unicode
      category Zs) and the LineTerminator set (LF, CR, LS, PS). */
  predicate IsJsWhitespace(c: char) {
    || c == '\t' || c == '\n' || c == '\U{000B}' || c == '\U{000C}' || c == '\r'
    || c == ' ' || c == '\U{00A0}' || c == '\U{1680}'
    || ('\U{2000}' <= c <= '\U{200A}')
    || c == '\U{2028}' || c == '\U{2029}' || c == '\U{202F}' || c == '\U{205F}'
    || c == '\U{3000}' || c == '\U{FEFF}'
  }

  /** Every character of `t` is whitespace. */
  predicate AllWhitespace(t: string) {
    forall k :: 0 <= k < |t| ==> IsJsWhitespace(t[k])
  }

  /** Drops leading whitespace. */
  function TrimStart(s: string): string
  {
    if |s| > 0 && IsJsWhitespace(s[0]) then TrimStart(s[1..]) else s
  }

  /** Drops trailing whitespace. */
  function TrimEnd(s: string): string
  {
    if |s| > 0 && IsJsWhitespace(s[|s| - 1]) then TrimEnd(s[..|s| - 1]) else s
  }

  /** `s.trim()`. */
  function Trim(s: string): string
  {
    TrimEnd(TrimStart(s))
  }

  /** `TrimStart` cuts a whitespace prefix, and no more than that. */
  lemma {:induction false} TrimStartSpec(s: string)
    ensures var r := TrimStart(s);
      && |r| <= |s| && r == s[|s| - |r|..]
      && AllWhitespace(s[..|s| - |r|])
      && (|r| == 0 || !IsJsWhitespace(r[0]))
  {
    if |s| > 0 && IsJsWhitespace(s[0]) {
      TrimStartSpec(s[1..]);
      var r := TrimStart(s[1..]);
      assert s[..|s| - |r|] == [s[0]] + s[1..][..|s| - 1 - |r|];
    }
  }

  /** `TrimEnd` cuts a whitespace suffix, and no more than that. */
  lemma {:induction false} TrimEndSpec(s: string)
    ensures var r := TrimEnd(s);
      && |r| <= |s| && r == s[..|r|]
      && AllWhitespace(s[|r|..])
      && (|r| == 0 || !IsJsWhitespace(r[|r| - 1]))
  {
    if |s| > 0 && IsJsWhitespace(s[|s| - 1]) {
      TrimEndSpec(s[..|s| - 1]);
      var r := TrimEnd(s[..|s| - 1]);
      assert s[|r|..] == s[..|s| - 1][|r|..] + [s[|s| - 1]];
    }
  }

  /** `s.trim()` is the infix of `s` left after cutting a whitespace prefix
      and a whitespace suffix, and it neither starts nor ends with
      whitespace, so it is the longest such infix. */
  lemma TrimSpec(s: string)
    ensures var r := Trim(s);
            var i := |s| - |TrimStart(s)|;
      && 0 <= i && i + |r| <= |s| && r == s[i..i + |r|]
      && AllWhitespace(s[..i]) && AllWhitespace(s[i + |r|..])
      && (|r| == 0 || (!IsJsWhitespace(r[0]) && !IsJsWhitespace(r[|r| - 1])))
  {
    var a := TrimStart(s);
    TrimStartSpec(s);
    TrimEndSpec(a);
    var r := TrimEnd(a);
    var i := |s| - |a|;
    assert a == s[i..];
    assert r == a[..|r|];
    assert s[i + |r|..] == a[|r|..];
    assert |r| > 0 ==> r[0] == a[0];
  }

  /** A single trailing space is cut by a trim of a string that does not
      start with whitespace, and nothing else of it is. */
  lemma TrimTrailingSpace(s: string)
    requires |s| >= 1 && !IsJsWhitespace(s[0]) && !IsJsWhitespace(s[|s| - 1])
    ensures Trim(s + " ") == s
  {
    var t := s + " ";
    assert t[0] == s[0];
    assert TrimStart(t) == t;
    assert t[..|t| - 1] == s;
    assert TrimEnd(t) == TrimEnd(s);
    assert TrimEnd(s) == s;
  }

  function DigitChar(d: nat): char
    requires d < 10
  {
    "0123456789"[d]
  }

  function DigitValue(c: char): nat
  {
    if '0' <= c <= '9' then (c - '0') as nat else 0
  }

  /** The decimal rendering JavaScript gives a non-negative integer (below
      10^21) in a template literal: digits only, no leading zero. */
  function DecimalString(n: nat): (s: string)
    ensures |s| >= 1
    ensures forall i :: 0 <= i < |s| ==> '0' <= s[i] <= '9'
    ensures s[0] != '0' || s == "0"
  {
    if n < 10 then [DigitChar(n)]
    else DecimalString(n / 10) + [DigitChar(n % 10)]
  }

  /** Reads a string of decimal digits back as a number. */
  function ParseDecimal(s: string): nat
  {
    if |s| == 0 then 0
    else ParseDecimal(s[..|s| - 1]) * 10 + DigitValue(s[|s| - 1])
  }

  /** The rendering is faithful: reading it back yields the number. */
  lemma {:induction false} DecimalRoundTrip(n: nat)
    ensures ParseDecimal(DecimalString(n)) == n
  {
    var s := DecimalString(n);
    if n < 10 {
      assert s[..0] == "";
    } else {
      DecimalRoundTrip(n / 10);
      assert s[..|s| - 1] == DecimalString(n / 10);
    }
  }
}
