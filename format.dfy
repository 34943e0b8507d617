/**
  The chat widget's message formatting: a light markdown pass that turns `**bold**` into
  `<strong>`, `*italic*` into `<em>` and line feeds into `<br>`, written as the three
  global regular-expression replacements it performs.
 */
module Format {
  import opened Wrappers
  import opened Text

  /** The characters that the regular-expression `.` does not match. */
  predicate IsLineTerminator(c: char) {
    c == '\n' || c == '\r' || c == '\U{2028}' || c == '\U{2029}'
  }

  predicate SingleLine(s: string) {
    forall i :: 0 <= i < |s| ==> !IsLineTerminator(s[i])
  }

  /** The lazy group `(.*?)` followed by the closing delimiter `d`, matched at the start of `t`:
      the length of the shortest line-terminator-free stretch after which `d` occurs. */
  function FindClose(t: string, d: string): (r: Option<nat>)
    requires d != []
    ensures r.Some? ==> r.value + |d| <= |t|
    decreases |t|
  {
    if IsPrefix(d, t) then Some(0)
    else if t == [] || IsLineTerminator(t[0]) then None
    else match FindClose(t[1..], d) {
      case None => None
      case Some(k) => Some(k + 1)
    }
  }

  /** `s.replace(/D(.*?)D/g, open + '$1' + close)` for the escaped delimiter `D` = `d`: scanning
      left to right, every opening `d` that has a close on the same line wraps the text up to
      the nearest such close; the scan resumes after the close. */
  function Emphasize(s: string, d: string, open: string, close: string): (r: string)
    requires d != []
    decreases |s|
  {
    if s == [] then []
    else if IsPrefix(d, s) && FindClose(s[|d|..], d).Some? then
      var k := FindClose(s[|d|..], d).value;
      open + s[|d|..|d| + k] + close + Emphasize(s[|d| + k + |d|..], d, open, close)
    else
      [s[0]] + Emphasize(s[1..], d, open, close)
  }

  /** `s.replace(/\n/g, '<br>')`. */
  function ReplaceNewlines(s: string): (r: string)
  {
    if s == [] then []
    else (if s[0] == '\n' then "<br>" else [s[0]]) + ReplaceNewlines(s[1..])
  }

  /** `formatMessage`: bold first, then italics on what remains, then line breaks. The emoji
      wrapping that follows is not part of this model. */
  function FormatMessage(s: string): string {
    ReplaceNewlines(Emphasize(Emphasize(s, "**", "<strong>", "</strong>"), "*", "<em>", "</em>"))
  }
}

module FormatProperties {
  import opened Wrappers
  import opened Text
  import opened Format

  /** Every slice of a line is a line. */
  lemma SingleLineSlice(s: string, i: int, j: int)
    requires SingleLine(s) && 0 <= i <= j <= |s|
    ensures SingleLine(s[i..j])
  {
    forall m | 0 <= m < j - i ensures !IsLineTerminator(s[i..j][m]) {
      assert s[i..j][m] == s[i + m];
    }
  }

  /** When `FindClose` succeeds, the close occurs where it says, the stretch before it is on
      one line, and no earlier position holds the close: the match is the lazy one. */
  lemma {:induction false} FindCloseFound(t: string, d: string)
    requires d != [] && FindClose(t, d).Some?
    ensures OccursAt(t, d, FindClose(t, d).value)
    ensures SingleLine(t[..FindClose(t, d).value])
    ensures forall j :: 0 <= j < FindClose(t, d).value ==> !OccursAt(t, d, j)
    decreases |t|
  {
    if !IsPrefix(d, t) {
      var k := FindClose(t[1..], d).value;
      assert FindClose(t, d) == Some(k + 1);
      FindCloseFound(t[1..], d);
      OccursEarlier(t, d, k);
      assert t[..k + 1] == [t[0]] + t[1..][..k];
      OccursLater(t, d);
      assert !OccursAt(t, d, 0) by {
        assert t[0..|d|] == t[..|d|];
      }
    }
  }

  /** When `FindClose` fails, every occurrence of the close is preceded by a line terminator. */
  lemma {:induction false} FindCloseMissing(t: string, d: string)
    requires d != [] && FindClose(t, d).None?
    ensures forall k :: OccursAt(t, d, k) ==> !SingleLine(t[..k])
    decreases |t|
  {
    if t != [] && !IsLineTerminator(t[0]) {
      FindCloseMissing(t[1..], d);
      forall k | OccursAt(t, d, k) ensures !SingleLine(t[..k]) {
        assert k != 0;
        assert t[1..][k - 1..k - 1 + |d|] == t[k..k + |d|];
        assert !SingleLine(t[1..][..k - 1]);
        assert t[1..][..k - 1] == t[1..k];
        var m :| 0 <= m < k - 1 && IsLineTerminator(t[1..k][m]);
        assert t[..k][m + 1] == t[1..k][m];
      }
    } else if t != [] {
      forall k | OccursAt(t, d, k) ensures !SingleLine(t[..k]) {
        assert k != 0;
        assert t[..k][0] == t[0];
      }
    }
  }

  /** A one-character close that `FindClose` cannot find on a line does not occur in it. */
  lemma {:induction false} NoCloseOnLine(t: string, c: char)
    requires SingleLine(t) && FindClose(t, [c]).None?
    ensures c !in t
    decreases |t|
  {
    if t != [] {
      assert t[..1] == [t[0]];
      SingleLineSlice(t, 1, |t|);
      NoCloseOnLine(t[1..], c);
      assert t == [t[0]] + t[1..];
    }
  }

  /** A formatted message never spans lines in the markup: every line feed became `<br>`. */
  lemma FormattedIsOneLine(s: string)
    ensures '\n' !in FormatMessage(s)
  {
    ReplaceNewlinesRemovesFeeds(Emphasize(Emphasize(s, "**", "<strong>", "</strong>"), "*", "<em>", "</em>"));
  }

  /** No line feed survives the line-break step. */
  lemma {:induction false} ReplaceNewlinesRemovesFeeds(s: string)
    ensures '\n' !in ReplaceNewlines(s)
    decreases |s|
  {
    if s != [] {
      ReplaceNewlinesRemovesFeeds(s[1..]);
    }
  }

  /** Text without line feeds passes the line-break step unchanged. */
  lemma {:induction false} ReplaceNewlinesKeepsPlain(s: string)
    requires '\n' !in s
    ensures ReplaceNewlines(s) == s
    decreases |s|
  {
    if s != [] {
      assert s == [s[0]] + s[1..];
      ReplaceNewlinesKeepsPlain(s[1..]);
    }
  }

  /** Text without the delimiter's first character passes an emphasis step unchanged. */
  lemma {:induction false} EmphasizeKeepsPlain(s: string, d: string, open: string, close: string)
    requires d != [] && d[0] !in s
    ensures Emphasize(s, d, open, close) == s
    decreases |s|
  {
    if s != [] {
      assert !IsPrefix(d, s) by {
        if |d| <= |s| {
          assert s[..|d|][0] == s[0];
        }
      }
      assert s == [s[0]] + s[1..];
      EmphasizeKeepsPlain(s[1..], d, open, close);
    }
  }

  /** Text without asterisks and line feeds is shown as it is. */
  lemma PlainTextUnchanged(s: string)
    requires '*' !in s && '\n' !in s
    ensures FormatMessage(s) == s
  {
    EmphasizeKeepsPlain(s, "**", "<strong>", "</strong>");
    EmphasizeKeepsPlain(s, "*", "<em>", "</em>");
    ReplaceNewlinesKeepsPlain(s);
  }

  /** `ReplaceNewlines` works one character at a time. */
  lemma ReplaceNewlinesCons(x: char, t: string)
    ensures ReplaceNewlines([x] + t) == (if x == '\n' then "<br>" else [x]) + ReplaceNewlines(t)
  {
    assert ([x] + t)[0] == x;
    assert ([x] + t)[1..] == t;
  }

  /** Each line feed grows the text by three characters, and nothing else changes its length. */
  lemma {:induction false} ReplaceNewlinesLength(s: string)
    ensures |ReplaceNewlines(s)| == |s| + 3 * multiset(s)['\n']
    decreases |s|
  {
    if s != [] {
      assert s == [s[0]] + s[1..];
      ReplaceNewlinesLength(s[1..]);
    }
  }

  /** `ReplaceNewlines` maps concatenations to concatenations. */
  lemma {:induction false} ReplaceNewlinesAppend(a: string, b: string)
    ensures ReplaceNewlines(a + b) == ReplaceNewlines(a) + ReplaceNewlines(b)
    decreases |a|
  {
    if a != [] {
      var t := a[1..];
      assert a == [a[0]] + t;
      assert a + b == [a[0]] + (t + b);
      ReplaceNewlinesCons(a[0], t + b);
      ReplaceNewlinesCons(a[0], t);
      ReplaceNewlinesAppend(t, b);
    } else {
      assert a + b == b;
    }
  }

  /** Joining lines with line feeds and formatting them joins the lines with `<br>`. */
  lemma {:induction false} LinesBecomeBreaks(lines: seq<string>)
    requires forall i :: 0 <= i < |lines| ==> '\n' !in lines[i]
    ensures ReplaceNewlines(Join(lines, "\n")) == Join(lines, "<br>")
    decreases |lines|
  {
    if |lines| > 1 {
      var rest := Join(lines[1..], "\n");
      LinesBecomeBreaks(lines[1..]);
      ReplaceNewlinesAppend(lines[0] + "\n", rest);
      ReplaceNewlinesAppend(lines[0], "\n");
      ReplaceNewlinesKeepsPlain(lines[0]);
      assert ReplaceNewlines("\n") == "<br>";
    } else if |lines| == 1 {
      ReplaceNewlinesKeepsPlain(lines[0]);
    }
  }

  /** Text that starts with a stretch free of the delimiter's first character passes that stretch
      through the emphasis step unchanged. */
  lemma {:induction false} EmphasizeSkips(w: string, rest: string, d: string, open: string, close: string)
    requires d != [] && d[0] !in w
    ensures Emphasize(w + rest, d, open, close) == w + Emphasize(rest, d, open, close)
    decreases |w|
  {
    if w != [] {
      var s := w + rest;
      assert s[0] == w[0];
      assert !IsPrefix(d, s) by {
        if |d| <= |s| {
          assert s[..|d|][0] == s[0];
        }
      }
      assert Emphasize(s, d, open, close) == [s[0]] + Emphasize(s[1..], d, open, close);
      assert s[1..] == w[1..] + rest;
      EmphasizeSkips(w[1..], rest, d, open, close);
    } else {
      assert w + rest == rest;
    }
  }

  /** The stretch the lazy group captures holds no copy of a one-character close. */
  lemma LazyStretchAvoids(t: string, c: char)
    requires FindClose(t, [c]).Some?
    ensures c !in t[..FindClose(t, [c]).value]
  {
    var k := FindClose(t, [c]).value;
    FindCloseFound(t, [c]);
    var mid := t[..k];
    forall j | 0 <= j < k ensures mid[j] != c {
      assert !OccursAt(t, [c], j);
      assert t[j..j + 1] == [mid[j]];
    }
  }

  /** The emphasis step on text that opens with a delimiter closed on the same line: the
      wrapped stretch, then the step on what follows the close. */
  lemma EmphasizeMatched(s: string, d: string, k: nat, open: string, close: string)
    requires d != [] && IsPrefix(d, s) && FindClose(s[|d|..], d) == Some(k)
    ensures Emphasize(s, d, open, close) == open + s[|d|..|d| + k] + close + Emphasize(s[|d| + k + |d|..], d, open, close)
  {
  }

  /** The emphasis step on text that does not open with a closed delimiter keeps its first
      character. */
  lemma EmphasizeUnmatched(s: string, d: string, open: string, close: string)
    requires d != [] && s != [] && !(IsPrefix(d, s) && FindClose(s[|d|..], d).Some?)
    ensures Emphasize(s, d, open, close) == [s[0]] + Emphasize(s[1..], d, open, close)
  {
  }

  /** On text without line terminators the italic pass pairs up asterisks: at most one is left,
      the last one, which had no partner. */
  lemma {:induction false} StarsPaired(s: string, open: string, close: string)
    requires SingleLine(s)
    requires '*' !in open && '*' !in close
    ensures multiset(Emphasize(s, "*", open, close))['*'] <= 1
    decreases |s|
  {
    var d := "*";
    if s != [] {
      var t := s[1..];
      SingleLineSlice(s, 1, |s|);
      if IsPrefix(d, s) && FindClose(t, d).Some? {
        var k := FindClose(t, d).value;
        LazyStretchAvoids(t, '*');
        assert s[1..1 + k] == t[..k];
        SingleLineSlice(s, 1 + k + 1, |s|);
        StarsPaired(s[1 + k + 1..], open, close);
        EmphasizeMatched(s, d, k, open, close);
        StarsAbsentFrom(open + s[1..1 + k] + close, Emphasize(s[1 + k + 1..], d, open, close));
      } else if IsPrefix(d, s) {
        NoCloseOnLine(t, '*');
        EmphasizeUnmatched(s, d, open, close);
        EmphasizeKeepsPlain(t, d, open, close);
        StarsAbsentFrom(t, []);
        assert multiset([s[0]] + t)['*'] == 1 + multiset(t)['*'];
      } else {
        StarsPaired(t, open, close);
        assert s[0] != '*' by {
          assert s[..1] == [s[0]];
        }
        EmphasizeUnmatched(s, d, open, close);
        StarsAbsentFrom([s[0]], Emphasize(t, d, open, close));
      }
    }
  }

  /** A stretch without asterisks adds none to the count. */
  lemma StarsAbsentFrom(a: string, b: string)
    requires '*' !in a
    ensures multiset(a + b)['*'] == multiset(b)['*']
  {
    assert multiset(a + b) == multiset(a) + multiset(b);
    assert '*' !in multiset(a);
  }

  /** The close of a delimiter that follows a word free of its first character and of line
      terminators is found right after the word. */
  lemma {:induction false} FindCloseAfterWord(w: string, d: string)
    requires d != [] && d[0] !in w && SingleLine(w)
    ensures FindClose(w + d, d) == Some(|w|)
    decreases |w|
  {
    if w != [] {
      assert (w + d)[..|d|][0] == w[0];
      assert !IsPrefix(d, w + d);
      assert (w + d)[1..] == w[1..] + d;
      SingleLineSlice(w, 1, |w|);
      FindCloseAfterWord(w[1..], d);
    } else {
      assert [] + d == d;
    }
  }

  /** A line without line feeds contains no line feed. */
  lemma LineHasNoFeed(w: string)
    requires SingleLine(w)
    ensures '\n' !in w
  {
    forall j | 0 <= j < |w| ensures w[j] != '\n' {
      assert !IsLineTerminator(w[j]);
    }
  }

  /** The bold step wraps a delimited word in the given tags. */
  lemma WrapWord(w: string, d: string, open: string, close: string)
    requires d != [] && d[0] !in w && SingleLine(w)
    ensures Emphasize(d + w + d, d, open, close) == open + w + close
  {
    var s := d + w + d;
    assert IsPrefix(d, s) by {
      assert s[..|d|] == d;
    }
    assert s[|d|..] == w + d;
    FindCloseAfterWord(w, d);
    EmphasizeMatched(s, d, |w|, open, close);
    assert s[|d|..|d| + |w|] == w;
    assert s[|d| + |w| + |d|..] == [];
  }

  /** A word without asterisks between two double asterisks becomes bold. */
  lemma BoldWord(w: string)
    requires '*' !in w && SingleLine(w)
    ensures FormatMessage("**" + w + "**") == "<strong>" + w + "</strong>"
  {
    WrapWord(w, "**", "<strong>", "</strong>");
    LineHasNoFeed(w);
    var r := "<strong>" + w + "</strong>";
    assert '*' !in r;
    assert '\n' !in r;
    EmphasizeKeepsPlain(r, "*", "<em>", "</em>");
    ReplaceNewlinesKeepsPlain(r);
  }

  /** A doubled-character delimiter finds nothing to open in a non-empty word without that
      character between two single copies of it. */
  lemma SinglesPassDouble(w: string, c: char, open: string, close: string)
    requires w != [] && c !in w
    ensures Emphasize([c] + w + [c], [c, c], open, close) == [c] + w + [c]
  {
    var s := [c] + w + [c];
    var d := [c, c];
    assert !IsPrefix(d, s) by {
      assert s[1] == w[0];
    }
    assert Emphasize(s, d, open, close) == [c] + Emphasize(s[1..], d, open, close);
    assert s[1..] == w + [c];
    EmphasizeSkips(w, [c], d, open, close);
    assert Emphasize([c], d, open, close) == [c] + Emphasize([], d, open, close);
  }

  /** A non-empty word without asterisks between two single asterisks becomes italic: the bold
      step leaves it alone, the italic step wraps it. */
  lemma ItalicWord(w: string)
    requires w != [] && '*' !in w && SingleLine(w)
    ensures FormatMessage("*" + w + "*") == "<em>" + w + "</em>"
  {
    SinglesPassDouble(w, '*', "<strong>", "</strong>");
    assert ['*', '*'] == "**";
    assert ['*'] + w + ['*'] == "*" + w + "*";
    WrapWord(w, "*", "<em>", "</em>");
    LineHasNoFeed(w);
    assert '\n' !in "<em>" + w + "</em>";
    ReplaceNewlinesKeepsPlain("<em>" + w + "</em>");
  }
}
