/**
  String operations of JavaScript that the portfolio's logic relies on:
  `includes`, `toLowerCase`, `trim`, `join` and `filter`, plus a first-occurrence
  search and a `split` built on it, used to show that joined text can be taken apart again.
  Strings are sequences of characters; `includes` is literal substring search.
 */
module Text {
  import opened Wrappers

  /** A code point that `String.prototype.trim` removes and the regular-expression
      class `\s` matches: ECMAScript's WhiteSpace and LineTerminator characters. */
  predicate IsWhitespace(c: char) {
    || c == '\t' || c == '\n' || c == '\U{000B}' || c == '\U{000C}' || c == '\r' || c == ' '
    || c == '\U{00A0}' || c == '\U{1680}' || ('\U{2000}' <= c <= '\U{200A}')
    || c == '\U{2028}' || c == '\U{2029}' || c == '\U{202F}' || c == '\U{205F}'
    || c == '\U{3000}' || c == '\U{FEFF}'
  }

  predicate AllWhitespace(s: string) {
    forall i :: 0 <= i < |s| ==> IsWhitespace(s[i])
  }

  predicate IsPrefix(p: string, s: string) {
    |p| <= |s| && s[..|p|] == p
  }

  /** `sub` occurs in `s` starting at index `i`. */
  predicate OccursAt(s: string, sub: string, i: int) {
    0 <= i && i + |sub| <= |s| && s[i..i + |sub|] == sub
  }

  /** `s.includes(sub)`: tried at every start position, left to right. */
  predicate Contains(s: string, sub: string)
    decreases |s|
  {
    IsPrefix(sub, s) || (s != [] && Contains(s[1..], sub))
  }

  lemma {:induction false} ContainsFromOccurrence(s: string, sub: string, i: int)
    requires OccursAt(s, sub, i)
    ensures Contains(s, sub)
    decreases i
  {
    if i > 0 {
      assert s[1..][i - 1..i - 1 + |sub|] == s[i..i + |sub|];
      ContainsFromOccurrence(s[1..], sub, i - 1);
    }
  }

  lemma {:induction false} OccurrenceFromContains(s: string, sub: string) returns (i: int)
    requires Contains(s, sub)
    ensures OccursAt(s, sub, i)
    decreases |s|
  {
    if IsPrefix(sub, s) {
      i := 0;
    } else {
      var j := OccurrenceFromContains(s[1..], sub);
      assert s[1..][j..j + |sub|] == s[j + 1..j + 1 + |sub|];
      i := j + 1;
    }
  }

  /** The recursive scan of `Contains` agrees with "there is a position where `sub` occurs". */
  lemma ContainsIffOccurs(s: string, sub: string)
    ensures Contains(s, sub) <==> exists i :: OccursAt(s, sub, i)
  {
    if Contains(s, sub) {
      var i := OccurrenceFromContains(s, sub);
    }
    if exists i :: OccursAt(s, sub, i) {
      var i :| OccursAt(s, sub, i);
      ContainsFromOccurrence(s, sub, i);
    }
  }

  /** Containment is transitive: a keyword inside a longer keyword is found wherever the longer one is. */
  lemma ContainsTransitive(s: string, mid: string, sub: string)
    requires Contains(s, mid) && Contains(mid, sub)
    ensures Contains(s, sub)
  {
    var i := OccurrenceFromContains(s, mid);
    var j := OccurrenceFromContains(mid, sub);
    forall k | 0 <= k < |sub| ensures s[i + j + k] == sub[k] {
      assert sub[k] == mid[j..j + |sub|][k] == mid[j + k];
      assert mid[j + k] == s[i..i + |mid|][j + k];
    }
    assert s[i + j..i + j + |sub|] == sub;
    ContainsFromOccurrence(s, sub, i + j);
  }

  /** Every piece of a concatenation is contained in it. */
  lemma ContainsPiece(a: string, b: string, c: string)
    ensures Contains(a + b + c, b)
  {
    assert (a + b + c)[|a|..|a| + |b|] == b;
    ContainsFromOccurrence(a + b + c, b, |a|);
  }

  /** Every character of a contained string appears in the container; so a string holding a
      character that `s` lacks is not contained in `s`. */
  lemma ContainedCharacters(s: string, sub: string)
    ensures Contains(s, sub) ==> forall c :: c in sub ==> c in s
  {
    if Contains(s, sub) {
      var i := OccurrenceFromContains(s, sub);
      forall c | c in sub ensures c in s {
        var k :| 0 <= k < |sub| && sub[k] == c;
        assert s[i + k] == s[i..i + |sub|][k] == c;
      }
    }
  }

  /** A string holding a character that `s` lacks is not contained in `s`. */
  lemma LacksCharacter(s: string, sub: string, c: char)
    requires c in sub && c !in s
    ensures !Contains(s, sub)
  {
    ContainedCharacters(s, sub);
  }

  /** An occurrence in `a + [c] + b` of a string without `c` lies wholly in `a` or wholly in `b`. */
  lemma ContainsAcross(a: string, c: char, b: string, sub: string)
    ensures Contains(a + [c] + b, sub) && c !in sub ==> Contains(a, sub) || Contains(b, sub)
  {
    var s := a + [c] + b;
    if Contains(s, sub) {
      var i := OccurrenceFromContains(s, sub);
      if i + |sub| <= |a| {
        assert s[i..i + |sub|] == a[i..i + |sub|];
        ContainsFromOccurrence(a, sub, i);
      } else if i > |a| {
        assert s[i..i + |sub|] == b[i - |a| - 1..i - |a| - 1 + |sub|];
        ContainsFromOccurrence(b, sub, i - |a| - 1);
      } else {
        assert sub[|a| - i] == s[i..i + |sub|][|a| - i] == s[|a|] == c;
      }
    }
  }

  /** `toLowerCase` on one code point, for the ASCII letters and the KELVIN SIGN, the one
      code point outside ASCII whose lower case is a single ASCII letter. */
  function LowerChar(c: char): char {
    if 'A' <= c <= 'Z' then (c as int + 32) as char
    else if c == '\U{212A}' then 'k'
    else c
  }

  /** `s.toLowerCase()`, restricted to the code points `LowerChar` maps. */
  function ToLower(s: string): string {
    seq(|s|, i requires 0 <= i < |s| => LowerChar(s[i]))
  }

  /** Lower-casing twice is lower-casing once. */
  lemma ToLowerIdempotent(s: string)
    ensures ToLower(ToLower(s)) == ToLower(s)
  {
    assert forall i :: 0 <= i < |s| ==> LowerChar(LowerChar(s[i])) == LowerChar(s[i]);
  }

  /** Lower-casing keeps every occurrence: what `s` contains, `ToLower(s)` contains lower-cased. */
  lemma ContainsToLower(s: string, sub: string)
    requires Contains(s, sub)
    ensures Contains(ToLower(s), ToLower(sub))
  {
    var i := OccurrenceFromContains(s, sub);
    assert ToLower(s)[i..i + |sub|] == ToLower(sub) by {
      forall k | 0 <= k < |sub|
        ensures ToLower(s)[i..i + |sub|][k] == ToLower(sub)[k]
      {
        assert s[i + k] == s[i..i + |sub|][k] == sub[k];
      }
    }
    ContainsFromOccurrence(ToLower(s), ToLower(sub), i);
  }

  /** `xs.join(sep)`. */
  function Join(xs: seq<string>, sep: string): string
    decreases |xs|
  {
    if |xs| == 0 then "" else if |xs| == 1 then xs[0] else xs[0] + sep + Join(xs[1..], sep)
  }

  /** What `b` contains, `a + b` contains. */
  lemma ContainsInSuffix(a: string, b: string, sub: string)
    requires Contains(b, sub)
    ensures Contains(a + b, sub)
  {
    var i := OccurrenceFromContains(b, sub);
    assert (a + b)[|a| + i..|a| + i + |sub|] == b[i..i + |sub|];
    ContainsFromOccurrence(a + b, sub, |a| + i);
  }

  /** A joined list starts with its first item. */
  lemma JoinStartsWithFirst(xs: seq<string>, sep: string)
    requires |xs| > 0
    ensures xs[0] <= Join(xs, sep)
  {
    if |xs| > 1 {
      assert Join(xs, sep) == xs[0] + (sep + Join(xs[1..], sep));
    }
  }

  /** Every item of a joined list is contained in the joined string. */
  lemma {:induction false} JoinHoldsItem(xs: seq<string>, sep: string, k: int)
    requires 0 <= k < |xs|
    ensures Contains(Join(xs, sep), xs[k])
    decreases |xs|
  {
    if |xs| == 1 {
      ContainsPiece("", xs[0], "");
    } else if k == 0 {
      ContainsPiece("", xs[0], sep + Join(xs[1..], sep));
      assert "" + xs[0] + (sep + Join(xs[1..], sep)) == Join(xs, sep);
    } else {
      JoinHoldsItem(xs[1..], sep, k - 1);
      ContainsInSuffix(xs[0] + sep, Join(xs[1..], sep), xs[k]);
    }
  }

  /** Template-literal interpolation: the pieces concatenated in order. */
  function Concat(pieces: seq<string>): string {
    Join(pieces, "")
  }

  /** A character that is in no item and not in the separator is not in the joined string. */
  lemma {:induction false} JoinAvoids(xs: seq<string>, sep: string, c: char)
    requires c !in sep
    requires forall k :: 0 <= k < |xs| ==> c !in xs[k]
    ensures c !in Join(xs, sep)
    decreases |xs|
  {
    if |xs| > 1 {
      JoinAvoids(xs[1..], sep, c);
    }
  }

  /** `xs.filter(x => keep.includes(x))`: the items of `xs` that also occur in `keep`, in order. */
  function Filter(xs: seq<string>, keep: seq<string>): (r: seq<string>)
    ensures |r| <= |xs|
    ensures forall x :: x in r <==> x in xs && x in keep
    decreases |xs|
  {
    if xs == [] then []
    else (if xs[0] in keep then [xs[0]] else []) + Filter(xs[1..], keep)
  }

  /** Filtering keeps order: the kept items of a concatenation are those of its first part
      followed by those of its second. */
  lemma {:induction false} FilterAppend(xs: seq<string>, ys: seq<string>, keep: seq<string>)
    ensures Filter(xs + ys, keep) == Filter(xs, keep) + Filter(ys, keep)
    decreases |xs|
  {
    if xs != [] {
      assert (xs + ys)[1..] == xs[1..] + ys;
      FilterAppend(xs[1..], ys, keep);
    } else {
      assert xs + ys == ys;
    }
  }

  /** A one-item list is kept exactly when its item is in the keep list. */
  lemma FilterSingle(x: string, keep: seq<string>)
    ensures Filter([x], keep) == if x in keep then [x] else []
  {
    assert [x][1..] == [];
  }

  /** The first position where a non-empty `sub` occurs, as `Split` searches for its separator. */
  function FindFirst(s: string, sub: string): (r: Option<nat>)
    requires sub != []
    ensures r.Some? ==> OccursAt(s, sub, r.value)
    ensures r.Some? ==> forall j :: 0 <= j < r.value ==> !OccursAt(s, sub, j)
    ensures r.None? ==> forall j :: !OccursAt(s, sub, j)
    decreases |s|
  {
    if IsPrefix(sub, s) then Some(0)
    else if |s| <= |sub| then None
    else
      match FindFirst(s[1..], sub)
      case None =>
        OccursLater(s, sub);
        None
      case Some(j) =>
        OccursLater(s, sub);
        OccursEarlier(s, sub, j);
        Some(j + 1)
  }

  /** An occurrence past the first position is an occurrence in the tail. */
  lemma OccursLater(s: string, sub: string)
    requires s != []
    ensures forall j :: OccursAt(s, sub, j) && j > 0 ==> OccursAt(s[1..], sub, j - 1)
  {
    forall j | OccursAt(s, sub, j) && j > 0 ensures OccursAt(s[1..], sub, j - 1) {
      assert s[1..][j - 1..j - 1 + |sub|] == s[j..j + |sub|];
    }
  }

  /** An occurrence in the tail is an occurrence one position further on. */
  lemma OccursEarlier(s: string, sub: string, j: int)
    requires s != [] && OccursAt(s[1..], sub, j)
    ensures OccursAt(s, sub, j + 1)
  {
    assert s[1..][j..j + |sub|] == s[j + 1..j + 1 + |sub|];
  }

  /** An occurrence begins with the first character of what occurs. */
  lemma OccurrenceStart(s: string, sub: string, i: int)
    ensures OccursAt(s, sub, i) && sub != [] ==> s[i] == sub[0]
  {
    if OccursAt(s, sub, i) && sub != [] {
      assert s[i..i + |sub|][0] == s[i];
    }
  }

  /** `s.split(sep)` for a non-empty separator. */
  function Split(s: string, sep: string): seq<string>
    requires sep != []
    decreases |s|
  {
    match FindFirst(s, sep)
    case None => [s]
    case Some(i) => [s[..i]] + Split(s[i + |sep|..], sep)
  }

  /** Splitting a join recovers the items when no item holds the separator's first character. */
  lemma {:induction false} SplitJoin(xs: seq<string>, sep: string)
    requires |xs| > 0 && sep != []
    requires forall k :: 0 <= k < |xs| ==> sep[0] !in xs[k]
    ensures Split(Join(xs, sep), sep) == xs
    decreases |xs|
  {
    var x := xs[0];
    if |xs| == 1 {
      forall j ensures !OccursAt(x, sep, j) {
        OccurrenceStart(x, sep, j);
      }
    } else {
      var rest := Join(xs[1..], sep);
      var s := x + sep + rest;
      assert s[|x|..|x| + |sep|] == sep;
      forall j | 0 <= j < |x| ensures !OccursAt(s, sep, j) {
        OccurrenceStart(s, sep, j);
      }
      assert OccursAt(s, sep, |x|);
      var r := FindFirst(s, sep);
      assert r.Some?;
      assert r.value == |x|;
      assert s[..|x|] == x;
      assert s[|x| + |sep|..] == rest;
      SplitJoin(xs[1..], sep);
    }
  }

  /** The first index at or after `i` whose character is not whitespace, or `|s|`. */
  function SkipWhitespace(s: string, i: nat): (n: nat)
    requires i <= |s|
    ensures i <= n <= |s| && AllWhitespace(s[i..n])
    ensures n == |s| || !IsWhitespace(s[n])
    decreases |s| - i
  {
    if i < |s| && IsWhitespace(s[i]) then
      var n := SkipWhitespace(s, i + 1);
      assert forall k :: i + 1 <= k < n ==> IsWhitespace(s[k]) by {
        forall k | i + 1 <= k < n ensures IsWhitespace(s[k]) {
          assert s[i + 1..n][k - i - 1] == s[k];
        }
      }
      n
    else i
  }

  /** The least index at or before `j` from which `s[..j]` is whitespace only. */
  function BackOverWhitespace(s: string, j: nat): (n: nat)
    requires j <= |s|
    ensures n <= j && AllWhitespace(s[n..j])
    ensures n == 0 || !IsWhitespace(s[n - 1])
    decreases j
  {
    if j > 0 && IsWhitespace(s[j - 1]) then
      var n := BackOverWhitespace(s, j - 1);
      assert forall k :: n <= k < j - 1 ==> IsWhitespace(s[k]) by {
        forall k | n <= k < j - 1 ensures IsWhitespace(s[k]) {
          assert s[n..j - 1][k - n] == s[k];
        }
      }
      n
    else j
  }

  /** `s.trimStart()`. */
  function TrimStart(s: string): (r: string)
    ensures |r| <= |s| && r == s[|s| - |r|..]
    ensures AllWhitespace(s[..|s| - |r|])
    ensures r == [] || !IsWhitespace(r[0])
  {
    var n := SkipWhitespace(s, 0);
    assert s[..n] == s[0..n];
    s[n..]
  }

  /** `s.trimEnd()`. */
  function TrimEnd(s: string): (r: string)
    ensures |r| <= |s| && r == s[..|r|]
    ensures AllWhitespace(s[|r|..])
    ensures r == [] || !IsWhitespace(r[|r| - 1])
  {
    var n := BackOverWhitespace(s, |s|);
    assert s[n..] == s[n..|s|];
    s[..n]
  }

  /** Neither the first nor the last character is whitespace. */
  predicate Trimmed(s: string) {
    s == [] || (!IsWhitespace(s[0]) && !IsWhitespace(s[|s| - 1]))
  }

  /** `s.trim()`: the string without its leading and trailing whitespace.
      `TrimIsInnerSlice` says which slice of `s` is kept. */
  function Trim(s: string): (r: string)
    ensures Trimmed(r)
    ensures r == [] <==> AllWhitespace(s)
    ensures Trimmed(s) ==> r == s
  {
    TrimEnd(TrimStart(s))
  }

  /** `r` is the slice of `s` at `a`, with only whitespace before it and after it. */
  predicate InnerSliceOf(s: string, a: int, r: string) {
    0 <= a && a + |r| <= |s| && r == s[a..a + |r|] && AllWhitespace(s[..a]) && AllWhitespace(s[a + |r|..])
  }

  /** What `trim` keeps is the inner slice of `s` that starts where `TrimStart` starts. */
  lemma TrimIsInnerSlice(s: string)
    ensures InnerSliceOf(s, |s| - |TrimStart(s)|, Trim(s))
  {
    var t := TrimStart(s);
    var r := TrimEnd(t);
    TrimStartIsSuffix(s, t);
    TrimEndIsPrefix(t, r);
    InnerSlice(s, |s| - |t|, t, r);
  }

  lemma TrimStartIsSuffix(s: string, t: string)
    requires t == TrimStart(s)
    ensures |t| <= |s| && t == s[|s| - |t|..] && AllWhitespace(s[..|s| - |t|])
  {
    var r := TrimStart(s);
    assert |r| <= |s| && r == s[|s| - |r|..];
  }

  lemma TrimEndIsPrefix(t: string, r: string)
    requires r == TrimEnd(t)
    ensures |r| <= |t| && r == t[..|r|] && AllWhitespace(t[|r|..])
  {
  }

  /** A prefix `r` of the suffix `t` of `s` at `a`, followed by whitespace only, after
      whitespace only, is an inner slice of `s`. */
  lemma InnerSlice(s: string, a: int, t: string, r: string)
    requires 0 <= a <= |s| && t == s[a..] && AllWhitespace(s[..a])
    requires |r| <= |t| && r == t[..|r|] && AllWhitespace(t[|r|..])
    ensures InnerSliceOf(s, a, r)
  {
    assert t[|r|..] == s[a + |r|..];
  }
}
