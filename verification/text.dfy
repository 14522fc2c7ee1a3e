/**
  The Python `str` operations the application relies on, over `seq<char>`:
  `strip()`, `rstrip(chars)`, `startswith`, `replace(old, new, 1)`,
  `split(sep)` with a one-character separator, and `sep.join(parts)`.
 */
module Text {
  import opened Optional

  /** `c.isspace()`: the characters Python's argument-less `strip()` removes. */
  predicate IsSpace(c: char)
  {
    c == ' ' || ('\U{9}' <= c <= '\U{D}') || ('\U{1C}' <= c <= '\U{1F}')
    || c == '\U{85}' || c == '\U{A0}' || c == '\U{1680}'
    || ('\U{2000}' <= c <= '\U{200A}')
    || c == '\U{2028}' || c == '\U{2029}' || c == '\U{202F}' || c == '\U{205F}' || c == '\U{3000}'
  }

  /** Every character of `s` satisfies `p`. */
  predicate All(s: string, p: char -> bool)
  {
    forall i :: 0 <= i < |s| ==> p(s[i])
  }

  /** `s` neither starts nor ends with whitespace: `s.strip() == s`. */
  predicate IsStripped(s: string)
  {
    s == [] || (!IsSpace(s[0]) && !IsSpace(s[|s| - 1]))
  }

  /** The number of whitespace characters `s` starts with. */
  function LeadingSpaces(s: string): (n: nat)
    ensures n <= |s|
    ensures forall k :: 0 <= k < n ==> IsSpace(s[k])
    ensures n == |s| || !IsSpace(s[n])
  {
    if |s| > 0 && IsSpace(s[0]) then 1 + LeadingSpaces(s[1..]) else 0
  }

  /** The length of the longest prefix of `s` whose last character `drop`
      does not hold of. */
  function KeptBy(s: string, drop: char -> bool): (n: nat)
    ensures n <= |s|
    ensures forall k :: n <= k < |s| ==> drop(s[k])
    ensures n == 0 || !drop(s[n - 1])
  {
    if |s| > 0 && drop(s[|s| - 1]) then KeptBy(s[..|s| - 1], drop) else |s|
  }

  /** `s.lstrip()`. */
  function LStrip(s: string): string
  {
    s[LeadingSpaces(s)..]
  }

  /** `s.rstrip(...)` for the set of characters `drop` holds of. */
  function RStripBy(s: string, drop: char -> bool): string
  {
    s[..KeptBy(s, drop)]
  }

  /** The test for one particular character. */
  function Is(ch: char): char -> bool
  {
    c => c == ch
  }

  /** `s.rstrip(ch)` for a single character. */
  function RStripChar(s: string, ch: char): string
  {
    RStripBy(s, Is(ch))
  }

  /** `s.strip()`: `s` with leading and trailing whitespace removed. */
  function Strip(s: string): (r: string)
    ensures IsStripped(r)
    ensures |r| <= |s|
  {
    RStripBy(LStrip(s), IsSpace)
  }

  /** `s.startswith(p)`. */
  predicate StartsWith(s: string, p: string)
  {
    |p| <= |s| && s[..|p|] == p
  }

  /** `pat` occurs in `s` at index `i`. */
  predicate OccursAt(s: string, pat: string, i: int)
  {
    0 <= i && i + |pat| <= |s| && s[i..i + |pat|] == pat
  }

  /** The least index at or after `from` where `pat` occurs in `s`. */
  function FindFrom(s: string, pat: string, from: nat): (r: Option<nat>)
    ensures r.Some? ==> from <= r.value && OccursAt(s, pat, r.value)
    ensures forall j :: from <= j && (r.None? || j < r.value) ==> !OccursAt(s, pat, j)
    decreases |s| - from
  {
    if from + |pat| > |s| then None
    else if s[from..from + |pat|] == pat then Some(from)
    else FindFrom(s, pat, from + 1)
  }

  /** `s.find(pat)`, with None for Python's -1. */
  function Find(s: string, pat: string): Option<nat>
  {
    FindFrom(s, pat, 0)
  }

  /** `s.replace(pat, repl, 1)`: the first occurrence of `pat` replaced. */
  function ReplaceFirst(s: string, pat: string, repl: string): (r: string)
    ensures Find(s, pat).None? ==> r == s
  {
    match Find(s, pat)
    case None => s
    case Some(i) => s[..i] + repl + s[i + |pat|..]
  }

  /** Removing the first occurrence of a prefix removes exactly that prefix. */
  lemma ReplacePrefix(s: string, p: string)
    requires StartsWith(s, p)
    ensures ReplaceFirst(s, p, "") == s[|p|..]
  {
    assert OccursAt(s, p, 0);
    assert Find(s, p) == Some(0);
  }

  /** `s.split(sep)` for a one-character separator: the pieces between
      separators, the first and last included even when empty. */
  function Split(s: string, sep: char): (r: seq<string>)
    ensures |r| >= 1
  {
    if |s| == 0 then [""]
    else if s[0] == sep then [""] + Split(s[1..], sep)
    else
      var rest := Split(s[1..], sep);
      [[s[0]] + rest[0]] + rest[1..]
  }

  /** `sep.join(parts)`. */
  function Join(parts: seq<string>, sep: string): string
  {
    if |parts| == 0 then ""
    else if |parts| == 1 then parts[0]
    else parts[0] + sep + Join(parts[1..], sep)
  }

  // ---- lemmas ----

  /** Putting text in front of the first piece puts it in front of the join. */
  lemma JoinPrepend(x: string, parts: seq<string>, sep: string)
    requires |parts| >= 1
    ensures Join([x + parts[0]] + parts[1..], sep) == x + Join(parts, sep)
  {
    var q := [x + parts[0]] + parts[1..];
    if |parts| > 1 {
      assert q[1..] == parts[1..];
    }
  }

  /** Joining the pieces of a split gives the string back. */
  lemma {:induction false} JoinSplit(s: string, sep: char)
    ensures Join(Split(s, sep), [sep]) == s
  {
    if |s| > 0 {
      var rest := Split(s[1..], sep);
      JoinSplit(s[1..], sep);
      if s[0] == sep {
        assert ([""] + rest)[1..] == rest;
        assert s == [sep] + s[1..];
      } else {
        JoinPrepend([s[0]], rest, [sep]);
        assert s == [s[0]] + s[1..];
      }
    }
  }

  /** No piece of a split holds the separator. */
  lemma {:induction false} SplitPieces(s: string, sep: char)
    ensures forall k :: 0 <= k < |Split(s, sep)| ==> sep !in Split(s, sep)[k]
  {
    if |s| > 0 {
      var rest := Split(s[1..], sep);
      SplitPieces(s[1..], sep);
      if s[0] != sep {
        var r := Split(s, sep);
        assert r == [[s[0]] + rest[0]] + rest[1..];
        forall k | 0 <= k < |r|
          ensures sep !in r[k]
        {
          if k == 0 {
            assert sep !in rest[0];
          } else {
            assert r[k] == rest[k];
          }
        }
      }
    }
  }

  /** Splitting at a separator splits the two sides independently. */
  lemma {:induction false} SplitAppend(a: string, b: string, sep: char)
    ensures Split(a + [sep] + b, sep) == Split(a, sep) + Split(b, sep)
  {
    if |a| == 0 {
      SplitCons(sep, b, sep);
      assert a + [sep] + b == [sep] + b;
    } else {
      var c, a' := a[0], a[1..];
      var rest := a' + [sep] + b;
      FirstOut(a, b, sep);
      SplitAppend(a', b, sep);
      SplitCons(c, rest, sep);
      SplitCons(c, a', sep);
      var q, t := Split(a', sep), Split(b, sep);
      if c == sep {
        assert [""] + (q + t) == ([""] + q) + t;
      } else {
        HeadExtended([c], q, t);
      }
    }
  }

  /** Splits off the first character of a non-empty piece, before and after a separator. */
  lemma FirstOut(a: string, b: string, sep: char)
    requires |a| > 0
    ensures a == [a[0]] + a[1..]
    ensures a + [sep] + b == [a[0]] + (a[1..] + [sep] + b)
  {
  }

  /** Splitting a string with a known first character. */
  lemma SplitCons(c: char, s: string, sep: char)
    ensures Split([c] + s, sep)
            == if c == sep then [""] + Split(s, sep)
               else [[c] + Split(s, sep)[0]] + Split(s, sep)[1..]
  {
    assert ([c] + s)[0] == c && ([c] + s)[1..] == s;
  }

  /** Extending the first piece commutes with appending more pieces. */
  lemma HeadExtended(x: string, q: seq<string>, t: seq<string>)
    requires |q| >= 1
    ensures [x + (q + t)[0]] + (q + t)[1..] == ([x + q[0]] + q[1..]) + t
  {
    assert (q + t)[0] == q[0];
    assert (q + t)[1..] == q[1..] + t;
  }

  /** A string without the separator splits into itself alone. */
  lemma {:induction false} SplitNoSep(s: string, sep: char)
    requires sep !in s
    ensures Split(s, sep) == [s]
  {
    if |s| > 0 {
      assert sep !in s[1..] by {
        assert forall k :: 0 <= k < |s| - 1 ==> s[1..][k] == s[k + 1];
      }
      SplitNoSep(s[1..], sep);
      assert s == [s[0]] + s[1..];
    }
  }

  /** Splitting a join of separator-free pieces gives the pieces back. */
  lemma {:induction false} SplitJoin(parts: seq<string>, sep: char)
    requires |parts| >= 1
    requires forall k :: 0 <= k < |parts| ==> sep !in parts[k]
    ensures Split(Join(parts, [sep]), sep) == parts
    decreases |parts|
  {
    if |parts| == 1 {
      SplitNoSep(parts[0], sep);
    } else {
      SplitJoin(parts[1..], sep);
      assert Join(parts, [sep]) == parts[0] + [sep] + Join(parts[1..], [sep]);
      SplitAppend(parts[0], Join(parts[1..], [sep]), sep);
      SplitNoSep(parts[0], sep);
      assert parts == [parts[0]] + parts[1..];
    }
  }

  /** Appending one piece to a non-empty join appends the separator and the piece. */
  lemma {:induction false} JoinSnoc(parts: seq<string>, x: string, sep: string)
    requires |parts| >= 1
    ensures Join(parts + [x], sep) == Join(parts, sep) + sep + x
    decreases |parts|
  {
    if |parts| > 1 {
      assert (parts + [x])[1..] == parts[1..] + [x];
      JoinSnoc(parts[1..], x, sep);
    }
  }

  /** A join of at least two pieces ends with the last two joined by the separator. */
  lemma JoinLastTwo(parts: seq<string>, sep: string)
    requires |parts| >= 2
    ensures var k := |parts|;
            Join(parts, sep) == (if k == 2 then [] else Join(parts[..k - 2], sep) + sep) + (parts[k - 2] + sep + parts[k - 1])
  {
    var k := |parts|;
    if k == 2 {
      assert parts[1..] == [parts[1]];
    } else {
      var init := parts[..k - 2];
      assert parts == init + [parts[k - 2]] + [parts[k - 1]];
      JoinLastTwoLong(init, parts[k - 2], parts[k - 1], sep);
    }
  }

  /** Joining at least three pieces: the join of all but the last two, then the last two. */
  lemma JoinLastTwoLong(init: seq<string>, o: string, r: string, sep: string)
    requires |init| >= 1
    ensures Join(init + [o] + [r], sep) == (Join(init, sep) + sep) + (o + sep + r)
  {
    JoinSnoc(init, o, sep);
    JoinSnoc(init + [o], r, sep);
    Regroup(Join(init, sep), sep, o, r);
  }

  /** Regroups a join of three texts around its first separator. */
  lemma Regroup(j: string, sep: string, o: string, r: string)
    ensures j + sep + o + sep + r == (j + sep) + (o + sep + r)
  {
  }

  /** With a non-empty separator, a join is empty exactly when there is
      nothing to join or the one piece is empty. */
  lemma JoinEmpty(parts: seq<string>, sep: string)
    requires sep != ""
    ensures Join(parts, sep) == "" <==> |parts| == 0 || (|parts| == 1 && parts[0] == "")
  {
    if |parts| > 1 {
      assert |Join(parts, sep)| >= |sep|;
    }
  }

  /** Left-stripping whitespace followed by a text that does not start with
      whitespace returns that text. */
  lemma LStripPadded(pre: string, y: string)
    requires All(pre, IsSpace) && (y == [] || !IsSpace(y[0]))
    ensures LStrip(pre + y) == y
  {
    var s := pre + y;
    var n := LeadingSpaces(s);
    assert s[|pre|..] == y;
  }

  /** Right-stripping a text followed by characters to drop returns that text,
      when the text does not itself end with one. */
  lemma RStripPadded(x: string, tail: string, drop: char -> bool)
    requires All(tail, drop) && (x == [] || !drop(x[|x| - 1]))
    ensures RStripBy(x + tail, drop) == x
  {
    var s := x + tail;
    var n := KeptBy(s, drop);
    assert s[..|x|] == x;
  }

  /** Stripping a stripped text padded with whitespace returns that text. */
  lemma StripPadded(pre: string, x: string, post: string)
    requires All(pre, IsSpace) && All(post, IsSpace) && IsStripped(x)
    ensures Strip(pre + x + post) == x
  {
    assert pre + x + post == pre + (x + post);
    if x == [] {
      LStripPadded(pre + post, []);
      assert pre + post + [] == pre + post;
    } else {
      LStripPadded(pre, x + post);
      RStripPadded(x, post, IsSpace);
    }
  }

  /** Every string is its strip padded with whitespace on both sides; with
      StripPadded this pins the strip down completely. */
  lemma StripInfix(s: string)
    ensures var i := LeadingSpaces(s); var r := Strip(s);
            i + |r| <= |s| && s[i..i + |r|] == r
            && All(s[..i], IsSpace) && All(s[i + |r|..], IsSpace)
  {
    StripSlice(s);
    LeadingAllSpace(s);
    StripTail(s);
  }

  /** The strip sits right after the leading whitespace. */
  lemma StripSlice(s: string)
    ensures var i := LeadingSpaces(s); i + |Strip(s)| <= |s| && s[i..i + |Strip(s)|] == Strip(s)
  {
    var i := LeadingSpaces(s);
    StripUnfolded(s);
    PrefixSlice(s, i, KeptBy(s[i..], IsSpace), Strip(s));
  }

  /** `Strip` as slices: drop the leading whitespace, then keep what precedes the trailing whitespace. */
  lemma StripUnfolded(s: string)
    ensures Strip(s) == s[LeadingSpaces(s)..][..KeptBy(s[LeadingSpaces(s)..], IsSpace)]
  {
  }

  /** A prefix of a suffix is a slice of the original text. */
  lemma PrefixSlice(s: string, i: nat, n: nat, r: string)
    requires i + n <= |s| && r == s[i..][..n]
    ensures i + |r| <= |s| && s[i..i + |r|] == r
  {
  }

  /** Everything after the strip is whitespace. */
  lemma StripTail(s: string)
    ensures LeadingSpaces(s) + |Strip(s)| <= |s| && All(s[LeadingSpaces(s) + |Strip(s)|..], IsSpace)
  {
    var i := LeadingSpaces(s);
    var l := s[i..];
    var n := KeptBy(l, IsSpace);
    assert |Strip(s)| == n;
    TrailingAllSpace(l);
    SliceOfSlice(s, i, n);
  }

  /** A prefix and a suffix of a suffix are slices of the original text. */
  lemma SliceOfSlice(s: string, i: nat, n: nat)
    requires i + n <= |s|
    ensures s[i..][..n] == s[i..i + n]
    ensures s[i..][n..] == s[i + n..]
  {
  }

  /** The leading whitespace counted is all whitespace. */
  lemma LeadingAllSpace(s: string)
    ensures All(s[..LeadingSpaces(s)], IsSpace)
  {
    var i := LeadingSpaces(s);
    forall k | 0 <= k < i
      ensures IsSpace(s[..i][k])
    {
      assert s[..i][k] == s[k];
    }
  }

  /** What right-stripping whitespace removes is all whitespace. */
  lemma TrailingAllSpace(l: string)
    ensures All(l[KeptBy(l, IsSpace)..], IsSpace)
  {
    var n := KeptBy(l, IsSpace);
    var t := l[n..];
    forall k | 0 <= k < |t|
      ensures IsSpace(t[k])
    {
      assert t[k] == l[n + k];
    }
  }

  /** Whitespace added around a text does not change what `strip()` gives. */
  lemma StripAround(pre: string, t: string, post: string)
    requires All(pre, IsSpace) && All(post, IsSpace)
    ensures Strip(pre + t + post) == Strip(t)
  {
    var i := LeadingSpaces(t);
    var m := Strip(t);
    StripInfix(t);
    var a, b := t[..i], t[i + |m|..];
    Pieces(t, i, |m|);
    AllConcat(pre, a);
    AllConcat(b, post);
    Reassoc(pre, a, m, b, post);
    StripPadded(pre + a, m, b + post);
  }

  /** A text is the concatenation of its three slices around `[i, i + n)`. */
  lemma Pieces(t: string, i: nat, n: nat)
    requires i + n <= |t|
    ensures t == t[..i] + t[i..i + n] + t[i + n..]
  {
  }

  /** Reassociates five concatenated texts around the middle one. */
  lemma Reassoc(pre: string, a: string, m: string, b: string, post: string)
    ensures pre + (a + m + b) + post == (pre + a) + m + (b + post)
  {
  }

  /** A concatenation of whitespace is whitespace. */
  lemma AllConcat(x: string, y: string)
    requires All(x, IsSpace) && All(y, IsSpace)
    ensures All(x + y, IsSpace)
  {
    forall k | 0 <= k < |x + y|
      ensures IsSpace((x + y)[k])
    {
      if k < |x| {
        assert (x + y)[k] == x[k];
      } else {
        assert (x + y)[k] == y[k - |x|];
      }
    }
  }
}
