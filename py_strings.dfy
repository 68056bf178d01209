/** The parts of Python's `str` that the ingestors rely on: `split` on a one-character
    separator, `sep.join`, `strip`, and the character classes behind `isprintable` and `strip`. */
module PyStrings {

  /** The Unicode classes consulted by `str.isprintable` and by `str.strip()` (whitespace).
      The model is parametric in them: every property below holds whatever the tables say. */
  datatype CharClasses = CharClasses(isPrintable: char -> bool, isSpace: char -> bool)

  /** Number of occurrences of `c` in `s` (`s.count(c)`). */
  function Count(s: string, c: char): (n: nat)
    ensures n <= |s|
    ensures n > 0 <==> c in s
  {
    if s == [] then 0
    else
      assert s == [s[0]] + s[1..];
      (if s[0] == c then 1 else 0) + Count(s[1..], c)
  }

  /** Index of the first `c` in `s`, or `|s|` when there is none. */
  function IndexOf(s: string, c: char): (i: nat)
    ensures i <= |s|
    ensures i < |s| ==> s[i] == c
    ensures forall j :: 0 <= j < i ==> s[j] != c
    ensures i == |s| <==> c !in s
  {
    if s == [] then 0
    else if s[0] == c then 0
    else 1 + IndexOf(s[1..], c)
  }

  /** `s.split(sep)` for a one-character separator: the pieces between separators,
      empty pieces included, so there is always one piece more than separators. */
  function Split(s: string, sep: char): (parts: seq<string>)
    ensures |parts| >= 1
    ensures |parts| <= |s| + 1
  {
    if s == [] then [[]]
    else
      var rest := Split(s[1..], sep);
      if s[0] == sep then [[]] + rest
      else [[s[0]] + rest[0]] + rest[1..]
  }

  /** There is one piece more than separators, and no piece holds the separator. */
  lemma {:induction false} SplitPieces(s: string, sep: char)
    ensures |Split(s, sep)| == Count(s, sep) + 1
    ensures forall k :: 0 <= k < |Split(s, sep)| ==> sep !in Split(s, sep)[k]
  {
    if s != [] {
      SplitPieces(s[1..], sep);
      var rest := Split(s[1..], sep);
      if s[0] != sep {
        assert Split(s, sep)[0] == [s[0]] + rest[0];
        forall k | 1 <= k < |Split(s, sep)| ensures Split(s, sep)[k] == rest[k] { }
      } else {
        forall k | 1 <= k < |Split(s, sep)| ensures Split(s, sep)[k] == rest[k - 1] { }
      }
    }
  }

  /** `sep.join(parts)`. */
  function JoinWith(parts: seq<string>, sep: char): string
  {
    if parts == [] then []
    else if |parts| == 1 then parts[0]
    else parts[0] + [sep] + JoinWith(parts[1..], sep)
  }

  /** Joining the pieces of a split with the separator gives the string back. */
  lemma {:induction false} JoinSplit(s: string, sep: char)
    ensures JoinWith(Split(s, sep), sep) == s
  {
    if s != [] {
      JoinSplit(s[1..], sep);
      JoinSplitCons(s[0], s[1..], sep);
      assert [s[0]] + s[1..] == s;
    }
  }

  /** The inductive step of JoinSplit: a character put in front of `t`. */
  lemma JoinSplitCons(c: char, t: string, sep: char)
    requires JoinWith(Split(t, sep), sep) == t
    ensures JoinWith(Split([c] + t, sep), sep) == [c] + t
  {
    SplitCons(c, t, sep);
    if c == sep {
      JoinPrependEmpty(Split(t, sep), sep);
    } else {
      JoinPrependToFirst(c, Split(t, sep), sep);
    }
  }

  lemma JoinPrependEmpty(rest: seq<string>, sep: char)
    requires |rest| >= 1
    ensures JoinWith([[]] + rest, sep) == [sep] + JoinWith(rest, sep)
  {
    assert ([[]] + rest)[1..] == rest;
  }

  lemma JoinPrependToFirst(c: char, rest: seq<string>, sep: char)
    requires |rest| >= 1
    ensures JoinWith([[c] + rest[0]] + rest[1..], sep) == [c] + JoinWith(rest, sep)
  {
    var parts := [[c] + rest[0]] + rest[1..];
    if |rest| > 1 {
      assert parts[1..] == rest[1..];
      assert JoinWith(rest, sep) == rest[0] + [sep] + JoinWith(rest[1..], sep);
    }
  }

  /** A string without the separator splits into itself alone. */
  lemma {:induction false} SplitNoSeparator(s: string, sep: char)
    requires sep !in s
    ensures Split(s, sep) == [s]
  {
    if s != [] {
      SplitNoSeparator(s[1..], sep);
      assert [s[0]] + s[1..] == s;
    }
  }

  /** A separator between `a` and `b` splits them apart. */
  lemma {:induction false} SplitConcatSep(a: string, b: string, sep: char)
    ensures Split(a + [sep] + b, sep) == Split(a, sep) + Split(b, sep)
  {
    if a == [] {
      assert a + [sep] + b == [sep] + b;
      SplitCons(sep, b, sep);
    } else {
      SplitConcatSep(a[1..], b, sep);
      SplitConcatSepCons(a[0], a[1..], b, sep);
      assert [a[0]] + (a[1..] + [sep] + b) == a + [sep] + b;
      assert [a[0]] + a[1..] == a;
    }
  }

  /** The inductive step of SplitConcatSep: a character put in front of `a`. */
  lemma SplitConcatSepCons(c: char, a: string, b: string, sep: char)
    requires Split(a + [sep] + b, sep) == Split(a, sep) + Split(b, sep)
    ensures Split([c] + (a + [sep] + b), sep) == Split([c] + a, sep) + Split(b, sep)
  {
    SplitCons(c, a + [sep] + b, sep);
    SplitCons(c, a, sep);
    if c != sep {
      PrependToFirstPiece(c, Split(a, sep), Split(b, sep));
    } else {
      PrependEmptyPiece(Split(a, sep), Split(b, sep));
    }
  }

  lemma PrependEmptyPiece(ra: seq<string>, rb: seq<string>)
    ensures [[]] + (ra + rb) == ([[]] + ra) + rb
  {
  }

  lemma PrependToFirstPiece(c: char, ra: seq<string>, rb: seq<string>)
    requires |ra| >= 1
    ensures [[c] + (ra + rb)[0]] + (ra + rb)[1..] == ([[c] + ra[0]] + ra[1..]) + rb
  {
    assert (ra + rb)[0] == ra[0] && (ra + rb)[1..] == ra[1..] + rb;
  }

  /** Splitting a string with a first character: a separator starts a new, empty piece;
      any other character joins the first piece of the rest. */
  lemma SplitCons(c: char, t: string, sep: char)
    ensures Split([c] + t, sep) ==
      if c == sep then [[]] + Split(t, sep) else [[c] + Split(t, sep)[0]] + Split(t, sep)[1..]
  {
    assert ([c] + t)[0] == c && ([c] + t)[1..] == t;
  }

  /** The first piece runs up to the first separator; the pieces after it are the
      split of what follows that separator. */
  lemma {:induction false} SplitHead(s: string, sep: char)
    ensures Split(s, sep)[0] == s[..IndexOf(s, sep)]
    ensures IndexOf(s, sep) < |s| ==> Split(s, sep)[1..] == Split(s[IndexOf(s, sep) + 1..], sep)
  {
    if s != [] && s[0] != sep {
      SplitHead(s[1..], sep);
      var j := IndexOf(s[1..], sep);
      assert [s[0]] + s[1..][..j] == s[..j + 1];
      if j < |s| - 1 {
        assert s[1..][j + 1..] == s[j + 2..];
      }
    }
  }

  /** The first two pieces of a string holding a separator: up to the first separator,
      and from there up to the second separator or the end. */
  lemma SplitFirstTwo(s: string, sep: char)
    requires sep in s
    ensures var i := IndexOf(s, sep);
            var rest := s[i + 1..];
            |Split(s, sep)| >= 2 &&
            Split(s, sep)[0] == s[..i] && Split(s, sep)[1] == rest[..IndexOf(rest, sep)]
  {
    var i := IndexOf(s, sep);
    SplitHead(s, sep);
    SplitHead(s[i + 1..], sep);
    assert Split(s, sep)[1] == Split(s, sep)[1..][0];
  }

  /** The last piece is the suffix after the last separator, or the whole string. */
  lemma {:induction false} SplitLast(s: string, sep: char)
    ensures var parts := Split(s, sep);
            var last := parts[|parts| - 1];
            |last| <= |s| && last == s[|s| - |last|..] && (|last| < |s| ==> s[|s| - |last| - 1] == sep)
    decreases |s|, 1
  {
    if s != [] {
      SplitLast(s[1..], sep);
      var rest := Split(s[1..], sep);
      var lastRest := rest[|rest| - 1];
      SplitLastStep(s, sep);
      assert s[1..][|s| - 1 - |lastRest|..] == s[|s| - |lastRest|..];
      if |lastRest| < |s| - 1 {
        assert s[1..][|s| - 1 - |lastRest| - 1] == s[|s| - |lastRest| - 1];
      }
    }
  }

  /** The last piece of a split is the last piece of the split of the tail, unless the
      string starts with a non-separator and its tail holds none: then it is the whole string. */
  lemma SplitLastStep(s: string, sep: char)
    requires s != []
    ensures var parts, rest := Split(s, sep), Split(s[1..], sep);
      if s[0] != sep && sep !in s[1..] then parts[|parts| - 1] == s
      else parts[|parts| - 1] == rest[|rest| - 1] && (s[0] != sep ==> |rest[|rest| - 1]| < |s| - 1)
    decreases |s|, 0
  {
    var parts, rest := Split(s, sep), Split(s[1..], sep);
    SplitPieces(s[1..], sep);
    if s[0] != sep && sep !in s[1..] {
      SplitNoSeparator(s[1..], sep);
      assert [s[0]] + s[1..] == s;
    } else if s[0] != sep {
      var lastRest := rest[|rest| - 1];
      assert |rest| > 1;
      assert parts[|parts| - 1] == lastRest;
      SplitLast(s[1..], sep);
      assert sep !in lastRest;
      assert lastRest != s[1..];
    }
  }

  /** `s.lstrip()`: drop leading whitespace. */
  function LStrip(classes: CharClasses, s: string): (r: string)
    ensures |r| <= |s| && r == s[|s| - |r|..]
    ensures forall i :: 0 <= i < |s| - |r| ==> classes.isSpace(s[i])
    ensures r == [] || !classes.isSpace(r[0])
  {
    if s != [] && classes.isSpace(s[0]) then
      var r := LStrip(classes, s[1..]);
      assert forall i :: 1 <= i < |s| - |r| ==> s[i] == s[1..][i - 1];
      r
    else s
  }

  /** `s.rstrip()`: drop trailing whitespace. */
  function RStrip(classes: CharClasses, s: string): (r: string)
    ensures |r| <= |s| && r == s[..|r|]
    ensures forall i :: |r| <= i < |s| ==> classes.isSpace(s[i])
    ensures r == [] || !classes.isSpace(r[|r| - 1])
  {
    if s != [] && classes.isSpace(s[|s| - 1]) then
      var r := RStrip(classes, s[..|s| - 1]);
      assert forall i :: |r| <= i < |s| - 1 ==> s[i] == s[..|s| - 1][i];
      r
    else s
  }

  /** `s.strip()`: what is left of `s` once whitespace is dropped at both ends. */
  function Strip(classes: CharClasses, s: string): (r: string)
    ensures r == [] || (!classes.isSpace(r[0]) && !classes.isSpace(r[|r| - 1]))
    ensures forall x :: x in r ==> x in s
  {
    var l := LStrip(classes, s);
    var r := RStrip(classes, l);
    assert s[|s| - |l|..] == l && l[..|r|] == r;
    r
  }

  /** Strip drops whitespace only, and only at the ends: every non-whitespace character
      survives, the result is empty exactly when `s` is all whitespace, and a string
      without whitespace at its ends is left as it is. */
  lemma StripFacts(classes: CharClasses, s: string)
    ensures multiset(Strip(classes, s)) <= multiset(s)
    ensures forall x :: x in s && !classes.isSpace(x) ==> x in Strip(classes, s)
    ensures Strip(classes, s) == [] <==> forall x :: x in s ==> classes.isSpace(x)
    ensures s == [] || (!classes.isSpace(s[0]) && !classes.isSpace(s[|s| - 1])) ==> Strip(classes, s) == s
  {
    StripDropsOnlySpace(classes, s);
    StripKeepsNonSpace(classes, s);
  }

  lemma StripDropsOnlySpace(classes: CharClasses, s: string)
    ensures var r := RStrip(classes, LStrip(classes, s));
      && multiset(r) <= multiset(s)
      && (r == [] ==> forall k :: 0 <= k < |s| ==> classes.isSpace(s[k]))
  {
    var l := LStrip(classes, s);
    var r := RStrip(classes, l);
    SliceMultiset(s, |s| - |l|);
    SliceMultiset(l, |r|);
  }

  /** A prefix and a suffix of a sequence hold no element more often than the sequence. */
  lemma SliceMultiset<T>(s: seq<T>, i: nat)
    requires i <= |s|
    ensures multiset(s[..i]) <= multiset(s) && multiset(s[i..]) <= multiset(s)
  {
    assert s == s[..i] + s[i..];
  }

  lemma StripKeepsNonSpace(classes: CharClasses, s: string)
    ensures forall x :: x in s && !classes.isSpace(x) ==> x in RStrip(classes, LStrip(classes, s))
  {
    var l := LStrip(classes, s);
    var r := RStrip(classes, l);
    var i := |s| - |l|;
    forall x | x in s && !classes.isSpace(x) ensures x in r {
      var k :| 0 <= k < |s| && s[k] == x;
      assert k >= i && s[k] == l[k - i];
      assert k - i < |r| && l[k - i] == r[k - i];
    }
  }
}
