/**
 * The Python `str` operations the services are built from, as functions on
 * `string` (a sequence of code points, as a Python `str` is).  Each one is
 * given the contract the services rely on, and the pairs that undo each
 * other (`split`/`join`, `split()`/`' '.join`) are proved to do so.
 */
module Text {

  /** Python's `str.isspace()` for a single code point. */
  predicate IsSpace(c: char)
  {
    || c == ' '
    || ('\t' <= c <= '\r')
    || ('\U{1C}' <= c <= '\U{1F}')
    || c == '\U{85}' || c == '\U{A0}' || c == '\U{1680}'
    || ('\U{2000}' <= c <= '\U{200A}')
    || c == '\U{2028}' || c == '\U{2029}' || c == '\U{202F}' || c == '\U{205F}'
    || c == '\U{3000}'
  }

  /** No code point of `s` is whitespace. */
  predicate NoSpace(s: string)
  {
    forall i :: 0 <= i < |s| ==> !IsSpace(s[i])
  }

  /** Every code point of `s` is whitespace (Python: `not s.strip()`). */
  predicate IsBlank(s: string)
  {
    forall i :: 0 <= i < |s| ==> IsSpace(s[i])
  }

  /** Python's `s.startswith(prefix)`. */
  predicate StartsWith(s: string, prefix: string)
  {
    |prefix| <= |s| && s[..|prefix|] == prefix
  }

  /** Python's `s[:n]` for a non-negative `n`. */
  function Take(s: string, n: nat): (r: string)
    ensures |r| == if |s| <= n then |s| else n
    ensures r == s[..|r|]
  {
    if |s| > n then s[..n] else s
  }

  /** Python's `s.lstrip(chars)`, the characters to drop given as a predicate. */
  function TrimLeft(s: string, drop: char -> bool): (r: string)
    ensures |r| <= |s| && r == s[|s| - |r|..]
    ensures r == [] || !drop(r[0])
    ensures forall i :: 0 <= i < |s| - |r| ==> drop(s[i])
    decreases |s|
  {
    if |s| > 0 && drop(s[0]) then TrimLeft(s[1..], drop) else s
  }

  /** Python's `s.rstrip(chars)`, the characters to drop given as a predicate. */
  function TrimRight(s: string, drop: char -> bool): (r: string)
    ensures |r| <= |s| && r == s[..|r|]
    ensures r == [] || !drop(r[|r| - 1])
    ensures forall i :: |r| <= i < |s| ==> drop(s[i])
    decreases |s|
  {
    if |s| > 0 && drop(s[|s| - 1]) then TrimRight(s[..|s| - 1], drop) else s
  }

  /** Python's `s.strip(chars)`. */
  function Trim(s: string, drop: char -> bool): (r: string)
    ensures |r| <= |s|
    ensures r == [] || (!drop(r[0]) && !drop(r[|r| - 1]))
    ensures r == [] <==> forall i :: 0 <= i < |s| ==> drop(s[i])
    ensures (|s| == 0 || (!drop(s[0]) && !drop(s[|s| - 1]))) ==> r == s
  {
    var l := TrimLeft(s, drop);
    TrimmedAway(s, l, drop);
    TrimRight(l, drop)
  }

  /** When nothing survives both trims, every character of `s` was dropped. */
  lemma {:induction false} TrimmedAway(s: string, l: string, drop: char -> bool)
    requires l == TrimLeft(s, drop)
    ensures TrimRight(l, drop) == [] ==> forall i :: 0 <= i < |s| ==> drop(s[i])
  {
    if TrimRight(l, drop) == [] {
      forall i | 0 <= i < |s| ensures drop(s[i]) {
        if i >= |s| - |l| {
          assert s[i] == l[i - (|s| - |l|)];
        }
      }
    }
  }

  /**
   * Python's `s.strip()`: whitespace removed from both ends, leading
   * whitespace first, then `rstrip()` of what is left.
   */
  function Strip(s: string): (r: string)
    ensures |r| <= |s|
    ensures r == [] || (!IsSpace(r[0]) && !IsSpace(r[|r| - 1]))
    ensures r == [] <==> IsBlank(s)
    ensures (|s| == 0 || (!IsSpace(s[0]) && !IsSpace(s[|s| - 1]))) ==> r == s
    decreases |s|
  {
    if |s| > 0 && IsSpace(s[0]) then
      assert IsBlank(s) <==> IsBlank(s[1..]) by {
        assert forall i :: 0 < i < |s| ==> s[i] == s[1..][i - 1];
      }
      Strip(s[1..])
    else
      var r := TrimRight(s, IsSpace);
      assert r == [] ==> IsBlank(s);
      r
  }

  /** Python's `s.replace(from, to)` for one-character `from` and `to`. */
  function ReplaceChar(s: string, from: char, to: char): (r: string)
    ensures |r| == |s|
    ensures forall i :: 0 <= i < |s| ==> r[i] == if s[i] == from then to else s[i]
  {
    seq(|s|, i requires 0 <= i < |s| => if s[i] == from then to else s[i])
  }

  /** `pat` occurs in `s` starting at index `k`. */
  predicate OccursAt(s: string, pat: string, k: int)
  {
    0 <= k <= |s| - |pat| && s[k..k + |pat|] == pat
  }

  /** `pat` occurs in `s` as a contiguous block. */
  ghost predicate Occurs(s: string, pat: string)
  {
    exists k :: OccursAt(s, pat, k)
  }

  /**
   * Python's `s.replace(pat, '')`: one left-to-right scan that removes
   * every non-overlapping occurrence of `pat`.
   */
  function RemoveAll(s: string, pat: string): (r: string)
    requires |pat| > 0
    ensures |r| <= |s|
    ensures forall c :: c in r ==> c in s
    decreases |s|
  {
    if |s| < |pat| then s
    else if s[..|pat|] == pat then RemoveAll(s[|pat|..], pat)
    else [s[0]] + RemoveAll(s[1..], pat)
  }

  /** Removing a pattern that does not occur changes nothing. */
  lemma {:induction false} RemoveAbsent(s: string, pat: string)
    requires |pat| > 0 && !Occurs(s, pat)
    ensures RemoveAll(s, pat) == s
    decreases |s|
  {
    if |s| >= |pat| {
      assert !OccursAt(s, pat, 0);
      assert s[0..0 + |pat|] == s[..|pat|];
      forall k | 0 <= k <= |s| - 1 - |pat| ensures !OccursAt(s[1..], pat, k) {
        assert !OccursAt(s, pat, k + 1);
        assert s[1..][k..k + |pat|] == s[k + 1..k + 1 + |pat|];
      }
      RemoveAbsent(s[1..], pat);
    }
  }

  /** A leading `pat` that does not occur again is all that is removed. */
  lemma {:induction false} RemoveLeading(s: string, pat: string)
    requires |pat| > 0 && StartsWith(s, pat) && !Occurs(s[|pat|..], pat)
    ensures RemoveAll(s, pat) == s[|pat|..]
  {
    RemoveAbsent(s[|pat|..], pat);
  }

  /**
   * A pattern absent from `mid` stays absent once `mid` is wrapped in
   * characters that are not part of the pattern.
   */
  lemma {:induction false} AbsentWrapped(pre: string, mid: string, post: string, pat: string)
    requires |pat| > 0 && !Occurs(mid, pat)
    requires forall i :: 0 <= i < |pre| ==> pre[i] !in pat
    requires forall i :: 0 <= i < |post| ==> post[i] !in pat
    ensures !Occurs(pre + mid + post, pat)
  {
    var w := pre + mid + post;
    forall k | 0 <= k <= |w| - |pat| ensures !OccursAt(w, pat, k) {
      if k < |pre| {
        assert w[k] == pre[k] && pre[k] != pat[0];
        assert w[k..k + |pat|][0] != pat[0];
      } else if k + |pat| > |pre| + |mid| {
        var e := k + |pat| - 1;
        assert w[e] == post[e - |pre| - |mid|] && post[e - |pre| - |mid|] != pat[|pat| - 1];
        assert w[k..k + |pat|][|pat| - 1] != pat[|pat| - 1];
      } else {
        assert w[k..k + |pat|] == mid[k - |pre|..k - |pre| + |pat|];
        assert !OccursAt(mid, pat, k - |pre|);
      }
    }
  }

  /** A string with no whitespace at either end is its own strip. */
  lemma {:induction false} StripUnchanged(s: string)
    requires s != [] && !IsSpace(s[0]) && !IsSpace(s[|s| - 1])
    ensures Strip(s) == s
  {
  }

  /** One leading space is all `strip` removes from a stripped string. */
  lemma {:induction false} StripLeadingSpace(s: string)
    requires s == [] || (!IsSpace(s[0]) && !IsSpace(s[|s| - 1]))
    ensures Strip(" " + s) == s
  {
    assert (" " + s)[1..] == s;
  }

  /** Python's `s.split(sep)` for a one-character separator. */
  function Split(s: string, sep: char): (parts: seq<string>)
    ensures |parts| >= 1
    ensures forall i :: 0 <= i < |parts| ==> sep !in parts[i]
    decreases |s|
  {
    if s == [] then [""]
    else
      var rest := Split(s[1..], sep);
      if s[0] == sep then [""] + rest
      else [[s[0]] + rest[0]] + rest[1..]
  }

  /** Python's `sep.join(parts)`. */
  function Join(parts: seq<string>, sep: string): (r: string)
    ensures parts == [] ==> r == []
    ensures parts != [] ==> StartsWith(r, parts[0])
    decreases |parts|
  {
    if |parts| == 0 then ""
    else if |parts| == 1 then parts[0]
    else parts[0] + sep + Join(parts[1..], sep)
  }

  /** A join ends with its last part. */
  lemma {:induction false} JoinEndsWith(parts: seq<string>, sep: string)
    requires parts != []
    ensures var r, last := Join(parts, sep), parts[|parts| - 1];
      |last| <= |r| && r[|r| - |last|..] == last
    decreases |parts|
  {
    if |parts| > 1 {
      JoinEndsWith(parts[1..], sep);
    }
  }

  /** A character in neither the parts nor the separator is not in their join. */
  lemma {:induction false} JoinAvoids(parts: seq<string>, sep: string, c: char)
    requires c !in sep
    requires forall i :: 0 <= i < |parts| ==> c !in parts[i]
    ensures c !in Join(parts, sep)
    decreases |parts|
  {
    if |parts| > 1 {
      JoinAvoids(parts[1..], sep, c);
    }
  }

  /** Sum of the lengths of `parts` (Python: `sum(len(p) for p in parts)`). */
  function TotalLength(parts: seq<string>): nat
  {
    if |parts| == 0 then 0 else |parts[0]| + TotalLength(parts[1..])
  }

  /** A joined string is as long as its parts plus one separator between each two. */
  lemma {:induction false} JoinLength(parts: seq<string>, sep: string)
    requires |parts| >= 1
    ensures |Join(parts, sep)| == TotalLength(parts) + (|parts| - 1) * |sep|
    decreases |parts|
  {
    if |parts| > 1 {
      JoinLength(parts[1..], sep);
      assert (|parts| - 1) * |sep| == |sep| + (|parts| - 2) * |sep|;
    }
  }

  /** Prepending to the first part prepends to the joined string. */
  lemma {:induction false} JoinExtendFirst(c: string, parts: seq<string>, sep: string)
    requires |parts| >= 1
    ensures Join([c + parts[0]] + parts[1..], sep) == c + Join(parts, sep)
  {
    var ext := [c + parts[0]] + parts[1..];
    assert ext[1..] == parts[1..];
  }

  /** Joining the pieces of a split gives back the original string. */
  lemma {:induction false} JoinSplit(s: string, sep: char)
    ensures Join(Split(s, sep), [sep]) == s
    decreases |s|
  {
    if s != [] {
      var rest := Split(s[1..], sep);
      JoinSplit(s[1..], sep);
      if s[0] == sep {
        assert ([""] + rest)[1..] == rest;
      } else {
        JoinExtendFirst([s[0]], rest, [sep]);
      }
    }
  }

  /** A string without the separator splits into itself alone. */
  lemma {:induction false} SplitNoSeparator(w: string, sep: char)
    requires sep !in w
    ensures Split(w, sep) == [w]
    decreases |w|
  {
    if w != [] {
      SplitNoSeparator(w[1..], sep);
      assert [w[0]] + w[1..] == w;
    }
  }

  /** A separator-free head before a separator becomes the first piece. */
  lemma {:induction false} SplitAfterHead(w: string, sep: char, t: string)
    requires sep !in w
    ensures Split(w + [sep] + t, sep) == [w] + Split(t, sep)
    decreases |w|
  {
    var s := w + [sep] + t;
    if w == [] {
      assert s[1..] == t;
    } else {
      assert s[1..] == w[1..] + [sep] + t;
      SplitAfterHead(w[1..], sep, t);
      assert [w[0]] + w[1..] == w;
    }
  }

  /** Splitting a join of separator-free parts gives back the parts. */
  lemma {:induction false} SplitJoin(parts: seq<string>, sep: char)
    requires |parts| >= 1
    requires forall i :: 0 <= i < |parts| ==> sep !in parts[i]
    ensures Split(Join(parts, [sep]), sep) == parts
    decreases |parts|
  {
    if |parts| == 1 {
      SplitNoSeparator(parts[0], sep);
    } else {
      SplitAfterHead(parts[0], sep, Join(parts[1..], [sep]));
      SplitJoin(parts[1..], sep);
      assert [parts[0]] + parts[1..] == parts;
    }
  }

  /** The word in progress, as a list of zero or one finished words. */
  function Pending(current: string): seq<string>
  {
    if current == [] then [] else [current]
  }

  /**
   * The words of `s` when the run of non-whitespace `current` was read just
   * before `s` and is still open.
   */
  function WordsAfter(current: string, s: string): seq<string>
    decreases |s|
  {
    if s == [] then Pending(current)
    else if IsSpace(s[0]) then Pending(current) + WordsAfter([], s[1..])
    else WordsAfter(current + [s[0]], s[1..])
  }

  /** Python's `s.split()` without argument: the maximal runs of non-whitespace, in order. */
  function Words(s: string): (words: seq<string>)
    ensures AreWords(words)
  {
    WordsAfterAreWords([], s);
    WordsAfter([], s)
  }

  /** Every word is non-empty and holds no whitespace. */
  predicate AreWords(words: seq<string>)
  {
    forall i :: 0 <= i < |words| ==> words[i] != [] && NoSpace(words[i])
  }

  lemma {:induction false} WordsAfterAreWords(current: string, s: string)
    requires NoSpace(current)
    ensures AreWords(WordsAfter(current, s))
    decreases |s|
  {
    if s != [] {
      if IsSpace(s[0]) {
        WordsAfterAreWords([], s[1..]);
      } else {
        WordsAfterAreWords(current + [s[0]], s[1..]);
      }
    }
  }

  /** What `split()` returns are words. */
  /** Two strings with whitespace at the same places and equal elsewhere. */
  predicate SameShape(s: string, t: string)
  {
    && |s| == |t|
    && forall i :: 0 <= i < |s| ==> (IsSpace(s[i]) <==> IsSpace(t[i])) && (!IsSpace(s[i]) ==> s[i] == t[i])
  }

  lemma {:induction false} WordsAfterSameShape(current: string, s: string, t: string)
    requires SameShape(s, t)
    ensures WordsAfter(current, s) == WordsAfter(current, t)
    decreases |s|
  {
    if s != [] {
      if IsSpace(s[0]) {
        WordsAfterSameShape([], s[1..], t[1..]);
      } else {
        WordsAfterSameShape(current + [s[0]], s[1..], t[1..]);
      }
    }
  }

  /** Replacing one kind of whitespace by a space does not change the words. */
  lemma {:induction false} WordsReplaceSpace(s: string, c: char)
    requires IsSpace(c)
    ensures Words(ReplaceChar(s, c, ' ')) == Words(s)
  {
    WordsAfterSameShape([], ReplaceChar(s, c, ' '), s);
  }

  lemma {:induction false} WordsAfterBlank(current: string, w: string)
    requires IsBlank(w)
    ensures WordsAfter(current, w) == Pending(current)
    decreases |w|
  {
    if w != [] {
      WordsAfterBlank([], w[1..]);
    }
  }

  lemma {:induction false} WordsAfterAppendBlank(current: string, s: string, w: string)
    requires IsBlank(w)
    ensures WordsAfter(current, s + w) == WordsAfter(current, s)
    decreases |s|
  {
    if s == [] {
      assert s + w == w;
      WordsAfterBlank(current, w);
    } else {
      assert (s + w)[0] == s[0] && (s + w)[1..] == s[1..] + w;
      if IsSpace(s[0]) {
        WordsAfterAppendBlank([], s[1..], w);
      } else {
        WordsAfterAppendBlank(current + [s[0]], s[1..], w);
      }
    }
  }

  /** Trailing whitespace does not change the words. */
  lemma {:induction false} WordsAppendBlank(s: string, w: string)
    requires IsBlank(w)
    ensures Words(s + w) == Words(s)
  {
    WordsAfterAppendBlank([], s, w);
  }

  /** Leading whitespace does not change the words. */
  lemma {:induction false} WordsTrimLeft(s: string)
    ensures Words(TrimLeft(s, IsSpace)) == Words(s)
    decreases |s|
  {
    if |s| > 0 && IsSpace(s[0]) {
      assert TrimLeft(s, IsSpace) == TrimLeft(s[1..], IsSpace);
      assert Words(s) == Words(s[1..]) by {
        assert WordsAfter([], s) == Pending([]) + WordsAfter([], s[1..]);
      }
      WordsTrimLeft(s[1..]);
    } else {
      assert TrimLeft(s, IsSpace) == s;
    }
  }

  lemma {:induction false} StripIsTrims(s: string)
    ensures Strip(s) == TrimRight(TrimLeft(s, IsSpace), IsSpace)
    decreases |s|
  {
    if |s| > 0 && IsSpace(s[0]) {
      StripIsTrims(s[1..]);
    }
  }

  /** What `rstrip()` removes is a blank tail. */
  lemma {:induction false} TrimRightSplits(l: string)
    ensures var r := TrimRight(l, IsSpace);
      l == r + l[|r|..] && IsBlank(l[|r|..])
  {
    var r := TrimRight(l, IsSpace);
    assert l == r + l[|r|..];
    forall i | 0 <= i < |l| - |r|
      ensures IsSpace(l[|r|..][i])
    {
      assert l[|r|..][i] == l[|r| + i];
    }
  }

  /** Stripping does not change the words. */
  lemma {:induction false} WordsStrip(s: string)
    ensures Words(Strip(s)) == Words(s)
  {
    var l := TrimLeft(s, IsSpace);
    var r := TrimRight(l, IsSpace);
    StripIsTrims(s);
    TrimRightSplits(l);
    WordsAppendBlank(r, l[|r|..]);
    WordsTrimLeft(s);
  }

  lemma {:induction false} WordsAfterWord(current: string, w: string, x: string)
    requires NoSpace(w)
    ensures WordsAfter(current, w + x) == WordsAfter(current + w, x)
    decreases |w|
  {
    if w == [] {
      assert w + x == x && current + w == current;
    } else {
      assert (w + x)[0] == w[0] && (w + x)[1..] == w[1..] + x;
      WordsAfterWord(current + [w[0]], w[1..], x);
      assert current + [w[0]] + w[1..] == current + w;
    }
  }

  /** Splitting words joined by single spaces gives back the words. */
  lemma {:induction false} WordsOfJoin(words: seq<string>)
    requires AreWords(words)
    ensures Words(Join(words, " ")) == words
    decreases |words|
  {
    if |words| == 1 {
      WordsAfterWord([], words[0], []);
      assert words[0] + [] == words[0] && [] + words[0] == words[0];
    } else if |words| > 1 {
      var w, tail := words[0], Join(words[1..], " ");
      assert Join(words, " ") == w + (" " + tail);
      WordsAfterWord([], w, " " + tail);
      assert [] + w == w;
      assert (" " + tail)[1..] == tail;
      WordsOfJoin(words[1..]);
      assert [w] + words[1..] == words;
    }
  }

  lemma {:induction false} WordsAfterSpaced(current: string, a: string, b: string)
    ensures WordsAfter(current, a + " " + b) == WordsAfter(current, a) + Words(b)
    decreases |a|
  {
    var s := a + " " + b;
    if a == [] {
      assert s[0] == ' ' && s[1..] == b;
    } else {
      assert s[0] == a[0] && s[1..] == a[1..] + " " + b;
      if IsSpace(a[0]) {
        WordsAfterSpaced([], a[1..], b);
      } else {
        WordsAfterSpaced(current + [a[0]], a[1..], b);
      }
    }
  }

  /** The words of two texts joined by a space are the words of each, in order. */
  lemma {:induction false} WordsSpaced(a: string, b: string)
    ensures Words(a + " " + b) == Words(a) + Words(b)
  {
    WordsAfterSpaced([], a, b);
  }

  /** Joining the words of a text never makes it longer. */
  lemma {:induction false} WordsAfterNoLonger(current: string, s: string)
    ensures |Join(WordsAfter(current, s), " ")| <= |current| + |s|
    decreases |s|
  {
    if s != [] {
      if IsSpace(s[0]) {
        var rest := WordsAfter([], s[1..]);
        WordsAfterNoLonger([], s[1..]);
        if current != [] && rest != [] {
          assert Pending(current) + rest == [current] + rest;
          assert ([current] + rest)[1..] == rest;
          assert Join([current] + rest, " ") == current + " " + Join(rest, " ");
        } else if current != [] {
          assert Pending(current) + rest == [current];
        } else {
          assert Pending(current) + rest == rest;
        }
      } else {
        WordsAfterNoLonger(current + [s[0]], s[1..]);
      }
    }
  }

  /** `' '.join(s.split())` is never longer than `s`. */
  lemma {:induction false} NormalizedNoLonger(s: string)
    ensures |Join(Words(s), " ")| <= |s|
  {
    WordsAfterNoLonger([], s);
  }

  /** Two spaces in a row at index `i`. */
  predicate DoubleSpaceAt(s: string, i: int)
    requires 0 <= i < |s| - 1
  {
    s[i] == ' ' && s[i + 1] == ' '
  }

  /** Whitespace is only single `' '` characters strictly between other characters. */
  predicate IsCollapsed(s: string)
  {
    && (forall i :: 0 <= i < |s| ==> IsSpace(s[i]) ==> s[i] == ' ')
    && (forall i :: 0 <= i < |s| - 1 ==> !DoubleSpaceAt(s, i))
    && (s == [] || (s[0] != ' ' && s[|s| - 1] != ' '))
  }

  /** Words joined by single spaces form a collapsed string. */
  lemma {:induction false} JoinWordsCollapsed(words: seq<string>)
    requires AreWords(words)
    ensures IsCollapsed(Join(words, " "))
    decreases |words|
  {
    if |words| > 1 {
      var w, tail := words[0], Join(words[1..], " ");
      JoinWordsCollapsed(words[1..]);
      var s := w + " " + tail;
      assert tail != [] by {
        JoinLength(words[1..], " ");
      }
      forall i | 0 <= i < |s| ensures IsSpace(s[i]) ==> s[i] == ' ' {
        if i > |w| {
          assert s[i] == tail[i - |w| - 1];
        }
      }
      forall i | 0 <= i < |s| - 1 ensures !DoubleSpaceAt(s, i) {
        if i < |w| {
          assert !IsSpace(s[i]);
        } else if i == |w| {
          assert s[i + 1] == tail[0];
        } else {
          assert s[i] == tail[i - |w| - 1] && s[i + 1] == tail[i - |w|];
          assert !DoubleSpaceAt(tail, i - |w| - 1);
        }
      }
    }
  }
}
