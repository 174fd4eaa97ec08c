/**
 * The few pieces of Python's string library the model needs: whitespace as
 * `str.isspace()` and the regular expression class `\s` define it, `strip()`
 * and `split(' ')`.
 */
module Text {
  /**
   * Python's whitespace: the characters for which `str.isspace()` holds,
   * which are also exactly the characters `\s` matches in a `str` pattern.
   */
  predicate IsSpace(c: char) {
    c == ' ' || c == '\n' || c == '\t' || c == '\r' || c == '\U{000B}' || c == '\U{000C}'
    || c == '\U{001C}' || c == '\U{001D}' || c == '\U{001E}' || c == '\U{001F}'
    || c == '\U{0085}' || c == '\U{00A0}' || c == '\U{1680}'
    || c == '\U{2000}' || c == '\U{2001}' || c == '\U{2002}' || c == '\U{2003}' || c == '\U{2004}'
    || c == '\U{2005}' || c == '\U{2006}' || c == '\U{2007}' || c == '\U{2008}' || c == '\U{2009}'
    || c == '\U{200A}' || c == '\U{2028}' || c == '\U{2029}' || c == '\U{202F}' || c == '\U{205F}'
    || c == '\U{3000}'
  }

  predicate AllSpace(s: string) {
    forall i :: 0 <= i < |s| ==> IsSpace(s[i])
  }

  /** Python truthiness of a string: only the empty string is false. */
  predicate Truthy(s: string) {
    s != []
  }

  /** Length of the run of whitespace in `s` that starts at position `i`. */
  function SpacesFrom(s: string, i: nat): (n: nat)
    requires i <= |s|
    ensures i + n <= |s|
    decreases |s| - i
  {
    if i < |s| && IsSpace(s[i]) then 1 + SpacesFrom(s, i + 1) else 0
  }

  /** Length of the run of whitespace in `s` that ends just before position `j`. */
  function SpacesBefore(s: string, j: nat): (n: nat)
    requires j <= |s|
    ensures n <= j
  {
    if j > 0 && IsSpace(s[j - 1]) then 1 + SpacesBefore(s, j - 1) else 0
  }

  /** The run at `i` is whitespace and is followed by a character that is not, or by the end. */
  lemma {:induction false} SpacesFromRun(s: string, i: nat)
    requires i <= |s|
    ensures var n := SpacesFrom(s, i);
            (forall k :: i <= k < i + n ==> IsSpace(s[k])) && (i + n < |s| ==> !IsSpace(s[i + n]))
    decreases |s| - i
  {
    if i < |s| && IsSpace(s[i]) {
      SpacesFromRun(s, i + 1);
    }
  }

  /** The run before `j` is whitespace and is preceded by a character that is not, or by the start. */
  lemma {:induction false} SpacesBeforeRun(s: string, j: nat)
    requires j <= |s|
    ensures var n := SpacesBefore(s, j);
            (forall k :: j - n <= k < j ==> IsSpace(s[k])) && (n < j ==> !IsSpace(s[j - 1 - n]))
  {
    if j > 0 && IsSpace(s[j - 1]) {
      SpacesBeforeRun(s, j - 1);
    }
  }

  /** A count with the three properties of `SpacesFrom` is `SpacesFrom`. */
  lemma {:induction false} SpacesFromUnique(s: string, i: nat, n: nat)
    requires i + n <= |s| && (forall k :: i <= k < i + n ==> IsSpace(s[k]))
    requires i + n < |s| ==> !IsSpace(s[i + n])
    ensures SpacesFrom(s, i) == n
    decreases n
  {
    if n > 0 {
      SpacesFromUnique(s, i + 1, n - 1);
    }
  }

  /** A count with the three properties of `SpacesBefore` is `SpacesBefore`. */
  lemma {:induction false} SpacesBeforeUnique(s: string, j: nat, n: nat)
    requires n <= j <= |s| && (forall k :: j - n <= k < j ==> IsSpace(s[k]))
    requires n < j ==> !IsSpace(s[j - 1 - n])
    ensures SpacesBefore(s, j) == n
    decreases n
  {
    if n > 0 {
      SpacesBeforeUnique(s, j - 1, n - 1);
    }
  }

  /** A string is all whitespace exactly when its leading run, or its trailing run, covers it. */
  lemma SpaceRunsFull(s: string)
    ensures AllSpace(s) <==> SpacesFrom(s, 0) == |s|
    ensures AllSpace(s) <==> SpacesBefore(s, |s|) == |s|
  {
    SpacesFromRun(s, 0);
    SpacesBeforeRun(s, |s|);
  }

  /** The run starting at `a + k` in `s` is the run starting at `k` in `s[a..b]`, if `s[b]` is not whitespace. */
  lemma SpacesFromSlice(s: string, a: nat, b: nat, k: nat)
    requires a + k <= b <= |s| && (b < |s| ==> !IsSpace(s[b]))
    ensures SpacesFrom(s[a..b], k) == SpacesFrom(s, a + k)
  {
    var t := s[a..b];
    var n := SpacesFrom(t, k);
    SpacesFromRun(t, k);
    assert forall i :: 0 <= i < |t| ==> t[i] == s[a + i];
    SpacesFromUnique(s, a + k, n);
  }

  /** The run ending at `a + k` in `s` is the run ending at `k` in `s[a..b]`, if `s[a - 1]` is not whitespace. */
  lemma SpacesBeforeSlice(s: string, a: nat, b: nat, k: nat)
    requires a + k <= b <= |s| && (a > 0 ==> !IsSpace(s[a - 1]))
    ensures SpacesBefore(s[a..b], k) == SpacesBefore(s, a + k)
  {
    var t := s[a..b];
    var n := SpacesBefore(t, k);
    SpacesBeforeRun(t, k);
    assert forall i :: 0 <= i < |t| ==> t[i] == s[a + i];
    SpacesBeforeUnique(s, a + k, n);
  }

  /** `s[d..]` is `b`, stated position by position. */
  predicate SameFrom(s: string, d: nat, b: string) {
    d + |b| == |s| && forall j {:trigger b[j]} :: 0 <= j < |b| ==> s[d + j] == b[j]
  }

  lemma SameFromAppend(a: string, b: string)
    ensures SameFrom(a + b, |a|, b)
  {
  }

  lemma SameFromSlice(s: string, d: nat, b: string, x: nat, y: nat)
    requires SameFrom(s, d, b) && x <= y <= |b|
    ensures s[d + x..d + y] == b[x..y]
  {
  }

  /** Runs that start in the part `b` of `s` do not see what comes before it. */
  lemma SpacesFromShift(s: string, d: nat, b: string, k: nat)
    requires SameFrom(s, d, b) && k <= |b|
    ensures SpacesFrom(s, d + k) == SpacesFrom(b, k)
  {
    var n := SpacesFrom(b, k);
    SpacesFromRun(b, k);
    forall m | d + k <= m < d + k + n ensures IsSpace(s[m]) {
      assert s[d + (m - d)] == b[m - d];
    }
    if k + n < |b| {
      assert s[d + (k + n)] == b[k + n];
    }
    SpacesFromUnique(s, d + k, n);
  }

  /** `s.strip()`: `s` without its leading and trailing whitespace. */
  function Strip(s: string): string
    decreases |s|
  {
    if s != [] && IsSpace(s[0]) then Strip(s[1..])
    else if s != [] && IsSpace(s[|s| - 1]) then Strip(s[..|s| - 1])
    else s
  }

  lemma ConsSlice<T>(s: seq<T>, i: nat, j: nat)
    requires i < j <= |s|
    ensures s[i..j] == [s[i]] + s[i + 1..j]
  {
  }

  lemma SplitThree<T>(s: seq<T>, a: nat, b: nat)
    requires a + b <= |s|
    ensures s == s[..a] + s[a..|s| - b] + s[|s| - b..]
  {
  }

  /** What `strip()` keeps of `s`: the part between its leading and its trailing run of whitespace. */
  function Inner(s: string): string {
    var a := SpacesFrom(s, 0);
    if a == |s| then []
    else
      SpacesFromRun(s, 0);
      SpacesBeforeRun(s, |s|);
      s[a..|s| - SpacesBefore(s, |s|)]
  }

  /** `strip()` keeps the part between the leading and the trailing run of whitespace. */
  lemma {:induction false} StripSlice(s: string)
    ensures Strip(s) == Inner(s)
    decreases |s|
  {
    if s != [] && IsSpace(s[0]) {
      StripSlice(s[1..]);
      InnerHead(s);
    } else if s != [] && IsSpace(s[|s| - 1]) {
      StripSlice(s[..|s| - 1]);
      InnerLast(s);
    } else if s != [] {
      assert s[0..|s|] == s;
    }
  }

  lemma InnerHead(s: string)
    requires s != [] && IsSpace(s[0])
    ensures Inner(s) == Inner(s[1..])
  {
    var a := SpacesFrom(s, 0);
    var t := s[1..];
    SpacesFromRun(s, 0);
    SpacesBeforeRun(s, |s|);
    SpacesFromSlice(s, 1, |s|, 0);
    assert t == s[1..|s|];
    assert a == 1 + SpacesFrom(t, 0);
    if a < |s| {
      var b := SpacesBefore(s, |s|);
      InnerIs(s, a, b);
      SpacesBeforeDrop(s, 1);
      DropSlice(s, 1, a - 1, |t| - b);
      InnerIs(t, a - 1, b);
    }
  }

  lemma InnerIs(s: string, a: nat, b: nat)
    requires a == SpacesFrom(s, 0) < |s| && b == SpacesBefore(s, |s|)
    ensures a + b < |s| && Inner(s) == s[a..|s| - b]
  {
    RunsMeet(s, a, b);
  }

  /** The leading and the trailing run of whitespace do not overlap when the text is not all whitespace. */
  lemma RunsMeet(s: string, a: nat, b: nat)
    requires a == SpacesFrom(s, 0) < |s| && b == SpacesBefore(s, |s|)
    ensures a + b < |s|
  {
    SpacesFromRun(s, 0);
    SpacesBeforeRun(s, |s|);
    assert !IsSpace(s[a]);
  }

  lemma DropSlice<T>(s: seq<T>, d: nat, i: nat, j: nat)
    requires d <= |s| && i <= j <= |s| - d
    ensures s[d..][i..j] == s[d + i..d + j]
  {
  }

  lemma InnerLast(s: string)
    requires s != [] && !IsSpace(s[0]) && IsSpace(s[|s| - 1])
    ensures Inner(s) == Inner(s[..|s| - 1])
  {
    var b := SpacesBefore(s, |s|);
    var t := s[..|s| - 1];
    assert SpacesFrom(s, 0) == 0 && |s| >= 2;
    assert SpacesFrom(t, 0) == 0 by {
      assert t[0] == s[0];
    }
    SpacesBeforeSlice(s, 0, |s| - 1, |s| - 1);
    assert t[0..|t| - (b - 1)] == s[0..|s| - b];
  }

  /** Dropping `d` characters at the front keeps the trailing run when it does not reach them. */
  lemma SpacesBeforeDrop(s: string, d: nat)
    requires d <= |s| && SpacesBefore(s, |s|) <= |s| - d
    ensures SpacesBefore(s[d..], |s| - d) == SpacesBefore(s, |s|)
  {
    var t := s[d..];
    var n := SpacesBefore(s, |s|);
    SpacesBeforeRun(s, |s|);
    assert forall k :: 0 <= k < |t| ==> t[k] == s[d + k];
    SpacesBeforeUnique(t, |t|, n);
  }

  lemma SliceOfSlice<T>(s: seq<T>, o: nat, j: nat, x: nat, y: nat)
    requires o <= j <= |s| && x <= y <= j - o
    ensures s[o..j][x..y] == s[o + x..o + y]
  {
    var a, b := s[o..j][x..y], s[o + x..o + y];
    forall k | 0 <= k < y - x ensures a[k] == b[k] {
      assert a[k] == s[o + x + k];
    }
  }

  /** `s[o..j]` is all whitespace exactly when the run of whitespace at `o` reaches `j`. */
  lemma AllSpaceRange(s: string, o: nat, j: nat)
    requires o <= j <= |s|
    ensures AllSpace(s[o..j]) <==> o + SpacesFrom(s, o) >= j
  {
    var n := SpacesFrom(s, o);
    SpacesFromRun(s, o);
    if o + n < j {
      assert s[o..j][n] == s[o + n];
    }
    if o + n >= j {
      forall k | 0 <= k < j - o ensures IsSpace(s[o..j][k]) {
        assert s[o..j][k] == s[o + k];
      }
    }
  }

  /**
   * `strip()` of a stretch `s[o..j]` that is not all whitespace and is
   * bounded by non-whitespace (or the ends of `s`): the stretch without the
   * runs of whitespace at its ends.
   */
  lemma StripRange(s: string, o: nat, j: nat)
    requires o <= j <= |s| && (o > 0 ==> !IsSpace(s[o - 1])) && (j < |s| ==> !IsSpace(s[j]))
    requires o + SpacesFrom(s, o) < j
    ensures o + SpacesFrom(s, o) < j - SpacesBefore(s, j)
    ensures Strip(s[o..j]) == s[o + SpacesFrom(s, o)..j - SpacesBefore(s, j)]
  {
    var m := s[o..j];
    var l := SpacesFrom(s, o);
    var b := SpacesBefore(s, j);
    SpacesFromSlice(s, o, j, 0);
    SpacesBeforeSlice(s, o, j, |m|);
    StripSlice(m);
    InnerIs(m, l, b);
    SliceOfSlice(s, o, j, l, |m| - b);
    assert o + (|m| - b) == j - b;
  }

  /** `strip()` returns the empty string exactly for an all-whitespace string. */
  lemma StripEmpty(s: string)
    ensures Strip(s) == [] <==> AllSpace(s)
  {
    SpaceRunsFull(s);
    StripSlice(s);
  }

  /** A non-empty `strip()` result neither starts nor ends with whitespace. */
  lemma StripEnds(s: string)
    ensures var r := Strip(s); r != [] ==> !IsSpace(r[0]) && !IsSpace(r[|r| - 1])
  {
    StripSlice(s);
  }

  /** A non-empty `strip()` result is what is left of `s` between a whitespace prefix and a whitespace suffix. */
  lemma StripFrame(s: string)
    requires Strip(s) != []
    ensures var a := SpacesFrom(s, 0);
            var b := SpacesBefore(s, |s|);
            a + b < |s| && AllSpace(s[..a]) && AllSpace(s[|s| - b..])
            && s == s[..a] + Strip(s) + s[|s| - b..]
  {
    var a := SpacesFrom(s, 0);
    var b := SpacesBefore(s, |s|);
    StripSlice(s);
    InnerIs(s, a, b);
    SpaceEnds(s, a, b);
    assert s == s[..a] + Strip(s) + s[|s| - b..] by {
      SplitThree(s, a, b);
    }
  }

  lemma SpaceEnds(s: string, a: nat, b: nat)
    requires a == SpacesFrom(s, 0) && b == SpacesBefore(s, |s|)
    ensures AllSpace(s[..a]) && AllSpace(s[|s| - b..])
  {
    var head, tail := s[..a], s[|s| - b..];
    SpacesFromRun(s, 0);
    SpacesBeforeRun(s, |s|);
    forall i | 0 <= i < a ensures IsSpace(head[i]) {
      assert head[i] == s[i];
    }
    forall i | 0 <= i < b ensures IsSpace(tail[i]) {
      assert tail[i] == s[|s| - b + i];
    }
  }

  /** `ws1 + x + ws2` strips to `x` when `x` neither starts nor ends with whitespace. */
  lemma StripPadded(w1: string, x: string, w2: string)
    requires AllSpace(w1) && AllSpace(w2) && x != [] && !IsSpace(x[0]) && !IsSpace(x[|x| - 1])
    ensures Strip(w1 + x + w2) == x
  {
    var s := w1 + x + w2;
    assert forall i :: 0 <= i < |w1| ==> s[i] == w1[i];
    assert forall i :: 0 <= i < |x| ==> s[|w1| + i] == x[i];
    assert forall i :: 0 <= i < |w2| ==> s[|w1| + |x| + i] == w2[i];
    SpacesFromUnique(s, 0, |w1|);
    SpacesBeforeUnique(s, |s|, |w2|);
    StripSlice(s);
    assert s[|w1|..|s| - |w2|] == x;
  }

  predicate StartsWith(s: string, p: string) {
    |p| <= |s| && s[..|p|] == p
  }

  /** Number of occurrences of `c` in `s`. */
  function Count(s: string, c: char): nat {
    if s == [] then 0 else (if s[0] == c then 1 else 0) + Count(s[1..], c)
  }

  /** `sep.join(parts)` for a one-character separator. */
  function Join(parts: seq<string>, sep: char): string
    requires |parts| >= 1
  {
    if |parts| == 1 then parts[0] else parts[0] + [sep] + Join(parts[1..], sep)
  }

  /**
   * `s.split(sep)` for a one-character separator: the pieces between the
   * occurrences of `sep`, empty pieces kept.
   */
  function Split(s: string, sep: char): (parts: seq<string>)
    ensures |parts| == Count(s, sep) + 1
    ensures forall i :: 0 <= i < |parts| ==> sep !in parts[i]
    ensures Join(parts, sep) == s
    decreases |s|
  {
    if s == [] then [[]]
    else
      var rest := Split(s[1..], sep);
      if s[0] == sep then
        assert s == [sep] + s[1..];
        [[]] + rest
      else
        var parts := [[s[0]] + rest[0]] + rest[1..];
        assert parts[1..] == rest[1..];
        assert s == [s[0]] + s[1..];
        parts
  }
}
