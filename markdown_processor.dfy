/**
 * The LaTeX delimiter rewriter (processors/markdown_processor.py).
 *
 * `modify_wrappers` is a fixed chain of four `re.sub` calls. Each call is
 * modelled here as a recursive left-to-right scan that does what Python's
 * regular-expression engine does for that one pattern: try a match at the
 * current position (in the engine's backtracking order), and either emit the
 * replacement and continue after the match, or emit one character and move on.
 */
module Markdown {
  import opened Common
  import opened Text

  const DefaultInlineWrapper: string := "$ $"
  const DefaultBlockWrapper: string := "$$ $$"

  /** The delimiters the two span passes look for: `\[`, `\]`, `\(` and `\)`. */
  const BlockOpen: Delim := "\\["
  const BlockClose: Delim := "\\]"
  const InlineOpen: Delim := "\\("
  const InlineClose: Delim := "\\)"

  function Max(a: int, b: int): int { if a < b then b else a }

  // ---------------------------------------------------------------------
  // Pass 1: re.sub(r'\${3,}', '', text)
  // ---------------------------------------------------------------------

  /** Length of the run of `$` that starts `s`. */
  function LeadingDollars(s: string): (n: nat)
    ensures n <= |s|
    ensures forall i :: 0 <= i < n ==> s[i] == '$'
    ensures n < |s| ==> s[n] != '$'
  {
    if s != [] && s[0] == '$' then 1 + LeadingDollars(s[1..]) else 0
  }

  /**
   * At each position the greedy `\${3,}` takes the whole run of `$` there if
   * it has at least three; otherwise one character is kept and the scan moves on.
   */
  function DeleteDollarRuns(s: string): string
    decreases |s|
  {
    if s == [] then []
    else
      var n := LeadingDollars(s);
      if n >= 3 then DeleteDollarRuns(s[n..]) else [s[0]] + DeleteDollarRuns(s[1..])
  }

  predicate TripleDollarAt(s: string, i: int) {
    0 <= i && i + 3 <= |s| && s[i] == '$' && s[i + 1] == '$' && s[i + 2] == '$'
  }

  ghost predicate HasTripleDollar(s: string) {
    exists i :: TripleDollarAt(s, i)
  }

  /** The characters of `s` other than `$`, in order. */
  function NonDollars(s: string): string {
    if s == [] then [] else (if s[0] == '$' then [] else [s[0]]) + NonDollars(s[1..])
  }

  /** A run of three or more `$` disappears whole, so what follows it cannot start with `$`. */
  lemma {:induction false} DeleteDollarRunsLeading(s: string)
    ensures LeadingDollars(DeleteDollarRuns(s)) == if LeadingDollars(s) >= 3 then 0 else LeadingDollars(s)
    decreases |s|
  {
    if s != [] {
      var n := LeadingDollars(s);
      if n >= 3 {
        DeleteDollarRunsLeading(s[n..]);
      } else {
        DeleteDollarRunsLeading(s[1..]);
        if s[0] == '$' {
          LeadingDollarsTail(s);
        }
      }
    }
  }

  lemma LeadingDollarsTail(s: string)
    requires s != [] && s[0] == '$'
    ensures LeadingDollars(s[1..]) == LeadingDollars(s) - 1
  {
  }

  /** After the first pass the text holds no three consecutive `$`. */
  lemma {:induction false} DeleteDollarRunsNoTriple(s: string)
    ensures !HasTripleDollar(DeleteDollarRuns(s))
    decreases |s|
  {
    if s != [] {
      var n := LeadingDollars(s);
      if n >= 3 {
        DeleteDollarRunsNoTriple(s[n..]);
      } else {
        var rest := DeleteDollarRuns(s[1..]);
        DeleteDollarRunsNoTriple(s[1..]);
        DeleteDollarRunsLeading(s[1..]);
        var r := [s[0]] + rest;
        forall i ensures !TripleDollarAt(r, i) {
          if i == 0 {
            if s[0] == '$' {
              LeadingDollarsTail(s);
            }
          } else {
            assert TripleDollarAt(r, i) ==> TripleDollarAt(rest, i - 1);
          }
        }
      }
    }
  }

  /** The first pass removes `$` characters only: everything else is kept, in order. */
  lemma {:induction false} DeleteDollarRunsKeepsOthers(s: string)
    ensures NonDollars(DeleteDollarRuns(s)) == NonDollars(s)
    decreases |s|
  {
    if s != [] {
      var n := LeadingDollars(s);
      if n >= 3 {
        DeleteDollarRunsKeepsOthers(s[n..]);
        NonDollarsSkipsRun(s, n);
      } else {
        DeleteDollarRunsKeepsOthers(s[1..]);
      }
    }
  }

  lemma {:induction false} NonDollarsSkipsRun(s: string, n: nat)
    requires n <= LeadingDollars(s)
    ensures NonDollars(s) == NonDollars(s[n..])
    decreases n
  {
    if n > 0 {
      NonDollarsSkipsRun(s[1..], n - 1);
      assert s[1..][n - 1..] == s[n..];
    }
  }

  /** Runs of one or two `$` survive: text without three consecutive `$` is left as it is. */
  lemma {:induction false} DeleteDollarRunsClean(s: string)
    requires !HasTripleDollar(s)
    ensures DeleteDollarRuns(s) == s
    decreases |s|
  {
    if s != [] {
      assert !TripleDollarAt(s, 0);
      assert LeadingDollars(s) < 3;
      forall i ensures !TripleDollarAt(s[1..], i) {
        assert TripleDollarAt(s[1..], i) ==> TripleDollarAt(s, i + 1);
      }
      DeleteDollarRunsClean(s[1..]);
      assert s == [s[0]] + s[1..];
    }
  }

  /** The first pass on its own is idempotent. */
  lemma DeleteDollarRunsIdempotent(s: string)
    ensures DeleteDollarRuns(DeleteDollarRuns(s)) == DeleteDollarRuns(s)
  {
    DeleteDollarRunsNoTriple(s);
    DeleteDollarRunsClean(DeleteDollarRuns(s));
  }

  // ---------------------------------------------------------------------
  // Passes 2 and 3: re.sub(r'\\\[(.*?)\\\]', ..., flags=re.DOTALL) and
  //                 re.sub(r'\\\((.*?)\\\)', ...)
  // ---------------------------------------------------------------------

  /** A two-character delimiter. */
  type Delim = s: string | |s| == 2 witness "\\["

  /**
   * One span pass: `open (.*?) close` becomes `left + strip(content) + right`;
   * `dotAll` says whether `.` also matches a newline.
   */
  datatype SpanRule = SpanRule(open: Delim, close: Delim, dotAll: bool, left: string, right: string)

  /** Whether the delimiter `p` occurs in `s` at position `i`. */
  predicate PairAt(s: string, i: int, p: Delim) {
    0 <= i && i + 2 <= |s| && s[i] == p[0] && s[i + 1] == p[1]
  }

  ghost predicate HasPair(s: string, p: Delim) {
    exists i :: PairAt(s, i, p)
  }

  /** `s.find(p, from)`: the first position at or after `from` where `p` occurs. */
  function FindPair(s: string, p: Delim, from: nat): (r: Option<nat>)
    ensures r.Some? ==> from <= r.value && r.value + 2 <= |s|
    decreases |s| - from
  {
    if from + 2 > |s| then None
    else if PairAt(s, from, p) then Some(from)
    else FindPair(s, p, from + 1)
  }

  /** `FindPair` returns the first occurrence at or after `from`. */
  lemma {:induction false} FindPairFirst(s: string, p: Delim, from: nat, k: nat)
    requires from <= k && PairAt(s, k, p) && forall j :: from <= j < k ==> !PairAt(s, j, p)
    ensures FindPair(s, p, from) == Some(k)
    decreases k - from
  {
    if from < k {
      FindPairFirst(s, p, from + 1, k);
    }
  }

  /** `FindPair` finds nothing when `p` does not occur at or after `from`. */
  lemma {:induction false} FindPairNone(s: string, p: Delim, from: nat)
    requires forall j :: from <= j ==> !PairAt(s, j, p)
    ensures FindPair(s, p, from) == None
    decreases |s| - from
  {
    if from + 2 <= |s| {
      FindPairNone(s, p, from + 1);
    }
  }

  predicate NoNewline(s: string, a: nat, b: nat)
    requires a <= b <= |s|
  {
    forall j :: a <= j < b ==> s[j] != '\n'
  }

  /**
   * Where a match of `open (.*?) close` that starts at `i` ends: the lazy
   * group stops at the first `close` after the `open`; without `dotAll` the
   * match fails when a newline lies before that `close` (every later
   * `close` lies beyond the newline too).
   */
  function SpanEnd(s: string, rule: SpanRule, i: nat): (r: Option<nat>)
    requires i <= |s|
    ensures r.Some? ==> i + 2 <= r.value && r.value + 2 <= |s|
  {
    if !PairAt(s, i, rule.open) then None
    else
      match FindPair(s, rule.close, i + 2)
      case Some(k) => if rule.dotAll || NoNewline(s, i + 2, k) then Some(k) else None
      case None => None
  }

  /** The scan of one span pass from position `i`. */
  function SpansFrom(s: string, rule: SpanRule, i: nat): string
    requires i <= |s|
    decreases |s| - i
  {
    if i == |s| then []
    else
      match SpanEnd(s, rule, i)
      case Some(k) => rule.left + Strip(s[i + 2..k]) + rule.right + SpansFrom(s, rule, k + 2)
      case None => [s[i]] + SpansFrom(s, rule, i + 1)
  }

  function RewriteSpans(s: string, rule: SpanRule): string {
    SpansFrom(s, rule, 0)
  }

  /** A position where no match starts is copied. */
  lemma SpansSkip(s: string, rule: SpanRule, i: nat)
    requires i < |s| && SpanEnd(s, rule, i) == None
    ensures SpansFrom(s, rule, i) == [s[i]] + SpansFrom(s, rule, i + 1)
  {
  }

  /** A match from `i` to the `close` at `k` is replaced. */
  lemma SpansMatch(s: string, rule: SpanRule, i: nat, k: nat)
    requires i <= |s| && SpanEnd(s, rule, i) == Some(k)
    ensures i + 2 <= k <= |s| - 2
    ensures SpansFrom(s, rule, i)
            == rule.left + Strip(s[i + 2..k]) + rule.right + SpansFrom(s, rule, k + 2)
  {
  }

  /** Positions where no `open` starts are copied one by one. */
  lemma {:induction false} SpansCopy(s: string, rule: SpanRule, i: nat, j: nat)
    requires i <= j <= |s| && forall m :: i <= m < j ==> !PairAt(s, m, rule.open)
    ensures SpansFrom(s, rule, i) == s[i..j] + SpansFrom(s, rule, j)
    decreases j - i
  {
    if i < j {
      SpansCopy(s, rule, i + 1, j);
      SpansSkip(s, rule, i);
      ConsSlice(s, i, j);
    }
  }

  lemma {:induction false} FindPairShift(s: string, d: nat, b: string, p: Delim, k: nat)
    requires SameFrom(s, d, b)
    ensures FindPair(s, p, d + k)
            == match FindPair(b, p, k) case Some(x) => Some(d + x) case None => None
    decreases |b| - k
  {
    if d + k + 2 <= |s| {
      assert PairAt(s, d + k, p) == PairAt(b, k, p);
      FindPairShift(s, d, b, p, k + 1);
    }
  }

  lemma NoNewlineShift(s: string, d: nat, b: string, x: nat, y: nat)
    requires SameFrom(s, d, b) && x <= y <= |b|
    ensures NoNewline(s, d + x, d + y) == NoNewline(b, x, y)
  {
    if NoNewline(b, x, y) {
      forall j | d + x <= j < d + y ensures s[j] != '\n' {
        assert s[d + (j - d)] == b[j - d];
      }
    }
  }

  /** Whether a match starts, and where it ends, does not depend on the text before. */
  lemma SpanEndShift(s: string, d: nat, b: string, rule: SpanRule, k: nat)
    requires SameFrom(s, d, b) && k <= |b|
    ensures SpanEnd(s, rule, d + k)
            == match SpanEnd(b, rule, k) case Some(x) => Some(d + x) case None => None
  {
    assert PairAt(s, d + k, rule.open) == PairAt(b, k, rule.open);
    FindPairShift(s, d, b, rule.close, k + 2);
    var f := FindPair(b, rule.close, k + 2);
    if f.Some? {
      NoNewlineShift(s, d, b, k + 2, f.value);
    }
  }

  /** The scan never looks back: in `s` after `d` it is the scan of `s[d..]`. */
  lemma {:induction false} SpansShift(s: string, d: nat, b: string, rule: SpanRule, k: nat)
    requires SameFrom(s, d, b) && k <= |b|
    ensures SpansFrom(s, rule, d + k) == SpansFrom(b, rule, k)
    decreases |b| - k
  {
    if k < |b| {
      var e := SpanEnd(b, rule, k);
      if e.Some? {
        SpansShift(s, d, b, rule, e.value + 2);
        SpansShiftMatch(s, d, b, rule, k, e.value);
      } else {
        SpansShift(s, d, b, rule, k + 1);
        SpansShiftSkip(s, d, b, rule, k);
      }
    }
  }

  lemma SpansShiftSkip(s: string, d: nat, b: string, rule: SpanRule, k: nat)
    requires SameFrom(s, d, b) && k < |b| && SpanEnd(b, rule, k) == None
    requires SpansFrom(s, rule, d + (k + 1)) == SpansFrom(b, rule, k + 1)
    ensures SpansFrom(s, rule, d + k) == SpansFrom(b, rule, k)
  {
    SpanEndShift(s, d, b, rule, k);
    SpansSkip(s, rule, d + k);
    SpansSkip(b, rule, k);
  }

  lemma SpansShiftMatch(s: string, d: nat, b: string, rule: SpanRule, k: nat, x: nat)
    requires SameFrom(s, d, b) && k < |b| && SpanEnd(b, rule, k) == Some(x)
    requires SpansFrom(s, rule, d + (x + 2)) == SpansFrom(b, rule, x + 2)
    ensures SpansFrom(s, rule, d + k) == SpansFrom(b, rule, k)
  {
    ShiftFacts(s, d, b, rule, k, x);
    SameMatch(s, d + k, d + x, b, k, x, rule);
  }

  /** A match in `b` is the same match, with the same content, in `s` after `d`. */
  lemma ShiftFacts(s: string, d: nat, b: string, rule: SpanRule, k: nat, x: nat)
    requires SameFrom(s, d, b) && k < |b| && SpanEnd(b, rule, k) == Some(x)
    ensures d + k <= |s| && SpanEnd(s, rule, d + k) == Some(d + x)
    ensures d + x <= |s| && k + 2 <= x <= |b| && s[d + k + 2..d + x] == b[k + 2..x]
  {
    SpanEndShift(s, d, b, rule, k);
    SameFromSlice(s, d, b, k + 2, x);
  }

  /** Two matches with the same content, followed by the same scan, give the same scan. */
  lemma SameMatch(s: string, i: nat, j: nat, t: string, k: nat, x: nat, rule: SpanRule)
    requires i <= |s| && k <= |t| && SpanEnd(s, rule, i) == Some(j) && SpanEnd(t, rule, k) == Some(x)
    requires s[i + 2..j] == t[k + 2..x] && SpansFrom(s, rule, j + 2) == SpansFrom(t, rule, x + 2)
    ensures SpansFrom(s, rule, i) == SpansFrom(t, rule, k)
  {
    SpansMatch(s, rule, i, j);
    SpansMatch(t, rule, k, x);
  }

  /** The scan of `a + b` after `a` is the scan of `b`. */
  lemma SpansAppend(a: string, b: string, rule: SpanRule)
    ensures SpansFrom(a + b, rule, |a|) == RewriteSpans(b, rule)
  {
    SameFromAppend(a, b);
    SpansShift(a + b, |a|, b, rule, 0);
  }

  /** Text in which `open` does not occur passes through unchanged. */
  lemma RewriteSpansNoOpen(s: string, rule: SpanRule)
    requires !HasPair(s, rule.open)
    ensures RewriteSpans(s, rule) == s
  {
    SpansCopy(s, rule, 0, |s|);
    assert s[0..|s|] == s;
  }

  /**
   * The span property of passes 2 and 3: the first `open` of the text and the
   * first `close` after it delimit a span that is rewritten, and the text
   * before and after it is handled as if on its own.
   */
  lemma RewriteSpansSpan(pre: string, c: string, post: string, rule: SpanRule)
    requires rule.open[0] != rule.open[1] && rule.close[0] != rule.close[1]
    requires !HasPair(pre, rule.open) && !HasPair(c, rule.close) && (rule.dotAll || '\n' !in c)
    ensures RewriteSpans(pre + rule.open + c + rule.close + post, rule)
            == pre + rule.left + Strip(c) + rule.right + RewriteSpans(post, rule)
  {
    var s := pre + rule.open + c + rule.close + post;
    var o := |pre|;
    SpanHead(pre, c, post, rule);
    SpanPrefix(pre, c, post, rule);
    SpansJoin(pre, s[0..o], rule.left + Strip(c) + rule.right, SpansFrom(s, rule, o), RewriteSpans(post, rule));
  }

  /** The scan from the `open` after `pre` rewrites the span and carries on with `post`. */
  lemma SpanHead(pre: string, c: string, post: string, rule: SpanRule)
    requires rule.open[0] != rule.open[1] && rule.close[0] != rule.close[1]
    requires !HasPair(pre, rule.open) && !HasPair(c, rule.close) && (rule.dotAll || '\n' !in c)
    ensures SpansFrom(pre + rule.open + c + rule.close + post, rule, |pre|)
            == rule.left + Strip(c) + rule.right + RewriteSpans(post, rule)
  {
    var head := pre + rule.open + c + rule.close;
    var s := head + post;
    var o := |pre|;
    var k := o + 2 + |c|;
    SpanEndAfterPrefix(pre, c, post, rule);
    SpansMatch(s, rule, o, k);
    SpanInner(pre, c, post, rule);
    SpansAppend(head, post, rule);
    assert k + 2 == |head|;
    assert SpansFrom(s, rule, k + 2) == RewriteSpans(post, rule);
    assert s[o + 2..k] == c;
  }

  lemma SpanEndAfterPrefix(pre: string, c: string, post: string, rule: SpanRule)
    requires rule.open[0] != rule.open[1] && rule.close[0] != rule.close[1]
    requires !HasPair(pre, rule.open) && !HasPair(c, rule.close) && (rule.dotAll || '\n' !in c)
    ensures SpanEnd(pre + rule.open + c + rule.close + post, rule, |pre|) == Some(|pre| + 2 + |c|)
  {
    SpanAfterPrefix(pre, c, post, rule);
  }

  lemma SpanInner(pre: string, c: string, post: string, rule: SpanRule)
    ensures (pre + rule.open + c + rule.close + post)[|pre| + 2..|pre| + 2 + |c|] == c
    ensures |pre + rule.open + c + rule.close| == |pre| + 2 + |c| + 2
  {
    SpanParts(pre, c, post, rule);
  }

  /** The text before the first `open` is copied. */
  lemma SpanPrefix(pre: string, c: string, post: string, rule: SpanRule)
    requires rule.open[0] != rule.open[1] && rule.close[0] != rule.close[1]
    requires !HasPair(pre, rule.open) && !HasPair(c, rule.close) && (rule.dotAll || '\n' !in c)
    ensures var s := pre + rule.open + c + rule.close + post;
            RewriteSpans(s, rule) == s[0..|pre|] + SpansFrom(s, rule, |pre|) && s[0..|pre|] == pre
  {
    var s := pre + rule.open + c + rule.close + post;
    SpanAfterPrefix(pre, c, post, rule);
    SpanParts(pre, c, post, rule);
    SpansCopy(s, rule, 0, |pre|);
  }

  lemma SpansJoin(pre: string, p: string, m: string, x: string, y: string)
    requires p == pre && x == m + y
    ensures p + x == pre + m + y
  {
  }

  /** Where the parts of `pre + open + c + close + post` lie. */
  lemma SpanParts(pre: string, c: string, post: string, rule: SpanRule)
    ensures var s := pre + rule.open + c + rule.close + post;
            var o := |pre|;
            var k := o + 2 + |c|;
            |s| == k + 2 + |post| && s[..o] == pre && s[o + 2..k] == c
            && s[o] == rule.open[0] && s[o + 1] == rule.open[1]
            && s[k] == rule.close[0] && s[k + 1] == rule.close[1]
            && (forall m :: 0 <= m < |c| ==> s[o + 2 + m] == c[m])
            && (forall m :: 0 <= m < o ==> s[m] == pre[m])
  {
  }

  /** In `pre + open + c + close + post`, the match starts after `pre` and ends at that `close`. */
  lemma SpanAfterPrefix(pre: string, c: string, post: string, rule: SpanRule)
    requires rule.open[0] != rule.open[1] && rule.close[0] != rule.close[1]
    requires !HasPair(pre, rule.open) && !HasPair(c, rule.close) && (rule.dotAll || '\n' !in c)
    ensures var s := pre + rule.open + c + rule.close + post;
            (forall m :: 0 <= m < |pre| ==> !PairAt(s, m, rule.open))
            && SpanEnd(s, rule, |pre|) == Some(|pre| + 2 + |c|)
  {
    var s := pre + rule.open + c + rule.close + post;
    var o := |pre|;
    var k := o + 2 + |c|;
    SpanParts(pre, c, post, rule);
    forall m | 0 <= m < o ensures !PairAt(s, m, rule.open) {
      assert !PairAt(pre, m, rule.open);
    }
    forall m | o + 2 <= m < k ensures !PairAt(s, m, rule.close) {
      assert !PairAt(c, m - o - 2, rule.close);
    }
    FindPairFirst(s, rule.close, o + 2, k);
    if !rule.dotAll {
      forall m | o + 2 <= m < k ensures s[m] != '\n' {
        assert c[m - o - 2] in c;
      }
    }
  }

  /** An `open` with no `close` anywhere after it is kept as it is. */
  lemma RewriteSpansUnclosed(c: string, rule: SpanRule)
    requires rule.open[0] != rule.open[1] && !HasPair(c, rule.close)
    ensures RewriteSpans(rule.open + c, rule) == rule.open + RewriteSpans(c, rule)
  {
    var s := rule.open + c;
    assert forall m :: 0 <= m < |c| ==> s[2 + m] == c[m];
    forall m | 2 <= m ensures !PairAt(s, m, rule.close) {
      assert PairAt(s, m, rule.close) ==> PairAt(c, m - 2, rule.close);
    }
    FindPairNone(s, rule.close, 2);
    SpansKeepOpen(rule.open, c, rule);
  }

  /** When no match starts at the `open` at the head of `d + t`, both its characters are copied. */
  lemma SpansKeepOpen(d: Delim, t: string, rule: SpanRule)
    requires d == rule.open && rule.open[0] != rule.open[1] && SpanEnd(d + t, rule, 0) == None
    ensures RewriteSpans(d + t, rule) == d + RewriteSpans(t, rule)
  {
    var s := d + t;
    assert s[0] == d[0] && s[1] == d[1];
    assert !PairAt(s, 1, rule.open);
    SpansSkip(s, rule, 0);
    SpansSkip(s, rule, 1);
    SpansAppend(d, t, rule);
    assert d == [s[0]] + [s[1]];
  }

  /** Without `dotAll`, an `open` whose first `close` lies on a later line is kept as it is. */
  lemma RewriteSpansCrossLine(c: string, post: string, rule: SpanRule)
    requires !rule.dotAll && rule.open[0] != rule.open[1] && rule.close[0] != rule.close[1]
    requires !HasPair(c, rule.close) && '\n' in c
    ensures RewriteSpans(rule.open + c + rule.close + post, rule)
            == rule.open + RewriteSpans(c + rule.close + post, rule)
  {
    var tail := c + rule.close + post;
    assert rule.open + c + rule.close + post == rule.open + tail;
    CrossLineNoSpan(c, post, rule);
    SpansKeepOpen(rule.open, tail, rule);
  }

  /** Without `dotAll`, no match starts at an `open` whose first `close` lies on a later line. */
  lemma CrossLineNoSpan(c: string, post: string, rule: SpanRule)
    requires !rule.dotAll && rule.close[0] != rule.close[1]
    requires !HasPair(c, rule.close) && '\n' in c
    ensures SpanEnd(rule.open + (c + rule.close + post), rule, 0) == None
  {
    var n :| 0 <= n < |c| && c[n] == '\n';
    ClosedAfter(c, post, rule);
    SpanEndLater(rule.open + (c + rule.close + post), rule, 0, 2 + |c|, 2 + n);
  }

  /** Where `c` and the first `close` after it lie in `open + (c + close + post)`. */
  lemma ClosedAfter(c: string, post: string, rule: SpanRule)
    requires rule.close[0] != rule.close[1] && !HasPair(c, rule.close)
    ensures var s := rule.open + (c + rule.close + post);
            var k := 2 + |c|;
            PairAt(s, k, rule.close) && (forall m :: 2 <= m < k ==> !PairAt(s, m, rule.close))
            && forall m :: 0 <= m < |c| ==> s[2 + m] == c[m]
  {
    var t := c + rule.close + post;
    var s := rule.open + t;
    var k := 2 + |c|;
    assert forall m :: 0 <= m < |c| ==> t[m] == c[m];
    assert forall m :: 0 <= m < |t| ==> s[2 + m] == t[m];
    assert s[k] == rule.close[0] && s[k + 1] == rule.close[1];
    forall m | 2 <= m < k ensures !PairAt(s, m, rule.close) {
      assert !PairAt(c, m - 2, rule.close);
    }
  }

  /** Without `dotAll`, no match starts at `i` when a newline comes before the first `close`. */
  lemma SpanEndLater(s: string, rule: SpanRule, i: nat, k: nat, n: nat)
    requires !rule.dotAll && i + 2 <= n < k && PairAt(s, k, rule.close) && s[n] == '\n'
    requires forall m :: i + 2 <= m < k ==> !PairAt(s, m, rule.close)
    ensures SpanEnd(s, rule, i) == None
  {
    FindPairFirst(s, rule.close, i + 2, k);
  }

  // ---------------------------------------------------------------------
  // Pass 4: re.sub(r'\$\s+([^\$]+?)\s+\$', r'$\1$', text)
  // ---------------------------------------------------------------------

  /** A match of pass 4: the group is `s[start..end]` and the scan resumes at `next`. */
  datatype Match = Match(start: nat, end: nat, next: nat)

  /**
   * Whether `\s+\$` matches `s` at position `g`. The greedy `\s+` first takes
   * the whole run of whitespace there; giving characters back leaves a
   * whitespace character where `$` is needed, so the whole run is the only
   * candidate.
   */
  predicate ClosesAt(s: string, g: nat) {
    g <= |s| && var b := SpacesFrom(s, g); b >= 1 && g + b < |s| && s[g + b] == '$'
  }

  /**
   * The lazy group `([^\$]+?)` of a match whose `\$` is just before `o` and
   * whose first `\s+` has length `p`: the group lengths q, q + 1, ... are
   * tried until the rest closes or a `$` ends the group.
   */
  function LazyGroup(s: string, o: nat, p: nat, q: nat): (r: Option<Match>)
    requires 1 <= p && 1 <= q
    ensures r.Some? ==> r.value.start == o + p && o + p + q <= r.value.end < r.value.next <= |s|
    decreases |s| + 1 - (o + p + q)
  {
    var g := o + p + q;
    if g > |s| || s[g - 1] == '$' then None
    else if ClosesAt(s, g) then Some(Match(o + p, g, g + SpacesFrom(s, g) + 1))
    else LazyGroup(s, o, p, q + 1)
  }

  /**
   * The match after a `$` just before `o`: the greedy first `\s+` tries the
   * lengths p, p - 1, ..., 1, in the engine's backtracking order.
   */
  function MatchFrom(s: string, o: nat, p: nat): (r: Option<Match>)
    ensures r.Some? ==> o < r.value.start <= r.value.end < r.value.next <= |s|
    decreases p
  {
    if p == 0 then None
    else
      match LazyGroup(s, o, p, 1)
      case Some(m) => Some(m)
      case None => MatchFrom(s, o, p - 1)
  }

  function CollapseFrom(s: string, i: nat): string
    requires i <= |s|
    decreases |s| - i
  {
    if i == |s| then []
    else if s[i] == '$' then
      match MatchFrom(s, i + 1, SpacesFrom(s, i + 1))
      case Some(m) => "$" + s[m.start..m.end] + "$" + CollapseFrom(s, m.next)
      case None => "$" + CollapseFrom(s, i + 1)
    else [s[i]] + CollapseFrom(s, i + 1)
  }

  /** `$ x $` becomes `$x$`: the whitespace just inside a pair of `$` is removed. */
  function CollapseDollarSpacing(s: string): string {
    CollapseFrom(s, 0)
  }

  /**
   * When the text between a `$` and the next `$` is collapsed: at least three
   * characters, whitespace at both ends.
   */
  predicate Collapsible(m: string) {
    |m| >= 3 && IsSpace(m[0]) && IsSpace(m[|m| - 1])
  }

  /**
   * What the group captures: the stripped text, or, when the text between
   * the two `$` is all whitespace, its next-to-last character (each `\s+`
   * keeps one character and the group takes one).
   */
  function CollapsedGroup(m: string): string
    requires Collapsible(m)
  {
    if AllSpace(m) then [m[|m| - 2]] else Strip(m)
  }

  predicate NoDollar(s: string, a: nat, b: nat)
    requires a <= b <= |s|
  {
    forall k :: a <= k < b ==> s[k] != '$'
  }

  /**
   * Where `s[j]` is the first `$` after position `o`, the closing `\s+\$`
   * matches at `g` exactly inside the whitespace that ends `s[o..j]`.
   */
  lemma ClosesBefore(s: string, o: nat, j: nat, g: nat)
    requires o <= g <= j < |s| && s[j] == '$' && NoDollar(s, o, j)
    ensures ClosesAt(s, g) <==> g < j && g >= j - SpacesBefore(s, j)
    ensures ClosesAt(s, g) ==> g + SpacesFrom(s, g) == j
  {
    var n := SpacesFrom(s, g);
    var t := SpacesBefore(s, j);
    SpacesFromRun(s, g);
    SpacesBeforeRun(s, j);
    assert !IsSpace('$');
    if g + n < j {
      assert s[g + n] != '$' && !IsSpace(s[g + n]);
    } else {
      assert g + n == j;
    }
  }

  /** The lazy group when the next `$` is at `j`; `T` is where the whitespace before it starts. */
  lemma {:induction false} LazyGroupBefore(s: string, o: nat, j: nat, p: nat, q: nat)
    requires 1 <= p && 1 <= q && o + p + q <= j + 1 && j < |s| && s[j] == '$' && NoDollar(s, o, j)
    ensures var t := j - SpacesBefore(s, j);
            LazyGroup(s, o, p, q)
            == if o + p + q < j && IsSpace(s[j - 1])
               then Some(Match(o + p, Max(o + p + q, t), j + 1))
               else None
    decreases j + 1 - (o + p + q)
  {
    var g := o + p + q;
    if g <= j {
      assert s[g - 1] != '$';
      ClosesBefore(s, o, j, g);
      if !ClosesAt(s, g) {
        LazyGroupBefore(s, o, j, p, q + 1);
      }
    }
  }

  /** The backtracking over the first `\s+` when the next `$` is at `j`. */
  lemma {:induction false} MatchFromBefore(s: string, o: nat, j: nat, p: nat)
    requires o + p <= j < |s| && s[j] == '$' && NoDollar(s, o, j)
    ensures var t := j - SpacesBefore(s, j);
            MatchFrom(s, o, p)
            == if j - o >= 3 && IsSpace(s[j - 1]) && p >= 1
               then var p' := if p <= j - o - 2 then p else j - o - 2;
                    Some(Match(o + p', Max(o + p' + 1, t), j + 1))
               else None
    decreases p
  {
    if p >= 1 {
      LazyGroupBefore(s, o, j, p, 1);
      if !(o + p + 1 < j && IsSpace(s[j - 1])) {
        MatchFromBefore(s, o, j, p - 1);
      }
    }
  }

  /**
   * The match pass 4 finds at a `$` at `i` whose next `$` is at `j`: there is
   * one exactly when the text between them is collapsible; it captures the
   * collapsed group and ends at the second `$`.
   */
  lemma MatchAfterDollar(s: string, i: nat, j: nat)
    requires i < j < |s| && s[i] == '$' && s[j] == '$' && NoDollar(s, i + 1, j)
    ensures var r := MatchFrom(s, i + 1, SpacesFrom(s, i + 1));
            (r.Some? <==> Collapsible(s[i + 1..j]))
            && (r.Some? ==> r.value.next == j + 1
                            && s[r.value.start..r.value.end] == CollapsedGroup(s[i + 1..j]))
  {
    MatchShape(s, i, j);
    if Collapsible(s[i + 1..j]) {
      CollapsedRange(s, i + 1, j);
    }
  }

  /** Where the group of a match that runs from `o` to the `$` at `j` starts. */
  function GroupStart(s: string, o: nat, j: nat): int
    requires o <= j <= |s|
  {
    var l := SpacesFrom(s, o);
    if l <= j - o - 2 then o + l else j - 2
  }

  /** Where that group ends: after its last character that is not whitespace,
      and at least one character after its start. */
  function GroupEnd(s: string, o: nat, j: nat): int
    requires o <= j <= |s|
  {
    Max(GroupStart(s, o, j) + 1, j - SpacesBefore(s, j))
  }

  /** The match after a `$`, with the next `$` at `j`, in terms of positions. */
  lemma MatchShape(s: string, i: nat, j: nat)
    requires i < j < |s| && s[i] == '$' && s[j] == '$' && NoDollar(s, i + 1, j)
    ensures var r := MatchFrom(s, i + 1, SpacesFrom(s, i + 1));
            (r.Some? <==> Collapsible(s[i + 1..j]))
            && (r.Some? ==> r.value == Match(GroupStart(s, i + 1, j), GroupEnd(s, i + 1, j), j + 1))
  {
    var o := i + 1;
    var l := SpacesFrom(s, o);
    SpacesFromRun(s, o);
    assert !IsSpace('$');
    assert o + l <= j;
    MatchFromBefore(s, o, j, l);
    CollapsibleRange(s, o, j);
  }

  /** Whether `s[o..j]` is collapsible, read off `s`. */
  lemma CollapsibleRange(s: string, o: nat, j: nat)
    requires o <= j <= |s|
    ensures Collapsible(s[o..j]) <==> j - o >= 3 && SpacesFrom(s, o) >= 1 && IsSpace(s[j - 1])
  {
    if j - o >= 3 {
      assert s[o..j][0] == s[o] && s[o..j][j - o - 1] == s[j - 1];
    }
  }

  /** The group pass 4 captures between a `$` just before `o` and the next `$` at `j`. */
  lemma CollapsedRange(s: string, o: nat, j: nat)
    requires 1 <= o && o + 3 <= j < |s| && !IsSpace(s[o - 1]) && !IsSpace(s[j])
    requires Collapsible(s[o..j])
    ensures o <= GroupStart(s, o, j) <= GroupEnd(s, o, j) <= |s|
    ensures s[GroupStart(s, o, j)..GroupEnd(s, o, j)] == CollapsedGroup(s[o..j])
  {
    CollapsibleRange(s, o, j);
    AllSpaceRange(s, o, j);
    if AllSpace(s[o..j]) {
      GroupAllSpace(s, o, j);
      assert o + (j - o - 2) == j - 2;
    } else {
      GroupMixed(s, o, j);
    }
  }

  /** The group when only whitespace lies between the two `$`: each `\s+` keeps one character. */
  lemma GroupAllSpace(s: string, o: nat, j: nat)
    requires 1 <= o && o + 3 <= j < |s| && o + SpacesFrom(s, o) >= j
    ensures s[j - 2..Max(j - 1, j - SpacesBefore(s, j))] == [s[o..j][j - o - 2]]
  {
    SpacesFromRun(s, o);
    assert IsSpace(s[j - 1]) && IsSpace(s[j - 2]);
    assert SpacesBefore(s, j) >= 2;
    assert s[o..j][j - o - 2] == s[j - 2];
    assert s[j - 2..j - 1] == [s[j - 2]];
  }

  /** The group when something other than whitespace lies between the two `$`: the stripped text. */
  lemma GroupMixed(s: string, o: nat, j: nat)
    requires 1 <= o && o + 3 <= j < |s| && !IsSpace(s[o - 1]) && !IsSpace(s[j])
    requires IsSpace(s[j - 1]) && o + SpacesFrom(s, o) < j
    ensures var l := SpacesFrom(s, o);
            var p := if l <= j - o - 2 then l else j - o - 2;
            s[o + p..Max(o + p + 1, j - SpacesBefore(s, j))] == Strip(s[o..j])
  {
    var l := SpacesFrom(s, o);
    SpacesFromRun(s, o);
    StripRange(s, o, j);
    assert !IsSpace(s[o + l]);
    assert o + l < j - 1;
  }

  /** Pass 4 copies a character other than `$`. */
  lemma CollapseOther(s: string, i: nat)
    requires i < |s| && s[i] != '$'
    ensures CollapseFrom(s, i) == [s[i]] + CollapseFrom(s, i + 1)
  {
  }

  /** Pass 4 at a `$` where the pattern matches. */
  lemma CollapseMatched(s: string, i: nat, m: Match)
    requires i < |s| && s[i] == '$' && MatchFrom(s, i + 1, SpacesFrom(s, i + 1)) == Some(m)
    ensures m.start <= m.end <= m.next <= |s|
    ensures CollapseFrom(s, i) == "$" + s[m.start..m.end] + "$" + CollapseFrom(s, m.next)
  {
  }

  /** Pass 4 at a `$` where the pattern does not match. */
  lemma CollapseUnmatched(s: string, i: nat)
    requires i < |s| && s[i] == '$' && MatchFrom(s, i + 1, SpacesFrom(s, i + 1)) == None
    ensures CollapseFrom(s, i) == "$" + CollapseFrom(s, i + 1)
  {
  }

  /** With no `$` at or after `o + p + q - 1` the lazy group never closes. */
  lemma {:induction false} LazyGroupNoDollar(s: string, o: nat, p: nat, q: nat)
    requires 1 <= p && 1 <= q && o + p + q <= |s| + 1 && NoDollar(s, o + p + q - 1, |s|)
    ensures LazyGroup(s, o, p, q) == None
    decreases |s| + 1 - (o + p + q)
  {
    var g := o + p + q;
    if g <= |s| {
      var n := SpacesFrom(s, g);
      if g + n < |s| {
        assert s[g + n] != '$';
      }
      LazyGroupNoDollar(s, o, p, q + 1);
    }
  }

  /** With no `$` after a `$`, pass 4 finds no match there. */
  lemma {:induction false} MatchFromNoDollar(s: string, o: nat, p: nat)
    requires o + p <= |s| && NoDollar(s, o, |s|)
    ensures MatchFrom(s, o, p) == None
    decreases p
  {
    if p >= 1 {
      LazyGroupNoDollar(s, o, p, 1);
      MatchFromNoDollar(s, o, p - 1);
    }
  }

  // The same pass, stated by the next `$` instead of by the regular expression.

  /** The first `$` at or after `from`. */
  function NextDollar(s: string, from: nat): (r: Option<nat>)
    requires from <= |s|
    ensures r.Some? ==> from <= r.value < |s| && s[r.value] == '$' && NoDollar(s, from, r.value)
    ensures r.None? ==> NoDollar(s, from, |s|)
    decreases |s| - from
  {
    if from == |s| then None
    else if s[from] == '$' then Some(from)
    else NextDollar(s, from + 1)
  }

  /** Where the pair of `$` that starts at `i` ends, when the text between them is collapsible. */
  function PairEnd(s: string, i: nat): (r: Option<nat>)
    requires i < |s|
    ensures r.Some? ==> i < r.value < |s|
  {
    if s[i] != '$' then None
    else
      var n := NextDollar(s, i + 1);
      if n.Some? && Collapsible(s[i + 1..n.value]) then n else None
  }

  /** Pass 4 as a scan over pairs of consecutive `$`, on what is left of the text. */
  function PairsOf(t: string): string
    decreases |t|
  {
    if t == [] then []
    else
      var e := PairEnd(t, 0);
      if e.Some? then "$" + CollapsedGroup(t[1..e.value]) + "$" + PairsOf(t[e.value + 1..])
      else [t[0]] + PairsOf(t[1..])
  }

  lemma PairsSkip(t: string)
    requires t != [] && PairEnd(t, 0) == None
    ensures PairsOf(t) == [t[0]] + PairsOf(t[1..])
  {
  }

  lemma PairsMatch(t: string, j: nat)
    requires t != [] && PairEnd(t, 0) == Some(j)
    ensures 0 < j < |t| && Collapsible(t[1..j])
    ensures PairsOf(t) == "$" + CollapsedGroup(t[1..j]) + "$" + PairsOf(t[j + 1..])
  {
  }

  /** The regular-expression scan of pass 4 and the scan over pairs of `$` agree. */
  lemma {:induction false} CollapseIsPairs(s: string, i: nat)
    requires i <= |s|
    ensures CollapseFrom(s, i) == PairsOf(s[i..])
    decreases |s| - i
  {
    if i < |s| {
      var e := PairEnd(s, i);
      if e.Some? {
        CollapseIsPairs(s, e.value + 1);
        CollapsePairAt(s, i, e.value);
      } else {
        CollapseIsPairs(s, i + 1);
        CollapseNoPairAt(s, i);
      }
    }
  }

  /** Where a pair that starts at `i` lies in the suffix `s[i..]`. */
  lemma SuffixPair(s: string, i: nat, j: nat)
    requires i < |s| && PairEnd(s, i) == Some(j)
    ensures PairEnd(s[i..], 0) == Some(j - i)
    ensures s[i..][1..j - i] == s[i + 1..j] && s[i..][j - i + 1..] == s[j + 1..]
  {
    var t := s[i..];
    assert SameFrom(s, i, t);
    PairEndShift(s, i, t, 0);
  }

  /** At a position where no pair starts, the suffix loses just its first letter. */
  lemma SuffixNoPair(s: string, i: nat)
    requires i < |s| && PairEnd(s, i) == None
    ensures PairsOf(s[i..]) == [s[i]] + PairsOf(s[i + 1..])
  {
    var t := s[i..];
    assert SameFrom(s, i, t);
    PairEndShift(s, i, t, 0);
    PairsSkip(t);
    assert t[1..] == s[i + 1..];
  }

  lemma CollapsePairAt(s: string, i: nat, j: nat)
    requires i < |s| && PairEnd(s, i) == Some(j)
    requires CollapseFrom(s, j + 1) == PairsOf(s[j + 1..])
    ensures CollapseFrom(s, i) == PairsOf(s[i..])
  {
    CollapseMatchedAt(s, i, j);
    SuffixPairs(s, i, j);
  }

  /** The pair scan on the suffix that starts with a collapsible pair. */
  lemma SuffixPairs(s: string, i: nat, j: nat)
    requires i < |s| && PairEnd(s, i) == Some(j)
    ensures PairsOf(s[i..]) == "$" + CollapsedGroup(s[i + 1..j]) + "$" + PairsOf(s[j + 1..])
  {
    SuffixPair(s, i, j);
    PairsMatch(s[i..], j - i);
  }

  lemma CollapseMatchedAt(s: string, i: nat, j: nat)
    requires i < |s| && PairEnd(s, i) == Some(j)
    ensures CollapseFrom(s, i) == "$" + CollapsedGroup(s[i + 1..j]) + "$" + CollapseFrom(s, j + 1)
  {
    MatchAfterDollar(s, i, j);
    var r := MatchFrom(s, i + 1, SpacesFrom(s, i + 1));
    CollapseMatched(s, i, r.value);
  }

  lemma CollapseNoPairAt(s: string, i: nat)
    requires i < |s| && PairEnd(s, i) == None
    requires CollapseFrom(s, i + 1) == PairsOf(s[i + 1..])
    ensures CollapseFrom(s, i) == PairsOf(s[i..])
  {
    CollapseUnpaired(s, i);
    SuffixNoPair(s, i);
  }

  lemma CollapseUnpaired(s: string, i: nat)
    requires i < |s| && PairEnd(s, i) == None
    ensures CollapseFrom(s, i) == [s[i]] + CollapseFrom(s, i + 1)
  {
    if s[i] != '$' {
      CollapseOther(s, i);
    } else {
      var n := NextDollar(s, i + 1);
      if n.Some? {
        MatchAfterDollar(s, i, n.value);
      } else {
        MatchFromNoDollar(s, i + 1, SpacesFrom(s, i + 1));
      }
      CollapseUnmatched(s, i);
    }
  }

  /** A stretch without `$` is copied by pass 4. */
  lemma {:induction false} PairsCopy(t: string, j: nat)
    requires j <= |t| && NoDollar(t, 0, j)
    ensures PairsOf(t) == t[..j] + PairsOf(t[j..])
    decreases j
  {
    if 0 < j {
      var u := t[1..];
      assert NoDollar(u, 0, j - 1);
      PairsCopy(u, j - 1);
      PairsSkip(t);
      assert [t[0]] + u[..j - 1] == t[..j] && u[j - 1..] == t[j..];
    }
  }

  lemma {:induction false} NextDollarShift(s: string, d: nat, b: string, k: nat)
    requires SameFrom(s, d, b) && k <= |b|
    ensures NextDollar(s, d + k)
            == match NextDollar(b, k) case Some(x) => Some(d + x) case None => None
    decreases |b| - k
  {
    if k < |b| {
      assert s[d + k] == b[k];
      NextDollarShift(s, d, b, k + 1);
    }
  }

  lemma PairEndShift(s: string, d: nat, b: string, k: nat)
    requires SameFrom(s, d, b) && k < |b|
    ensures PairEnd(s, d + k) == match PairEnd(b, k) case Some(x) => Some(d + x) case None => None
  {
    assert s[d + k] == b[k];
    NextDollarShift(s, d, b, k + 1);
    var n := NextDollar(b, k + 1);
    if n.Some? {
      SameFromSlice(s, d, b, k + 1, n.value);
    }
  }

  /**
   * Pass 4 at a `$`: the text `m` up to the next `$` is collapsed when it is
   * collapsible; otherwise the first `$` and `m` are kept and the second `$`
   * is tried as the opening of the next match.
   */
  lemma CollapseSpan(m: string, post: string)
    requires '$' !in m
    ensures CollapseDollarSpacing("$" + m + "$" + post)
            == if Collapsible(m) then "$" + CollapsedGroup(m) + "$" + CollapseDollarSpacing(post)
               else "$" + m + CollapseDollarSpacing("$" + post)
  {
    var s := "$" + m + "$" + post;
    CollapseIsPairs(s, 0);
    CollapseIsPairs(post, 0);
    CollapseIsPairs("$" + post, 0);
    assert s[0..] == s && post[0..] == post && ("$" + post)[0..] == "$" + post;
    if Collapsible(m) {
      PairsSpanCollapsed(m, post);
    } else {
      PairsSpanKept(m, post);
    }
  }

  /** The pair scan at a collapsible pair of `$` at the head of the text. */
  lemma PairsSpanCollapsed(m: string, post: string)
    requires '$' !in m && Collapsible(m)
    ensures PairsOf("$" + m + "$" + post) == "$" + CollapsedGroup(m) + "$" + PairsOf(post)
  {
    var s := "$" + m + "$" + post;
    SpanOfDollars(m, post);
    PairsMatch(s, |m| + 1);
    assert s[|m| + 2..] == post;
  }

  /** The pair scan at a pair of `$` that is not collapsible, at the head of the text. */
  lemma PairsSpanKept(m: string, post: string)
    requires '$' !in m && !Collapsible(m)
    ensures PairsOf("$" + m + "$" + post) == "$" + m + PairsOf("$" + post)
  {
    var s := "$" + m + "$" + post;
    SpanOfDollars(m, post);
    PairsSkip(s);
    DropDollar(m, post);
    PairsCopyAll(m, "$" + post);
    Regroup(m + PairsOf("$" + post), m, PairsOf("$" + post));
  }

  lemma DropDollar(m: string, post: string)
    ensures var s := "$" + m + "$" + post; [s[0]] == "$" && s[1..] == m + ("$" + post)
  {
  }

  lemma Regroup(x: string, m: string, z: string)
    requires x == m + z
    ensures "$" + x == "$" + m + z
  {
  }

  /** Text without `$` in front of `rest` is copied by pass 4. */
  lemma PairsCopyAll(m: string, rest: string)
    requires '$' !in m
    ensures PairsOf(m + rest) == m + PairsOf(rest)
  {
    var u := m + rest;
    NoDollarIn(m, rest);
    PairsCopy(u, |m|);
    assert u[..|m|] == m && u[|m|..] == rest;
  }

  lemma NoDollarIn(m: string, rest: string)
    requires '$' !in m
    ensures NoDollar(m + rest, 0, |m|)
  {
    forall k | 0 <= k < |m| ensures (m + rest)[k] != '$' {
      assert m[k] in m;
    }
  }

  /** Where the parts of `"$" + m + "$" + post` lie, and which pair starts it. */
  lemma SpanOfDollars(m: string, post: string)
    requires '$' !in m
    ensures var s := "$" + m + "$" + post;
            s[0] == '$' && s[1..|m| + 1] == m
            && NextDollar(s, 1) == Some(|m| + 1) && NoDollar(s, 1, |m| + 1)
            && PairEnd(s, 0) == (if Collapsible(m) then Some(|m| + 1) else None)
  {
    var s := "$" + m + "$" + post;
    var j := |m| + 1;
    assert forall k :: 0 <= k < |m| ==> s[1 + k] == m[k];
    assert s[j] == '$';
    forall k | 1 <= k < j ensures s[k] != '$' {
      assert m[k - 1] in m;
    }
    NextDollarFirst(s, 1, j);
    assert s[1..j] == m;
  }

  lemma {:induction false} NextDollarFirst(s: string, from: nat, j: nat)
    requires from <= j < |s| && s[j] == '$' && NoDollar(s, from, j)
    ensures NextDollar(s, from) == Some(j)
    decreases j - from
  {
    if from < j {
      NextDollarFirst(s, from + 1, j);
    }
  }

  /** `$<ws+>x<ws+>$` becomes `$x$` when `x` has no `$` and no whitespace at its ends. */
  lemma CollapseTrimmed(w1: string, x: string, w2: string, post: string)
    requires w1 != [] && w2 != [] && AllSpace(w1) && AllSpace(w2)
    requires x != [] && '$' !in x && !IsSpace(x[0]) && !IsSpace(x[|x| - 1])
    ensures CollapseDollarSpacing("$" + w1 + x + w2 + "$" + post)
            == "$" + x + "$" + CollapseDollarSpacing(post)
  {
    var m := w1 + x + w2;
    PaddedParts(w1, x, w2);
    StripPadded(w1, x, w2);
    assert "$" + w1 + x + w2 + "$" + post == "$" + m + "$" + post;
    CollapseSpan(m, post);
  }

  lemma PaddedParts(w1: string, x: string, w2: string)
    requires w1 != [] && w2 != [] && AllSpace(w1) && AllSpace(w2)
    requires x != [] && '$' !in x && !IsSpace(x[0]) && !IsSpace(x[|x| - 1])
    ensures var m := w1 + x + w2; '$' !in m && Collapsible(m) && !AllSpace(m)
  {
    var m := w1 + x + w2;
    assert !IsSpace('$');
    assert forall k :: 0 <= k < |w1| ==> m[k] == w1[k];
    assert forall k :: 0 <= k < |x| ==> m[|w1| + k] == x[k];
    assert forall k :: 0 <= k < |w2| ==> m[|w1| + |x| + k] == w2[k];
    forall k | 0 <= k < |m| ensures m[k] != '$' {
      if |w1| <= k < |w1| + |x| {
        assert x[k - |w1|] in x;
      }
    }
    assert !IsSpace(m[|w1|]);
  }

  // ---------------------------------------------------------------------
  // The wrappers and the whole pipeline
  // ---------------------------------------------------------------------

  /** `len(wrapper.split(' ')) == 2`: the check that guards passes 2 and 3. */
  predicate IsWrapper(w: string) {
    |Split(w, ' ')| == 2
  }

  function WrapperLeft(w: string): string requires IsWrapper(w) { Split(w, ' ')[0] }
  function WrapperRight(w: string): string requires IsWrapper(w) { Split(w, ' ')[1] }

  /** A wrapper is accepted exactly when it holds one space, which separates its two tokens. */
  lemma WrapperTokens(w: string)
    ensures IsWrapper(w) <==> Count(w, ' ') == 1
    ensures IsWrapper(w) ==> w == WrapperLeft(w) + " " + WrapperRight(w)
                             && ' ' !in WrapperLeft(w) && ' ' !in WrapperRight(w)
  {
    var parts := Split(w, ' ');
    if |parts| == 2 {
      assert Join(parts[1..], ' ') == parts[1];
    }
  }

  /** Pass 2: `\\[ ... \\]` across lines, with the block wrapper's two tokens. */
  function BlockRule(w: string): SpanRule
    requires IsWrapper(w)
  {
    SpanRule(BlockOpen, BlockClose, true, WrapperLeft(w), WrapperRight(w))
  }

  /** Pass 3: `\\( ... \\)` within a line, with the inline wrapper's two tokens. */
  function InlineRule(w: string): SpanRule
    requires IsWrapper(w)
  {
    SpanRule(InlineOpen, InlineClose, false, WrapperLeft(w), WrapperRight(w))
  }

  /**
   * `modify_wrappers(text)` for the given inline and block wrappers. Pass 4
   * runs only when the inline wrapper is well formed.
   */
  function Rewrite(text: string, inlineWrapper: string, blockWrapper: string): string {
    var t1 := DeleteDollarRuns(text);
    var t2 := if IsWrapper(blockWrapper) then RewriteSpans(t1, BlockRule(blockWrapper)) else t1;
    if IsWrapper(inlineWrapper)
    then CollapseDollarSpacing(RewriteSpans(t2, InlineRule(inlineWrapper)))
    else t2
  }

  /** A malformed wrapper skips its own passes and only those; with both malformed
      only the first pass runs. */
  lemma RewriteMalformedWrappers(text: string, inlineWrapper: string, blockWrapper: string)
    ensures !IsWrapper(inlineWrapper) && !IsWrapper(blockWrapper) ==>
              Rewrite(text, inlineWrapper, blockWrapper) == DeleteDollarRuns(text)
    ensures IsWrapper(inlineWrapper) && !IsWrapper(blockWrapper) ==>
              Rewrite(text, inlineWrapper, blockWrapper)
              == CollapseDollarSpacing(RewriteSpans(DeleteDollarRuns(text), InlineRule(inlineWrapper)))
    ensures !IsWrapper(inlineWrapper) && IsWrapper(blockWrapper) ==>
              Rewrite(text, inlineWrapper, blockWrapper)
              == RewriteSpans(DeleteDollarRuns(text), BlockRule(blockWrapper))
  {
  }

  /** Text with no `$`, no `\\[` and no `\\(` is returned unchanged, whatever the wrappers. */
  lemma RewritePlainText(text: string, inlineWrapper: string, blockWrapper: string)
    requires '$' !in text && !HasPair(text, BlockOpen) && !HasPair(text, InlineOpen)
    ensures Rewrite(text, inlineWrapper, blockWrapper) == text
  {
    forall i | 0 <= i < |text| ensures text[i] != '$' {
      assert text[i] in text;
    }
    DeleteDollarRunsClean(text);
    if IsWrapper(blockWrapper) {
      RewriteSpansNoOpen(text, BlockRule(blockWrapper));
    }
    if IsWrapper(inlineWrapper) {
      RewriteSpansNoOpen(text, InlineRule(inlineWrapper));
      CollapseIsPairs(text, 0);
      PairsCopy(text, |text|);
      assert text[0..] == text && text[..|text|] == text && text[|text|..] == [];
    }
  }

  // ---------------------------------------------------------------------
  // The processor object
  // ---------------------------------------------------------------------

  /** `MarkdownProcessor`: holds the two wrappers `modify_wrappers` uses. */
  class MarkdownProcessor {
    var inlineWrapper: string
    var blockWrapper: string

    constructor ()
      ensures inlineWrapper == DefaultInlineWrapper && blockWrapper == DefaultBlockWrapper
    {
      inlineWrapper := DefaultInlineWrapper;
      blockWrapper := DefaultBlockWrapper;
    }

    /** Both strings are stored as given; nothing is validated here. */
    method SetWrappers(inlineWrapper: string, blockWrapper: string)
      modifies this
      ensures this.inlineWrapper == inlineWrapper && this.blockWrapper == blockWrapper
    {
      this.inlineWrapper := inlineWrapper;
      this.blockWrapper := blockWrapper;
    }

    function ModifyWrappers(text: string): string
      reads this
    {
      Rewrite(text, inlineWrapper, blockWrapper)
    }
  }
}
