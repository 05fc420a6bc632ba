/**
 * The salary extraction of the Python aggregator: `re.search(r'(\d+)[^\d]*(\d+)', text)`
 * followed by `int()` of the two groups (scrapy.py:108-111).
 *
 * `Search` computes the match directly from the digit runs of the text; the
 * lemmas prove that it is the match Python's backtracking engine reports: a
 * match of the pattern, at the leftmost start, and among matches there the
 * first in the greedy order (longest group 1, then longest gap, then longest
 * group 2); and that there is no match at all exactly when the text has fewer
 * than two digits.
 */
module SalaryRegex {
  import opened Text
  import opened Wrappers

  /** Where a match lies: group 1 is s[start..end1], the non-digit gap is
      s[end1..start2], group 2 is s[start2..end2]. */
  datatype Span = Span(start: nat, end1: nat, start2: nat, end2: nat)

  /** m is a match of `(\d+)[^\d]*(\d+)` in s. */
  predicate IsMatch(s: string, m: Span) {
    && m.start < m.end1 <= m.start2 < m.end2 <= |s|
    && AllDigits(s[m.start..m.end1])
    && NoDigits(s[m.end1..m.start2])
    && AllDigits(s[m.start2..m.end2])
  }

  /** m comes no later than n in the order the greedy quantifiers try
      alternatives: a longer group 1 first, then a longer gap, then a longer
      group 2. */
  predicate TriedFirst(m: Span, n: Span) {
    || m.end1 > n.end1
    || (m.end1 == n.end1 && m.start2 > n.start2)
    || (m.end1 == n.end1 && m.start2 == n.start2 && m.end2 >= n.end2)
  }

  /** The match `re.search` reports: leftmost, and tried first at that start. */
  ghost predicate IsReportedMatch(s: string, m: Span) {
    && IsMatch(s, m)
    && forall n :: IsMatch(s, n) ==> m.start < n.start || (m.start == n.start && TriedFirst(m, n))
  }

  predicate HasTwoDigits(s: string) {
    exists a, b :: 0 <= a < b < |s| && IsDigit(s[a]) && IsDigit(s[b])
  }

  /** The first index at or after i that holds a digit, or |s|. */
  function SkipNonDigits(s: string, i: nat): (j: nat)
    requires i <= |s|
    ensures i <= j <= |s|
    ensures forall t :: i <= t < j ==> !IsDigit(s[t])
    ensures j < |s| ==> IsDigit(s[j])
    decreases |s| - i
  {
    if i == |s| || IsDigit(s[i]) then i else SkipNonDigits(s, i + 1)
  }

  /** The first index at or after i that holds a non-digit, or |s|. */
  function SkipDigits(s: string, i: nat): (j: nat)
    requires i <= |s|
    ensures i <= j <= |s|
    ensures forall t :: i <= t < j ==> IsDigit(s[t])
    ensures j < |s| ==> !IsDigit(s[j])
    decreases |s| - i
  {
    if i == |s| || !IsDigit(s[i]) then i else SkipDigits(s, i + 1)
  }

  /** With a second digit run, the groups are the first two runs; with a
      single run, group 1 is that run without its last digit and group 2 is
      that last digit. */
  function Search(s: string): (r: Option<Span>)
    ensures r.Some? ==> IsMatch(s, r.value)
  {
    var p := SkipNonDigits(s, 0);
    if p == |s| then None
    else
      var e := SkipDigits(s, p);
      var q := SkipNonDigits(s, e);
      if q < |s| then Some(Span(p, e, q, SkipDigits(s, q)))
      else if e - p >= 2 then Some(Span(p, e - 1, e - 1, e))
      else None
  }

  /** Every match starts on a digit and has a second digit at start2. */
  lemma MatchDigits(s: string, n: Span)
    requires IsMatch(s, n)
    ensures IsDigit(s[n.start]) && IsDigit(s[n.start2])
    ensures forall t :: n.start <= t < n.end1 ==> IsDigit(s[t])
    ensures forall t :: n.end1 <= t < n.start2 ==> !IsDigit(s[t])
    ensures forall t :: n.start2 <= t < n.end2 ==> IsDigit(s[t])
  {
    assert s[n.start..n.end1][0] == s[n.start];
    assert s[n.start2..n.end2][0] == s[n.start2];
    forall t | n.start <= t < n.end1 ensures IsDigit(s[t]) {
      assert s[n.start..n.end1][t - n.start] == s[t];
    }
    forall t | n.end1 <= t < n.start2 ensures !IsDigit(s[t]) {
      assert s[n.end1..n.start2][t - n.end1] == s[t];
    }
    forall t | n.start2 <= t < n.end2 ensures IsDigit(s[t]) {
      assert s[n.start2..n.end2][t - n.start2] == s[t];
    }
  }

  /** A successful search reports exactly the match Python's engine reports. */
  lemma SearchIsReported(s: string)
    requires Search(s).Some?
    ensures IsReportedMatch(s, Search(s).value)
  {
    var m := Search(s).value;
    var p := SkipNonDigits(s, 0);
    var e := SkipDigits(s, p);
    var q := SkipNonDigits(s, e);
    forall n | IsMatch(s, n)
      ensures m.start < n.start || (m.start == n.start && TriedFirst(m, n))
    {
      MatchDigits(s, n);
      assert p <= n.start;
      if n.start == p {
        // group 1 cannot run past the first non-digit after p
        assert n.end1 <= e;
        if q < |s| {
          if n.end1 == e {
            assert n.start2 <= q;
            if n.start2 == q {
              assert n.end2 <= SkipDigits(s, q);
            }
          }
        } else {
          // no digit after the first run, so group 2 lies inside it
          assert n.start2 < e;
          assert n.end1 <= e - 1;
          if n.end1 == e - 1 {
            assert n.start2 == e - 1;
            assert n.end2 <= e;
          }
        }
      }
    }
  }

  /** A failed search means the pattern matches nowhere. */
  lemma SearchNoneMeansNoMatch(s: string)
    requires Search(s).None?
    ensures forall n :: !IsMatch(s, n)
  {
    var p := SkipNonDigits(s, 0);
    forall n | IsMatch(s, n) ensures false {
      MatchDigits(s, n);
    }
  }

  /** The pattern matches exactly when the text holds at least two digits. */
  lemma SearchIffTwoDigits(s: string)
    ensures Search(s).Some? <==> HasTwoDigits(s)
  {
    if Search(s).Some? {
      var m := Search(s).value;
      MatchDigits(s, m);
      assert 0 <= m.start < m.start2 < |s|;
    }
  }

  /** int(group(1)), int(group(2)) of the reported match, if any. */
  function ExtractSalary(s: string): (r: Option<(nat, nat)>)
  {
    match Search(s)
    case None => None
    case Some(m) => Some((DecimalValue(s[m.start..m.end1]), DecimalValue(s[m.start2..m.end2])))
  }

  /** The salary average `(salary_from + salary_to) / 2`, exact in the reals. */
  function Average(lower: nat, upper: nat): real {
    (lower + upper) as real / 2.0
  }

  /** A run of digits from i that ends at j (a non-digit or the end) is
      what `SkipDigits` skips. */
  lemma SkipDigitsTo(s: string, i: nat, j: nat)
    requires i <= j <= |s|
    requires forall t :: i <= t < j ==> IsDigit(s[t])
    requires j < |s| ==> !IsDigit(s[j])
    ensures SkipDigits(s, i) == j
  {
  }

  /** A run of non-digits from i that ends at j (a digit or the end) is what
      `SkipNonDigits` skips. */
  lemma SkipNonDigitsTo(s: string, i: nat, j: nat)
    requires i <= j <= |s|
    requires forall t :: i <= t < j ==> !IsDigit(s[t])
    requires j < |s| ==> IsDigit(s[j])
    ensures SkipNonDigits(s, i) == j
  {
  }

  /** The search on a text whose digit runs are given by index: non-digits
      before i, digits on [i, e), non-digits on [e, q), digits on [q, f) and
      no digit at f. */
  lemma SearchTwoRuns(s: string, i: nat, e: nat, q: nat, f: nat)
    requires i < e < q < f <= |s|
    requires forall t :: 0 <= t < i ==> !IsDigit(s[t])
    requires forall t :: i <= t < e ==> IsDigit(s[t])
    requires forall t :: e <= t < q ==> !IsDigit(s[t])
    requires forall t :: q <= t < f ==> IsDigit(s[t])
    requires f < |s| ==> !IsDigit(s[f])
    ensures Search(s) == Some(Span(i, e, q, f))
  {
    SkipNonDigitsTo(s, 0, i);
    SkipDigitsTo(s, i, e);
    SkipNonDigitsTo(s, e, q);
    SkipDigitsTo(s, q, f);
  }

  /** The search on a text with a single digit run [i, e) of length at least 2. */
  lemma SearchOneRun(s: string, i: nat, e: nat)
    requires i + 2 <= e <= |s|
    requires forall t :: 0 <= t < i ==> !IsDigit(s[t])
    requires forall t :: i <= t < e ==> IsDigit(s[t])
    requires forall t :: e <= t < |s| ==> !IsDigit(s[t])
    ensures Search(s) == Some(Span(i, e - 1, e - 1, e))
  {
    SkipNonDigitsTo(s, 0, i);
    SkipDigitsTo(s, i, e);
    SkipNonDigitsTo(s, e, |s|);
  }

  /** Where y follows x at the front of s, s holds y at offset |x|. */
  lemma PieceAt(s: string, x: string, y: string)
    requires |x| + |y| <= |s| && s[..|x| + |y|] == x + y
    ensures s[|x|..|x| + |y|] == y
    ensures forall t :: |x| <= t < |x| + |y| ==> s[t] == y[t - |x|]
  {
    assert s[|x|..|x| + |y|] == (x + y)[|x|..];
  }

  /** Two digit runs: after a digit-free prefix p, the digits a, a non-empty
      digit-free gap and the digits b, followed by anything not starting with
      a digit, yield the values of a and b. Only the first two runs count. */
  lemma ExtractTwoRuns(p: string, a: string, gap: string, b: string, tail: string)
    requires NoDigits(p)
    requires |a| >= 1 && AllDigits(a)
    requires |gap| >= 1 && NoDigits(gap)
    requires |b| >= 1 && AllDigits(b)
    requires tail == [] || !IsDigit(tail[0])
    ensures ExtractSalary(p + a + gap + b + tail) == Some((DecimalValue(a), DecimalValue(b)))
  {
    var pa := p + a;
    var pag := pa + gap;
    var pagb := pag + b;
    var s := pagb + tail;
    assert s[..|pagb|] == pagb;
    assert s[..|pag|] == pag;
    assert s[..|pa|] == pa;
    PieceAt(s, [], p);
    PieceAt(s, p, a);
    PieceAt(s, pa, gap);
    PieceAt(s, pag, b);
    PieceAt(s, pagb, tail);
    SearchTwoRuns(s, |p|, |pa|, |pag|, |pagb|);
  }

  /** A single digit run after a digit-free prefix, with no digit after it:
      group 1 is the run without its last digit, and group 2 is that digit. */
  lemma ExtractOneRun(p: string, a: string, tail: string)
    requires NoDigits(p) && NoDigits(tail)
    requires |a| >= 2 && AllDigits(a)
    ensures ExtractSalary(p + a + tail)
      == Some((DecimalValue(a[..|a| - 1]), DecimalValue(a[|a| - 1..])))
  {
    var pa := p + a;
    var s := pa + tail;
    var e := |pa|;
    assert s[..e] == pa;
    PieceAt(s, [], p);
    PieceAt(s, p, a);
    PieceAt(s, pa, tail);
    SearchOneRun(s, |p|, e);
    assert s[|p|..e - 1] == a[..|a| - 1];
    assert s[e - 1..e] == a[|a| - 1..];
  }

}
