/**
 * The pure helpers of htmlAgilityPack.cs: the salary parser `ParseSalary`
 * (230-281) and the experience classifier `GetExperienceLevel` (304-323).
 */
module HHParser {
  import opened Text
  import opened Wrappers

  /** `Int32.MaxValue`. */
  const MaxInt32: int := 0x7FFF_FFFF

  /** The two out parameters of `ParseSalary`. */
  datatype SalaryRange = SalaryRange(from: int, to: int)

  /** `int.TryParse` applied to a string of ASCII digits: it fails on the empty
      string and on a value above `Int32.MaxValue`. */
  function TryParseDigits(ds: string): (r: Option<int>)
    requires AllDigits(ds)
    ensures r.Some? ==> 0 <= r.value <= MaxInt32
  {
    if ds == [] || DecimalValue(ds) > MaxInt32 then None else Some(DecimalValue(ds))
  }

  /** The value `ParseSalary` stores from a digit string: the parsed number,
      or 0 when parsing fails and the out parameter keeps its initial 0. */
  function ParsedOrZero(ds: string): (v: int)
    requires AllDigits(ds)
    ensures 0 <= v <= MaxInt32
  {
    match TryParseDigits(ds)
    case Some(n) => n
    case None => 0
  }

  /** `salaryText.Replace(" ", "").Replace("руб.", "").Replace("₽", "")`. */
  function CleanSalaryText(s: string): string {
    RemoveAll(RemoveAll(RemoveAll(s, " "), "руб."), "₽")
  }

  predicate IsDash(c: char) {
    c == '–' || c == '-'
  }

  /** `s.Split(new[] { '–', '-' })`: the pieces between dashes, empty ones
      included; there is always at least one piece. */
  function SplitOnDashes(s: string): (parts: seq<string>)
    ensures |parts| >= 1
    decreases |s|
  {
    if s == [] then [""]
    else
      var rest := SplitOnDashes(s[1..]);
      if IsDash(s[0]) then [""] + rest else [[s[0]] + rest[0]] + rest[1..]
  }

  /** `StringSplitOptions.RemoveEmptyEntries`. */
  function NonEmpty(parts: seq<string>): (r: seq<string>)
    ensures forall i :: 0 <= i < |r| ==> r[i] != ""
    decreases |parts|
  {
    if parts == [] then []
    else (if parts[0] == "" then [] else [parts[0]]) + NonEmpty(parts[1..])
  }

  function DashParts(s: string): seq<string> {
    NonEmpty(SplitOnDashes(s))
  }

  /** `ParseSalary(salaryText, out salaryFrom, out salaryTo)`. The try/catch
      of the source never fires for a non-null text and is not modelled. */
  function ParseSalary(salaryText: string): (r: SalaryRange)
    ensures 0 <= r.from <= MaxInt32 && 0 <= r.to <= MaxInt32
  {
    ParseCleaned(CleanSalaryText(salaryText))
  }

  /** The four shapes of `ParseSalary`, applied to the cleaned text; the
      dash test comes first. */
  function ParseCleaned(text: string): (r: SalaryRange)
    ensures 0 <= r.from <= MaxInt32 && 0 <= r.to <= MaxInt32
  {
    if HasDash(text) then DashCase(text)
    else if Contains(text, "от") then FromCase(text)
    else if Contains(text, "до") then UpToCase(text)
    else AmountCase(text)
  }

  predicate HasDash(text: string) {
    Contains(text, "–") || Contains(text, "-")
  }

  /** A range: the digits of the first two non-empty pieces between dashes. */
  function DashCase(text: string): (r: SalaryRange)
    ensures 0 <= r.from <= MaxInt32 && 0 <= r.to <= MaxInt32
  {
    var parts := DashParts(text);
    if |parts| >= 2 then SalaryRange(ParsedOrZero(Digits(parts[0])), ParsedOrZero(Digits(parts[1])))
    else SalaryRange(0, 0)
  }

  /** "от ...": only the lower bound, from the text without "от". */
  function FromCase(text: string): (r: SalaryRange)
    ensures 0 <= r.from <= MaxInt32 && r.to == 0
  {
    SalaryRange(ParsedOrZero(Digits(RemoveAll(text, "от"))), 0)
  }

  /** "до ...": only the upper bound, from the text without "до". */
  function UpToCase(text: string): (r: SalaryRange)
    ensures r.from == 0 && 0 <= r.to <= MaxInt32
  {
    SalaryRange(0, ParsedOrZero(Digits(RemoveAll(text, "до"))))
  }

  /** A plain amount: both bounds, or neither when it does not parse. */
  function AmountCase(text: string): (r: SalaryRange)
    ensures r.from == r.to && 0 <= r.from <= MaxInt32
  {
    match TryParseDigits(Digits(text))
    case Some(amount) => SalaryRange(amount, amount)
    case None => SalaryRange(0, 0)
  }

  // ---------------------------------------------------------------------------
  // Splitting on dashes

  /** A dash-free piece followed by a dash starts the split. */
  lemma {:induction false} SplitAfterPiece(a: string, rest: string)
    requires forall i :: 0 <= i < |a| ==> !IsDash(a[i])
    requires |rest| >= 1 && IsDash(rest[0])
    ensures SplitOnDashes(a + rest) == [a] + SplitOnDashes(rest[1..])
    decreases |a|
  {
    if a == [] {
      assert a + rest == rest;
    } else {
      assert (a + rest)[0] == a[0];
      assert (a + rest)[1..] == a[1..] + rest;
      SplitAfterPiece(a[1..], rest);
      assert [a[0]] + a[1..] == a;
    }
  }

  /** A dash-free text is a single piece. */
  lemma {:induction false} SplitNoDash(a: string)
    requires forall i :: 0 <= i < |a| ==> !IsDash(a[i])
    ensures SplitOnDashes(a) == [a]
    decreases |a|
  {
    if a != [] {
      SplitNoDash(a[1..]);
      assert [a[0]] + a[1..] == a;
    }
  }

  // ---------------------------------------------------------------------------
  // Properties

  /** Cleaning never drops a digit. */
  lemma CleanKeepsDigits(s: string)
    ensures Digits(CleanSalaryText(s)) == Digits(s)
  {
    var t1 := RemoveAll(s, " ");
    var t2 := RemoveAll(t1, "руб.");
    RemoveAllKeepsDigits(s, " ");
    RemoveAllKeepsDigits(t1, "руб.");
    RemoveAllKeepsDigits(t2, "₽");
  }

  /** Without a dash, every branch reads the digits of the whole cleaned text. */
  lemma NonDashCleaned(t: string)
    requires !HasDash(t)
    ensures var v := ParsedOrZero(Digits(t));
      ParseCleaned(t) ==
        if Contains(t, "от") then SalaryRange(v, 0)
        else if Contains(t, "до") then SalaryRange(0, v)
        else SalaryRange(v, v)
  {
    RemoveAllKeepsDigits(t, "от");
    RemoveAllKeepsDigits(t, "до");
  }

  /** Only the digit characters of the original text decide the numbers of
      the `от`, `до` and plain-amount branches: cleaning and removing `от` or
      `до` never drop a digit. */
  lemma NonDashBranches(salaryText: string)
    requires !HasDash(CleanSalaryText(salaryText))
    ensures var v := ParsedOrZero(Digits(salaryText));
      ParseSalary(salaryText) ==
        if Contains(CleanSalaryText(salaryText), "от") then SalaryRange(v, 0)
        else if Contains(CleanSalaryText(salaryText), "до") then SalaryRange(0, v)
        else SalaryRange(v, v)
  {
    NonDashCleaned(CleanSalaryText(salaryText));
    CleanKeepsDigits(salaryText);
  }

  /** No character of x is removed by the cleaning step. */
  predicate Uncleaned(x: string) {
    forall i :: 0 <= i < |x| ==> x[i] != ' ' && x[i] != 'р' && x[i] != '₽'
  }

  /** A prefix that the cleaning step cannot touch passes through it. */
  lemma CleanKeepsPrefix(x: string, y: string)
    requires Uncleaned(x)
    ensures CleanSalaryText(x + y) == x + CleanSalaryText(y)
  {
    RemoveAllSkip(x, y, " ");
    RemoveAllSkip(x, RemoveAll(y, " "), "руб.");
    RemoveAllSkip(x, RemoveAll(RemoveAll(y, " "), "руб."), "₽");
  }

  /** Cleaning only deletes characters. */
  lemma CleanChars(s: string)
    ensures forall c :: c in CleanSalaryText(s) ==> c in s
  {
    RemoveAllChars(s, " ");
    RemoveAllChars(RemoveAll(s, " "), "руб.");
    RemoveAllChars(RemoveAll(RemoveAll(s, " "), "руб."), "₽");
  }

  /** A text cannot contain sub if it lacks one of sub's characters. */
  lemma NotContainedWithoutChar(t: string, sub: string, k: nat)
    requires k < |sub| && sub[k] !in t
    ensures !Contains(t, sub)
  {
    ContainsIffOccurs(t, sub);
  }

  predicate NoDash(s: string) {
    '-' !in s && '–' !in s
  }

  /** The dash branch is taken exactly when a dash survives the cleaning,
      which happens only if the text holds one. */
  lemma NoDashAfterCleaning(s: string)
    requires NoDash(s)
    ensures !HasDash(CleanSalaryText(s))
  {
    CleanChars(s);
    NotContainedWithoutChar(CleanSalaryText(s), "–", 0);
    NotContainedWithoutChar(CleanSalaryText(s), "-", 0);
  }

  /** A dash-free text opening with "от" sets only the lower bound, read from
      all digits of the text. */
  lemma FromBranch(rest: string)
    requires NoDash(rest)
    ensures ParseSalary("от" + rest) == SalaryRange(ParsedOrZero(Digits(rest)), 0)
  {
    var s := "от" + rest;
    CleanKeepsPrefix("от", rest);
    assert StartsWith(CleanSalaryText(s), "от");
    NoDashAfterCleaning(s);
    assert Contains(CleanSalaryText(s), "от");
    NonDashBranches(s);
    DigitsAppend("от", rest);
    DigitsOfNonDigits("от");
    assert Digits(s) == Digits(rest);
  }

  /** A dash-free text opening with "до" whose cleaned form has no "от"
      sets only the upper bound, read from all digits of the text. */
  lemma UpToBranch(rest: string)
    requires NoDash(rest) && !Contains(CleanSalaryText("до" + rest), "от")
    ensures ParseSalary("до" + rest) == SalaryRange(0, ParsedOrZero(Digits(rest)))
  {
    var s := "до" + rest;
    CleanKeepsPrefix("до", rest);
    assert StartsWith(CleanSalaryText(s), "до");
    NoDashAfterCleaning(s);
    assert Contains(CleanSalaryText(s), "до");
    NonDashBranches(s);
    DigitsAppend("до", rest);
    DigitsOfNonDigits("до");
    assert Digits(s) == Digits(rest);
  }

  /** A bare amount is both bounds. */
  lemma PlainAmount(n: nat)
    requires n <= MaxInt32
    ensures ParseSalary(NatToString(n)) == SalaryRange(n, n)
  {
    var a := NatToString(n);
    assert forall c :: c in a ==> IsDigit(c);
    CleanKeepsPrefix(a, "");
    assert a + "" == a;
    NoDashAfterCleaning(a);
    NotContainedWithoutChar(a, "от", 0);
    NotContainedWithoutChar(a, "до", 0);
    NonDashBranches(a);
    DigitsOfDigits(a);
    DecimalRoundTrip(n);
  }

  /** A rendered amount that fits an `int` parses back to itself. */
  lemma ParsedAmount(n: nat)
    requires n <= MaxInt32
    ensures ParsedOrZero(NatToString(n)) == n
  {
    DecimalRoundTrip(n);
  }

  /** A space in front of an amount holds no digit and no dash. */
  lemma SpacedAmount(a: string)
    requires AllDigits(a)
    ensures Digits(" " + a) == a
    ensures NoDash(" " + a) && 'т' !in " " + a
  {
    DigitsAppend(" ", a);
    DigitsOfNonDigits(" ");
    DigitsOfDigits(a);
    assert forall c :: c in " " + a ==> c == ' ' || IsDigit(c);
  }

  /** "от N" reads N as the lower bound. */
  lemma FromAmount(n: nat)
    requires n <= MaxInt32
    ensures ParseSalary("от " + NatToString(n)) == SalaryRange(n, 0)
  {
    var a := NatToString(n);
    var rest := " " + a;
    assert "от " + a == "от" + rest;
    SpacedAmount(a);
    FromBranch(rest);
    ParsedAmount(n);
  }

  /** "до N" reads N as the upper bound. */
  lemma UpToAmount(n: nat)
    requires n <= MaxInt32
    ensures ParseSalary("до " + NatToString(n)) == SalaryRange(0, n)
  {
    var a := NatToString(n);
    var rest := " " + a;
    assert "до " + a == "до" + rest;
    SpacedAmount(a);
    assert 'т' !in "до" + rest;
    CleanChars("до" + rest);
    NotContainedWithoutChar(CleanSalaryText("до" + rest), "от", 1);
    UpToBranch(rest);
    ParsedAmount(n);
  }

  /** Cleaning a text made of digits, a dash and the suffix " руб." leaves the
      digits and the dash. */
  lemma CleanRange(a: string, b: string)
    requires AllDigits(a) && AllDigits(b)
    ensures CleanSalaryText(a + "-" + b + " руб.") == a + "-" + b
  {
    var x := a + "-" + b;
    assert Uncleaned(x) by {
      forall i | 0 <= i < |x| ensures x[i] != ' ' && x[i] != 'р' && x[i] != '₽' {
        if i < |a| { assert x[i] == a[i]; }
        else if i > |a| { assert x[i] == b[i - |a| - 1]; }
      }
    }
    assert a + "-" + b + " руб." == x + " руб.";
    CleanKeepsPrefix(x, " руб.");
    assert " руб." == " " + "руб.";
    RemoveAllFront("руб.", " ");
    RemoveAllSkip("руб.", "", " ");
    assert "руб." + "" == "руб.";
    assert RemoveAll("руб.", "руб.") == [] by {
      assert "руб." == "руб." + "";
      RemoveAllFront("", "руб.");
    }
    assert x + [] == x;
  }

  /** The text the Python generator produces, "L-U руб.", is read back as the
      range (L, U) whenever both bounds fit an `int`. */
  lemma ParseSalaryRangeRoundTrip(lower: nat, upper: nat)
    requires lower <= MaxInt32 && upper <= MaxInt32
    ensures ParseSalary(NatToString(lower) + "-" + NatToString(upper) + " руб.") == SalaryRange(lower, upper)
  {
    var a, b := NatToString(lower), NatToString(upper);
    CleanRange(a, b);
    assert forall c :: c in a + b ==> IsDigit(c);
    RangeParts(a, b);
    DigitsOfDigits(a);
    DigitsOfDigits(b);
    DecimalRoundTrip(lower);
    DecimalRoundTrip(upper);
  }

  /** "A-B" splits into the pieces A and B. */
  lemma RangeParts(a: string, b: string)
    requires NoDash(a) && NoDash(b) && a != [] && b != []
    ensures Contains(a + "-" + b, "-")
    ensures DashParts(a + "-" + b) == [a, b]
  {
    var t := a + "-" + b;
    assert OccursAt(t, "-", |a|);
    ContainsIffOccurs(t, "-");
    assert t == a + ("-" + b);
    assert forall i :: 0 <= i < |a| ==> a[i] in a;
    assert forall i :: 0 <= i < |b| ==> b[i] in b;
    SplitAfterPiece(a, "-" + b);
    assert ("-" + b)[1..] == b;
    SplitNoDash(b);
    assert SplitOnDashes(t) == [a, b];
    assert [a, b][1..] == [b];
    assert NonEmpty([b]) == [b];
  }

  /** Pieces made empty by a run of dashes are dropped: a run of dashes in
      front of a text changes nothing in the pieces kept. */
  lemma {:induction false} DashRunDropped(run: string, u: string)
    requires forall i :: 0 <= i < |run| ==> IsDash(run[i])
    ensures DashParts(run + u) == DashParts(u)
    decreases |run|
  {
    if run != [] {
      var v := run[1..] + u;
      assert run + u == [run[0]] + v;
      assert ([run[0]] + v)[1..] == v;
      assert SplitOnDashes(run + u) == [""] + SplitOnDashes(v);
      assert NonEmpty([""] + SplitOnDashes(v)) == NonEmpty(SplitOnDashes(v)) by {
        assert ([""] + SplitOnDashes(v))[1..] == SplitOnDashes(v);
      }
      DashRunDropped(run[1..], u);
    } else {
      assert run + u == u;
    }
  }

  /** A non-empty piece in front is kept as the first piece. */
  lemma NonEmptyFront(a: string, ps: seq<string>)
    requires a != []
    ensures NonEmpty([a] + ps) == [a] + NonEmpty(ps)
  {
    assert ([a] + ps)[1..] == ps;
  }

  /** A dash-free piece ended by a dash or by the end of the text is the
      first piece kept. */
  lemma FirstPiece(b: string, rest: string)
    requires b != [] && NoDash(b)
    requires rest == [] || IsDash(rest[0])
    ensures |DashParts(b + rest)| >= 1 && DashParts(b + rest)[0] == b
  {
    assert forall i :: 0 <= i < |b| ==> b[i] in b;
    if rest == [] {
      assert b + rest == b;
      SplitNoDash(b);
      NonEmptyFront(b, []);
    } else {
      SplitAfterPiece(b, rest);
      NonEmptyFront(b, SplitOnDashes(rest[1..]));
    }
  }

  /** Two dash-free pieces separated by a run of dashes are the first two
      pieces kept. */
  lemma TwoPieces(a: string, sep: string, b: string, rest: string)
    requires a != [] && b != [] && NoDash(a) && NoDash(b)
    requires |sep| >= 1 && forall i :: 0 <= i < |sep| ==> IsDash(sep[i])
    requires rest == [] || IsDash(rest[0])
    ensures DashParts(a + (sep + (b + rest))) == [a] + DashParts(b + rest)
  {
    var tail := sep + (b + rest);
    assert forall i :: 0 <= i < |a| ==> a[i] in a;
    SplitAfterPiece(a, tail);
    assert tail[1..] == sep[1..] + (b + rest);
    NonEmptyFront(a, SplitOnDashes(tail[1..]));
    DashRunDropped(sep[1..], b + rest);
  }

  /** A dash of either kind anywhere in the text selects the dash branch. */
  lemma DashFound(t: string, k: nat)
    requires k < |t| && IsDash(t[k])
    ensures HasDash(t)
  {
    if t[k] == '-' {
      assert OccursAt(t, "-", k);
      ContainsIffOccurs(t, "-");
    } else {
      assert OccursAt(t, "–", k);
      ContainsIffOccurs(t, "–");
    }
  }

  /** The pieces kept from a range with leading dashes and a tail. */
  lemma RangePieces(lead: string, a: string, sep: string, b: string, rest: string)
    requires forall i :: 0 <= i < |lead| ==> IsDash(lead[i])
    requires a != [] && b != [] && NoDash(a) && NoDash(b)
    requires |sep| >= 1 && forall i :: 0 <= i < |sep| ==> IsDash(sep[i])
    requires rest == [] || IsDash(rest[0])
    ensures var parts := DashParts(lead + a + sep + b + rest);
      |parts| >= 2 && parts[0] == a && parts[1] == b
  {
    assert lead + a + sep + b + rest == lead + (a + (sep + (b + rest)));
    DashRunDropped(lead, a + (sep + (b + rest)));
    TwoPieces(a, sep, b, rest);
    FirstPiece(b, rest);
  }

  /** The dash case in general: after any run of leading dashes, the first
      two non-empty pieces a and b, separated by one or more dashes of either
      kind, give the range; a later dash and anything after it are ignored. */
  lemma DashRange(lead: string, a: string, sep: string, b: string, rest: string)
    requires forall i :: 0 <= i < |lead| ==> IsDash(lead[i])
    requires a != [] && b != [] && NoDash(a) && NoDash(b)
    requires |sep| >= 1 && forall i :: 0 <= i < |sep| ==> IsDash(sep[i])
    requires rest == [] || IsDash(rest[0])
    ensures ParseCleaned(lead + a + sep + b + rest)
      == SalaryRange(ParsedOrZero(Digits(a)), ParsedOrZero(Digits(b)))
  {
    var t := lead + a + sep + b + rest;
    assert t[|lead| + |a|] == sep[0];
    DashFound(t, |lead| + |a|);
    RangePieces(lead, a, sep, b, rest);
  }

  /** An en-dash range with a third piece: "100–200–300" reads (100, 200). */
  lemma DashRangeExample()
    ensures ParseCleaned("100–200–300") == SalaryRange(100, 200)
  {
    NatToStringShift(1, 0);
    NatToStringShift(10, 0);
    NatToStringShift(2, 0);
    NatToStringShift(20, 0);
    var a, b := NatToString(100), NatToString(200);
    assert a == "100" && b == "200";
    assert "100–200–300" == [] + a + "–" + b + "–300";
    DigitsHaveNoDash(a);
    DigitsHaveNoDash(b);
    DashRange([], a, "–", b, "–300");
    DigitsOfDigits(a);
    DigitsOfDigits(b);
    ParsedAmount(100);
    ParsedAmount(200);
  }

  /** A leading space is always cleaned away. */
  lemma CleanDropsSpace(y: string)
    ensures CleanSalaryText(" " + y) == CleanSalaryText(y)
  {
    RemoveAllFront(y, " ");
  }

  /** "A-B" with digit strings A and B passes the cleaning step unchanged. */
  lemma CleanDigitRange(a: string, b: string)
    requires AllDigits(a) && AllDigits(b)
    ensures Uncleaned(a + "-" + b)
    ensures CleanSalaryText(a + "-" + b) == a + "-" + b
  {
    var x := a + "-" + b;
    forall i | 0 <= i < |x| ensures x[i] != ' ' && x[i] != 'р' && x[i] != '₽' {
      if i < |a| { assert x[i] == a[i]; }
      else if i > |a| { assert x[i] == b[i - |a| - 1]; }
    }
    CleanKeepsPrefix(x, "");
    assert x + "" == x;
  }

  /** Cleaning "от A-B" only drops the space. */
  lemma CleanFromRange(a: string, b: string)
    requires AllDigits(a) && AllDigits(b)
    ensures CleanSalaryText("от " + a + "-" + b) == "от" + a + "-" + b
  {
    var x := a + "-" + b;
    CleanDigitRange(a, b);
    assert "от " + a + "-" + b == "от" + (" " + x);
    CleanKeepsPrefix("от", " " + x);
    CleanDropsSpace(x);
    assert "от" + x == "от" + a + "-" + b;
  }

  /** The dash test comes first: in "от A-B" the dash wins over "от", and
      the first piece "отA" still yields A. */
  lemma DashBeforeFrom(lower: nat, upper: nat)
    requires lower <= MaxInt32 && upper <= MaxInt32
    ensures ParseSalary("от " + NatToString(lower) + "-" + NatToString(upper)) == SalaryRange(lower, upper)
  {
    var a, b := NatToString(lower), NatToString(upper);
    var s := "от " + a + "-" + b;
    var t := "от" + a + "-" + b;
    CleanFromRange(a, b);
    assert ParseSalary(s) == ParseCleaned(t);
    DigitsHaveNoDash(a);
    DigitsHaveNoDash(b);
    assert NoDash("от" + a);
    RangeParts("от" + a, b);
    assert HasDash(t);
    DigitsAppend("от", a);
    DigitsOfNonDigits("от");
    DigitsOfDigits(a);
    DigitsOfDigits(b);
    assert Digits("от" + a) == [] + a == a;
    ParsedAmount(lower);
    ParsedAmount(upper);
    assert DashCase(t) == SalaryRange(ParsedOrZero(a), ParsedOrZero(b));
  }

  /** Digits between digit-free separators run together. */
  lemma DigitsAcrossSeparators(p: string, x: string, sep: string, y: string)
    requires NoDigits(p) && NoDigits(sep) && AllDigits(x) && AllDigits(y)
    ensures Digits(p + x + sep + y) == x + y
  {
    DigitsAppend(p, x);
    DigitsOfNonDigits(p);
    DigitsOfDigits(x);
    assert Digits(p + x) == [] + x == x;
    DigitsAppend(p + x, sep);
    DigitsOfNonDigits(sep);
    assert Digits(p + x + sep) == x + [] == x;
    DigitsAppend(p + x + sep, y);
    DigitsOfDigits(y);
  }

  /** The text between "от" and the end of "от A до B". */
  lemma FromUpToRest(x: string, y: string)
    requires AllDigits(x) && AllDigits(y)
    ensures Digits(" " + x + " до " + y) == x + y
    ensures NoDash(" " + x + " до " + y)
  {
    assert NoDigits(" ") && NoDigits(" до ");
    DigitsAcrossSeparators(" ", x, " до ", y);
    DigitsHaveNoDash(x);
    DigitsHaveNoDash(y);
    assert NoDash(" до ") && NoDash(" ");
  }

  lemma DigitsHaveNoDash(x: string)
    requires AllDigits(x)
    ensures NoDash(x)
  {
    assert forall i :: 0 <= i < |x| ==> x[i] != '-' && x[i] != '–';
  }

  lemma Regroup(p: string, q: string, x: string, sep: string, y: string)
    ensures p + q + x + sep + y == p + (q + x + sep + y)
  {
  }

  /** "от A до B" has no dash, so it takes the "от" branch and reads the
      digits of A and B run together as the lower bound. */
  lemma FromUpToConcatenates(a: nat, b: nat)
    ensures ParseSalary("от " + NatToString(a) + " до " + NatToString(b))
      == SalaryRange(ParsedOrZero(NatToString(a) + NatToString(b)), 0)
  {
    var x, y := NatToString(a), NatToString(b);
    var rest := " " + x + " до " + y;
    assert "от " == "от" + " ";
    Regroup("от", " ", x, " до ", y);
    FromUpToRest(x, y);
    FromBranch(rest);
  }

  /** Two amounts whose joined digits exceed `Int32.MaxValue` leave both
      bounds at 0: the joined digits of a and b have the value a * 10^k + b,
      k being the number of digits of b. */
  lemma FromUpToOverflow(a: nat, b: nat)
    requires a * Pow10(|NatToString(b)|) + b > MaxInt32
    ensures ParseSalary("от " + NatToString(a) + " до " + NatToString(b)) == SalaryRange(0, 0)
  {
    FromUpToConcatenates(a, b);
    DecimalValueAppend(NatToString(a), NatToString(b));
    DecimalRoundTrip(a);
    DecimalRoundTrip(b);
  }

  /** The hh.ru shape "от 100000 до 200000" is read as the range (0, 0):
      the digits join to 100000200000, which overflows. */
  lemma FromUpToExample()
    ensures ParseSalary("от " + NatToString(100000) + " до " + NatToString(200000)) == SalaryRange(0, 0)
  {
    NatToStringLength(200000, 5);
    Pow10Monotone(6, |NatToString(200000)|);
    FromUpToOverflow(100000, 200000);
  }

  lemma FromUpToExampleText()
    ensures "от " + NatToString(100000) + " до " + NatToString(200000) == "от 100000 до 200000"
  {
    NatToStringExamples();
  }

  // ---------------------------------------------------------------------------
  // Experience levels

  const NoExperience := "Нет опыта"
  const Junior := "Junior (1-3 года)"
  const Middle := "Middle (3-6 лет)"
  const Senior := "Senior (6+ лет)"
  const Lead := "Lead"
  const Other := "Другой"

  const ExperienceLevels: seq<string> := [NoExperience, Junior, Middle, Senior, Lead, Other]

  /** `GetExperienceLevel(experienceText)`: the first branch whose substring
      occurs in the lower-cased text decides. */
  function GetExperienceLevel(experienceText: string): (level: string)
    ensures level in ExperienceLevels
  {
    var t := ToLower(experienceText);
    if Contains(t, "без опыта") || Contains(t, "нет опыта") || Contains(t, "0 лет") || Contains(t, "стажер") then NoExperience
    else if Contains(t, "1-3") || Contains(t, "1 год") || Contains(t, "до 3 лет") then Junior
    else if Contains(t, "3-6") || Contains(t, "от 3 лет") then Middle
    else if Contains(t, "более 6") || Contains(t, "от 6 лет") || Contains(t, "6+") then Senior
    else if Contains(t, "lead") || Contains(t, "руковод") then Lead
    else Other
  }

  /** The substrings that select each of the first five levels, in the order
      the branches test them. */
  const LevelMarkers: seq<seq<string>> := [
    ["без опыта", "нет опыта", "0 лет", "стажер"],
    ["1-3", "1 год", "до 3 лет"],
    ["3-6", "от 3 лет"],
    ["более 6", "от 6 лет", "6+"],
    ["lead", "руковод"]
  ]

  /** Some marker of level i occurs in t. */
  predicate Hits(t: string, i: nat)
    requires i < |LevelMarkers|
  {
    exists m :: m in LevelMarkers[i] && Contains(t, m)
  }

  // Hits spelled out level by level.

  lemma HitsNoExperience(t: string)
    ensures Hits(t, 0) <==> Contains(t, "без опыта") || Contains(t, "нет опыта") || Contains(t, "0 лет") || Contains(t, "стажер")
  {
    assert LevelMarkers[0] == ["без опыта", "нет опыта", "0 лет", "стажер"];
  }

  lemma HitsJunior(t: string)
    ensures Hits(t, 1) <==> Contains(t, "1-3") || Contains(t, "1 год") || Contains(t, "до 3 лет")
  {
    assert LevelMarkers[1] == ["1-3", "1 год", "до 3 лет"];
  }

  lemma HitsMiddle(t: string)
    ensures Hits(t, 2) <==> Contains(t, "3-6") || Contains(t, "от 3 лет")
  {
    assert LevelMarkers[2] == ["3-6", "от 3 лет"];
  }

  lemma HitsSenior(t: string)
    ensures Hits(t, 3) <==> Contains(t, "более 6") || Contains(t, "от 6 лет") || Contains(t, "6+")
  {
    assert LevelMarkers[3] == ["более 6", "от 6 лет", "6+"];
  }

  lemma HitsLead(t: string)
    ensures Hits(t, 4) <==> Contains(t, "lead") || Contains(t, "руковод")
  {
    assert LevelMarkers[4] == ["lead", "руковод"];
  }

  lemma LevelsDistinct()
    ensures forall i, j :: 0 <= i < j < |ExperienceLevels| ==> ExperienceLevels[i] != ExperienceLevels[j]
  {
    assert |NoExperience| == 9 && |Junior| == 17 && |Middle| == 16 && |Senior| == 15 && |Lead| == 4 && |Other| == 6;
    assert Middle[0] != Senior[0];
  }

  /** Level i is chosen exactly when one of its markers occurs in the
      lower-cased text and no marker of an earlier level does. */
  lemma ExperienceLevelIsFirstHit(s: string, i: nat)
    requires i < |LevelMarkers|
    ensures GetExperienceLevel(s) == ExperienceLevels[i]
      <==> Hits(ToLower(s), i) && forall j :: 0 <= j < i ==> !Hits(ToLower(s), j)
  {
    var t := ToLower(s);
    HitsNoExperience(t);
    HitsJunior(t);
    HitsMiddle(t);
    HitsSenior(t);
    HitsLead(t);
    LevelsDistinct();
  }

  /** "Другой" is chosen exactly when no marker occurs. */
  lemma ExperienceLevelOther(s: string)
    ensures GetExperienceLevel(s) == Other
      <==> forall j :: 0 <= j < |LevelMarkers| ==> !Hits(ToLower(s), j)
  {
    var t := ToLower(s);
    HitsNoExperience(t);
    HitsJunior(t);
    HitsMiddle(t);
    HitsSenior(t);
    HitsLead(t);
    LevelsDistinct();
  }

  /** The classification ignores letter case. */
  lemma ExperienceLevelIgnoresCase(s: string)
    ensures GetExperienceLevel(ToLower(s)) == GetExperienceLevel(s)
  {
    ToLowerIdempotent(s);
  }
}
