/** The hunk header pattern as a grammar: which lines match it, and what they say. */
module PatchHeader {
  import opened Text
  import opened PatchSyntax

  // ----- the pattern, in its own terms -----

  predicate IsDigit(c: char)
  {
    '0' <= c <= '9'
  }

  predicate IsBlank(c: char)
  {
    c in [' ', '\t', '\n', '\U{000C}', '\r']
  }

  /** \s+ from i to j. */
  predicate Blanks(line: string, i: nat, j: nat)
  {
    i < j <= |line| && forall k :: i <= k < j ==> IsBlank(line[k])
  }

  /** \d+ from i to j. */
  predicate Digits(line: string, i: nat, j: nat)
  {
    i < j <= |line| && forall k :: i <= k < j ==> IsDigit(line[k])
  }

  /** \s+, the sign at sign, \d+ up to digits, and (?:,(\d+))? up to end. */
  datatype Marks = Marks(sign: nat, digits: nat, end: nat)

  predicate MatchesRange(line: string, i: nat, sign: char, m: Marks)
  {
    && Blanks(line, i, m.sign) && m.sign < |line| && line[m.sign] == sign
    && Digits(line, m.sign + 1, m.digits)
    && (m.end == m.digits || (m.digits < |line| && line[m.digits] == ',' && Digits(line, m.digits + 1, m.end)))
  }

  /** ^@@, a range with '-', a range with '+', \s+ up to close, and @@. */
  predicate Matches(line: string, one: Marks, two: Marks, close: nat)
  {
    && |line| >= 2 && line[0] == '@' && line[1] == '@'
    && MatchesRange(line, 2, '-', one) && MatchesRange(line, one.end, '+', two)
    && Blanks(line, two.end, close)
    && close + 2 <= |line| && line[close] == '@' && line[close + 1] == '@'
  }

  /** The number the digits stand for, as Atoi reads it when its error is ignored. */
  function Number(digits: string): nat
    requires forall k :: 0 <= k < |digits| ==> IsDigit(digits[k])
  {
    if digits == "" then 0
    else
      assert IsDigit(digits[|digits| - 1]);
      10 * Number(digits[..|digits| - 1]) + (digits[|digits| - 1] as int - '0' as int)
  }

  function OldStart(line: string, one: Marks): nat
    requires one.sign < one.digits <= |line| && Digits(line, one.sign + 1, one.digits)
  {
    var n := Number(line[one.sign + 1..one.digits]);
    if n > 0x7FFF_FFFF_FFFF_FFFF then 0x7FFF_FFFF_FFFF_FFFF else n
  }

  // ----- the scanner follows it -----

  lemma Classes(c: char)
    ensures IsDigit(c) <==> DIGITS.Has(c)
    ensures IsBlank(c) <==> BLANKS.Has(c)
    ensures c == '-' || c == '+' || c == ',' || c == '@' ==> !IsDigit(c) && !IsBlank(c)
    ensures IsBlank(c) ==> !IsDigit(c)
  {
  }

  lemma SpanIs(line: string, i: nat, j: nat)
    requires j < |line|
    ensures Blanks(line, i, j) && !IsBlank(line[j]) ==> SpanFrom(line, i, BLANKS) == j
    ensures Digits(line, i, j) && !IsDigit(line[j]) ==> SpanFrom(line, i, DIGITS) == j
  {
    forall c: char
      ensures (IsDigit(c) <==> DIGITS.Has(c)) && (IsBlank(c) <==> BLANKS.Has(c))
    {
      Classes(c);
    }
    hide IsDigit, IsBlank;
    if Blanks(line, i, j) && !IsBlank(line[j]) {
      SpanFromExact(line, i, j, BLANKS);
    }
    if Digits(line, i, j) && !IsDigit(line[j]) {
      SpanFromExact(line, i, j, DIGITS);
    }
  }

  /** The scanner finds the range that matches, if a blank follows it. */
  lemma RangeIsFound(line: string, i: nat, sign: char, m: Marks)
    requires (sign == '-' || sign == '+') && MatchesRange(line, i, sign, m)
    requires m.end < |line| && IsBlank(line[m.end])
    ensures i <= |line| && ScanRange(line, i, sign) == Some(Range(m.sign + 1, m.digits, m.end))
  {
    Classes(sign);
    Classes(',');
    Classes(line[m.end]);
    hide IsDigit, IsBlank;
    SpanIs(line, i, m.sign);
    SpanIs(line, m.sign + 1, m.digits);
    if m.end == m.digits {
      assert line[m.digits] != ',';
    } else {
      SpanIs(line, m.digits + 1, m.end);
    }
  }

  /** What the scanner finds matches. */
  lemma FoundRange(line: string, i: nat, sign: char)
    requires i <= |line| && ScanRange(line, i, sign).Some?
    ensures var r := ScanRange(line, i, sign).value; MatchesRange(line, i, sign, Marks(r.from - 1, r.to, r.end))
  {
    var b := SpanFrom(line, i, BLANKS);
    var d := SpanFrom(line, b + 1, DIGITS);
    SpanMatches(line, i);
    SpanMatches(line, b + 1);
    if d < |line| {
      SpanMatches(line, d + 1);
    }
    hide Blanks, Digits;
  }

  lemma SpanMatches(line: string, i: nat)
    requires i <= |line|
    ensures SpanFrom(line, i, BLANKS) > i ==> Blanks(line, i, SpanFrom(line, i, BLANKS))
    ensures SpanFrom(line, i, DIGITS) > i ==> Digits(line, i, SpanFrom(line, i, DIGITS))
  {
    SpanFromHas(line, i, BLANKS);
    SpanFromHas(line, i, DIGITS);
    forall c: char
      ensures (IsDigit(c) <==> DIGITS.Has(c)) && (IsBlank(c) <==> BLANKS.Has(c))
    {
      Classes(c);
    }
    hide IsDigit, IsBlank;
  }

  lemma {:induction false} NumberIsValue(digits: string)
    requires forall k :: 0 <= k < |digits| ==> IsDigit(digits[k])
    ensures AllDigits(digits) && Value(digits) == Number(digits)
  {
    if digits != "" {
      NumberIsValue(digits[..|digits| - 1]);
    }
  }

  lemma StartIs(line: string, one: Marks)
    requires one.sign < one.digits <= |line| && Digits(line, one.sign + 1, one.digits)
    requires ScanHeader(line) == Some(Range(one.sign + 1, one.digits, one.end))
    ensures HeaderStart(line) == Some(OldStart(line, one))
  {
    NumberIsValue(line[one.sign + 1..one.digits]);
  }

  lemma Opens(line: string)
    ensures StartsWith(line, "@@") <==> |line| >= 2 && line[0] == '@' && line[1] == '@'
  {
    var mark := "@@";
    assert |mark| == 2 && mark[0] == '@' && mark[1] == '@';
  }

  lemma MatchIsFound(line: string, one: Marks, two: Marks, close: nat)
    requires Matches(line, one, two, close)
    ensures ScanHeader(line) == Some(Range(one.sign + 1, one.digits, one.end))
  {
    hide IsDigit, IsBlank, ScanRange, StartsWith;
    Classes('@');
    Opens(line);
    RangeIsFound(line, 2, '-', one);
    RangeIsFound(line, one.end, '+', two);
    SpanIs(line, two.end, close);
  }

  lemma FoundMatches(line: string) returns (one: Marks, two: Marks, close: nat)
    requires ScanHeader(line).Some?
    ensures Matches(line, one, two, close)
    ensures ScanHeader(line) == Some(Range(one.sign + 1, one.digits, one.end))
  {
    var r := ScanHeader(line).value;
    var q := ScanRange(line, r.end, '+').value;
    one, two := Marks(r.from - 1, r.to, r.end), Marks(q.from - 1, q.to, q.end);
    close := SpanFrom(line, q.end, BLANKS);
    hide IsDigit, IsBlank, StartsWith, ScanRange;
    Opens(line);
    FoundRange(line, 2, '-');
    FoundRange(line, r.end, '+');
    SpanMatches(line, q.end);
    hide Blanks, Digits;
  }

  /** A line is taken for a hunk header exactly when it matches the pattern, and the start
      that is used is the first number in it. */
  lemma HeaderExactly(line: string, start: nat)
    ensures HeaderStart(line) == Some(start)
       <==> exists one, two, close :: Matches(line, one, two, close) && start == OldStart(line, one)
  {
    hide ScanHeader, HeaderStart, Number, IsDigit, IsBlank;
    if HeaderStart(line) == Some(start) {
      StartFound(line);
      var one, two, close := FoundMatches(line);
      StartAgrees(line, one, two, close);
    }
    forall one, two, close | Matches(line, one, two, close) && start == OldStart(line, one)
      ensures HeaderStart(line) == Some(start)
    {
      MatchIsFound(line, one, two, close);
      StartAgrees(line, one, two, close);
    }
  }

  lemma StartFound(line: string)
    ensures HeaderStart(line).Some? <==> ScanHeader(line).Some?
  {
  }

  lemma StartAgrees(line: string, one: Marks, two: Marks, close: nat)
    requires Matches(line, one, two, close)
    requires ScanHeader(line) == Some(Range(one.sign + 1, one.digits, one.end))
    ensures HeaderStart(line) == Some(OldStart(line, one))
  {
    hide ScanHeader, HeaderStart;
    StartIs(line, one);
  }
}
