/** Options and plain text: newline splitting and joining, spans of a character
    class, and decimal numerals. A char stands for one byte of the Go string; every
    test the program makes on these texts compares with ASCII bytes. */
module Text {

  datatype Option<+T> = None | Some(value: T)

  predicate StartsWith(s: string, prefix: string)
  {
    prefix <= s
  }

  /** No line feed inside: the text is one line. */
  predicate OneLine(s: string)
  {
    '\n' !in s
  }

  predicate Lines(ls: seq<string>)
  {
    forall i :: 0 <= i < |ls| ==> OneLine(ls[i])
  }

  /** strings.Split(s, "\n"): never empty. */
  function Split(s: string): (ls: seq<string>)
    ensures |ls| > 0
    ensures Lines(ls)
  {
    if s == "" then [""]
    else
      var rest := Split(s[1..]);
      if s[0] == '\n' then [""] + rest else [[s[0]] + rest[0]] + rest[1..]
  }

  /** strings.Join(ls, "\n"). */
  function Join(ls: seq<string>): string
  {
    if ls == [] then "" else if |ls| == 1 then ls[0] else ls[0] + "\n" + Join(ls[1..])
  }

  lemma {:induction false} SplitOne(a: string)
    requires OneLine(a)
    ensures Split(a) == [a]
  {
    if a != "" {
      SplitOne(a[1..]);
      assert a == [a[0]] + a[1..];
    }
  }

  lemma {:induction false} SplitCons(a: string, b: string)
    requires OneLine(a)
    ensures Split(a + "\n" + b) == [a] + Split(b)
  {
    var s := a + "\n" + b;
    if a == "" {
      assert s[1..] == b;
    } else {
      assert s[1..] == a[1..] + "\n" + b;
      SplitCons(a[1..], b);
      assert a == [a[0]] + a[1..];
    }
  }

  lemma {:induction false} JoinSplit(s: string)
    ensures Join(Split(s)) == s
  {
    if s != "" {
      JoinSplit(s[1..]);
      var rest := Split(s[1..]);
      if s[0] == '\n' {
        assert ([""] + rest)[1..] == rest;
      } else if |rest| > 1 {
        assert (([[s[0]] + rest[0]]) + rest[1..])[1..] == rest[1..];
      }
    }
  }

  lemma {:induction false} SplitJoin(ls: seq<string>)
    requires ls != [] && Lines(ls)
    ensures Split(Join(ls)) == ls
  {
    if |ls| == 1 {
      SplitOne(ls[0]);
    } else {
      SplitJoin(ls[1..]);
      SplitCons(ls[0], Join(ls[1..]));
      assert ls == [ls[0]] + ls[1..];
    }
  }

  lemma {:induction false} JoinAppend(a: seq<string>, b: seq<string>)
    requires a != [] && b != []
    ensures Join(a + b) == Join(a) + "\n" + Join(b)
  {
    if |a| == 1 {
      assert (a + b)[1..] == b;
    } else {
      JoinAppend(a[1..], b);
      assert (a + b)[1..] == a[1..] + b;
    }
  }

  /** A text that ends its last line with a line feed splits into its lines and "". */
  lemma {:induction false} SplitTerminated(ls: seq<string>)
    requires ls != [] && Lines(ls)
    ensures Split(Join(ls) + "\n") == ls + [""]
  {
    JoinAppend(ls, [""]);
    assert Join(ls) + "\n" == Join(ls + [""]);
    SplitJoin(ls + [""]);
  }

  /** Joining distinguishes line lists of different length. */
  lemma JoinInjective(a: seq<string>, b: seq<string>)
    requires a != [] && b != [] && Lines(a) && Lines(b)
    requires Join(a) == Join(b)
    ensures a == b
  {
    SplitJoin(a);
    SplitJoin(b);
  }

  /** Lines, each ended by a line feed. */
  function Terminated(lines: seq<string>): string
  {
    if lines == [] then "" else lines[0] + "\n" + Terminated(lines[1..])
  }

  /** strings.TrimRight(line, "\r\n"). */
  function TrimEol(line: string): string
  {
    if line != "" && (line[|line| - 1] == '\r' || line[|line| - 1] == '\n') then TrimEol(line[..|line| - 1]) else line
  }

  lemma Assoc<T>(a: seq<T>, b: seq<T>, c: seq<T>)
    ensures a + b + c == a + (b + c)
  {
  }

  /** What is left of s from i on begins with x: there x stands, and behind it the rest. */
  lemma StandsAt<T>(s: seq<T>, i: nat, x: seq<T>, rest: seq<T>)
    requires i <= |s| && s[i..] == x + rest
    ensures i + |x| <= |s| && s[i + |x|..] == rest
    ensures forall k :: 0 <= k < |x| ==> s[i + k] == x[k]
  {
    assert forall k :: 0 <= k < |x| ==> s[i..][k] == x[k];
    assert s[i + |x|..] == s[i..][|x|..];
  }

  lemma SliceAt<T>(s: seq<T>, i: nat, x: seq<T>, rest: seq<T>)
    requires i <= |s| && s[i..] == x + rest
    ensures i + |x| <= |s| && s[i + |x|..] == rest && s[i..i + |x|] == x
  {
    StandsAt(s, i, x, rest);
  }

  // ----- character classes -----

  /** DIGITS and BLANKS are \d and \s of Go's regexp package; SPACES is the ASCII
      white space that strings.TrimSpace removes. */
  datatype Class = DIGITS | BLANKS | SPACES {
    predicate Has(c: char) {
      match this
      case DIGITS => '0' <= c <= '9'
      case BLANKS => c == ' ' || c == '\t' || c == '\n' || c == '\r' || c == '\U{000C}'
      case SPACES => c == ' ' || c == '\t' || c == '\n' || c == '\r' || c == '\U{000C}' || c == '\U{000B}'
    }
  }

  /** Where the characters of cls that stand in s from position i on end. */
  function SpanFrom(s: string, i: nat, cls: Class): (j: nat)
    requires i <= |s|
    ensures i <= j <= |s|
    decreases |s| - i
  {
    if i == |s| || !cls.Has(s[i]) then i else SpanFrom(s, i + 1, cls)
  }

  lemma {:induction false} SpanFromExact(s: string, i: nat, j: nat, cls: Class)
    requires i <= j <= |s|
    requires forall k :: i <= k < j ==> cls.Has(s[k])
    requires j == |s| || !cls.Has(s[j])
    ensures SpanFrom(s, i, cls) == j
    decreases j - i
  {
    if i < j {
      SpanFromExact(s, i + 1, j, cls);
    }
  }

  lemma {:induction false} SpanFromStops(s: string, i: nat, cls: Class)
    requires i <= |s|
    ensures SpanFrom(s, i, cls) == |s| || !cls.Has(s[SpanFrom(s, i, cls)])
    decreases |s| - i
  {
    if i < |s| && cls.Has(s[i]) {
      SpanFromStops(s, i + 1, cls);
    }
  }

  lemma {:induction false} SpanFromHas(s: string, i: nat, cls: Class)
    requires i <= |s|
    ensures forall k :: i <= k < SpanFrom(s, i, cls) ==> cls.Has(s[k])
    decreases |s| - i
  {
    if i < |s| && cls.Has(s[i]) {
      SpanFromHas(s, i + 1, cls);
    }
  }

  /** strings.TrimRight and strings.TrimSpace, for ASCII white space. */
  function TrimRight(s: string): (t: string)
    ensures t <= s
  {
    s[..TrimEnd(s, |s|)]
  }

  /** Where s ends, seen from position n, without its trailing white space. */
  function TrimEnd(s: string, n: nat): (e: nat)
    requires n <= |s|
    ensures e <= n
  {
    if n == 0 || !SPACES.Has(s[n - 1]) then n else TrimEnd(s, n - 1)
  }

  lemma {:induction false} TrimEndAt(s: string, n: nat)
    requires n <= |s|
    ensures TrimEnd(s, n) > 0 ==> !SPACES.Has(s[TrimEnd(s, n) - 1])
    ensures forall k :: 0 <= k < n && !SPACES.Has(s[k]) ==> k < TrimEnd(s, n)
  {
    if n > 0 && SPACES.Has(s[n - 1]) {
      TrimEndAt(s, n - 1);
    }
  }

  lemma {:induction false} TrimEndHas(s: string, n: nat)
    requires n <= |s|
    ensures forall k :: TrimEnd(s, n) <= k < n ==> SPACES.Has(s[k])
  {
    if n > 0 && SPACES.Has(s[n - 1]) {
      TrimEndHas(s, n - 1);
    }
  }

  lemma {:induction false} TrimEndBack(s: string, n: nat, e: nat)
    requires e <= n <= |s| && (forall k :: e <= k < n ==> SPACES.Has(s[k])) && (e > 0 ==> !SPACES.Has(s[e - 1]))
    ensures TrimEnd(s, n) == e
  {
    if e < n {
      TrimEndBack(s, n - 1, e);
    }
  }

  function TrimSpace(s: string): string
  {
    TrimRight(s[SpanFrom(s, 0, SPACES)..])
  }

  // ----- decimal numerals -----

  predicate AllDigits(s: string)
  {
    forall k :: 0 <= k < |s| ==> DIGITS.Has(s[k])
  }

  function Digit(d: nat): (c: char)
    requires d < 10
    ensures DIGITS.Has(c) && DigitValue(c) == d
  {
    '0' + d as char
  }

  function DigitValue(c: char): nat
    requires DIGITS.Has(c)
  {
    c as int - '0' as int
  }

  function Decimal(n: nat): (s: string)
    ensures s != "" && AllDigits(s)
  {
    if n < 10 then [Digit(n)] else Decimal(n / 10) + [Digit(n % 10)]
  }

  function Value(s: string): nat
    requires AllDigits(s)
  {
    if s == "" then 0
    else 10 * Value(s[..|s| - 1]) + DigitValue(s[|s| - 1])
  }

  lemma {:induction false} ValueDecimal(n: nat)
    ensures Value(Decimal(n)) == n
  {
    var s := Decimal(n);
    if n < 10 {
      assert s[..|s| - 1] == "";
    } else {
      ValueDecimal(n / 10);
      assert s[..|s| - 1] == Decimal(n / 10);
    }
  }
}
