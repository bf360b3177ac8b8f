// The string functions of the Go standard library that the modelled code relies on:
// printing and parsing of integers, splitting and joining.
module GoStrings {

  datatype Option<+T> = None | Some(value: T)

  // The largest int on a 64-bit machine.
  const MAX_INT: int := 0x7fff_ffff_ffff_ffff
  const MIN_INT: int := -0x8000_0000_0000_0000

  // ----- Decimal numbers -------------------------------------------------------------------

  predicate IsDigit(c: char) { '0' <= c <= '9' }

  predicate AllDigits(s: string) { forall i :: 0 <= i < |s| ==> IsDigit(s[i]) }

  /** A non-negative number printed with %d. */
  function Dec(n: nat): (s: string)
    ensures s != [] && AllDigits(s)
  {
    if n < 10 then ['0' + n as char] else Dec(n / 10) + ['0' + (n % 10) as char]
  }

  function DigitsValue(s: string): nat
    requires AllDigits(s)
  {
    if s == [] then 0 else 10 * DigitsValue(s[..|s|-1]) + (s[|s|-1] - '0') as nat
  }

  /** strconv.Atoi: an optional sign, at least one digit, and nothing else; out of range is an
      error. */
  function Atoi(s: string): (r: Option<int>)
    ensures r.Some? ==> MIN_INT <= r.value <= MAX_INT
    ensures r.Some? && '-' !in s ==> 0 <= r.value
  {
    var signed := s != [] && (s[0] == '-' || s[0] == '+');
    var digits := if signed then s[1..] else s;
    if digits == [] || !AllDigits(digits) then None
    else
      var magnitude: int := DigitsValue(digits);
      var v := if signed && s[0] == '-' then -magnitude else magnitude;
      if MIN_INT <= v <= MAX_INT then Some(v) else None
  }

  lemma {:induction false} DecValue(n: nat)
    ensures DigitsValue(Dec(n)) == n
  {
    if 10 <= n {
      DecValue(n / 10);
      assert Dec(n)[..|Dec(n)|-1] == Dec(n / 10);
    }
  }

  /** Printing and reading back. */
  lemma AtoiDec(n: nat)
    ensures Atoi(Dec(n)) == if n <= MAX_INT then Some(n) else None
  {
    DecValue(n);
    assert IsDigit(Dec(n)[0]);
  }

  /** With a sign in front; the smallest int is one further from zero than the largest. */
  lemma AtoiSigned(n: nat)
    ensures Atoi("+" + Dec(n)) == if n <= MAX_INT then Some(n) else None
    ensures var negative := -(n as int); Atoi("-" + Dec(n)) == if MIN_INT <= negative then Some(negative) else None
  {
    DecValue(n);
    assert ("+" + Dec(n))[1..] == Dec(n) && ("-" + Dec(n))[1..] == Dec(n);
  }

  lemma {:induction false} LeadingZero(s: string)
    requires AllDigits(s)
    ensures AllDigits("0" + s) && DigitsValue("0" + s) == DigitsValue(s)
  {
    if s == [] {
      assert "0"[..0] == [];
    } else {
      assert ("0" + s)[..|s|] == "0" + s[..|s|-1];
      LeadingZero(s[..|s|-1]);
    }
  }

  /** Zeros in front do not matter. */
  lemma AtoiZeros(s: string)
    requires s != [] && AllDigits(s)
    ensures Atoi("0" + s) == Atoi(s)
  {
    LeadingZero(s);
    assert IsDigit(s[0]);
  }

  /** Nothing but a sign and digits is a number. */
  lemma AtoiNonDigit(s: string, i: nat)
    requires i < |s| && !('0' <= s[i] <= '9') && (i == 0 ==> s == "+" || s == "-" || (s[0] != '+' && s[0] != '-'))
    ensures Atoi(s).None? && Atoi("").None?
  {
    assert 0 < i ==> s[1..][i - 1] == s[i];
  }

  // ----- Splitting and joining ---------------------------------------------------------------

  /** strings.Split with a one-character separator. */
  function Split(s: string, sep: char): (r: seq<string>)
    ensures r != []
    ensures forall i :: 0 <= i < |r| ==> sep !in r[i]
  {
    if s == [] then [[]]
    else
      var rest := Split(s[1..], sep);
      if s[0] == sep then [[]] + rest else [[s[0]] + rest[0]] + rest[1..]
  }

  /** strings.Join with a one-character separator. */
  function Join(parts: seq<string>, sep: char): string {
    if parts == [] then []
    else if |parts| == 1 then parts[0]
    else parts[0] + [sep] + Join(parts[1..], sep)
  }

  lemma {:induction false} SplitWithout(s: string, sep: char)
    requires sep !in s
    ensures Split(s, sep) == [s]
  {
    if s != [] {
      assert s[0] in s;
      assert forall c :: c in s[1..] ==> c in s;
      SplitWithout(s[1..], sep);
      assert [s[0]] + s[1..] == s;
    }
  }

  lemma {:induction false} SplitAfterPart(p: string, sep: char, rest: string)
    requires sep !in p
    ensures Split(p + [sep] + rest, sep) == [p] + Split(rest, sep)
  {
    var s := p + [sep] + rest;
    if p == [] {
      assert s[1..] == rest;
    } else {
      assert p[0] in p;
      assert forall c :: c in p[1..] ==> c in p;
      SplitAfterPart(p[1..], sep, rest);
      assert s[1..] == p[1..] + [sep] + rest;
      assert [p[0]] + p[1..] == p;
    }
  }

  /** Splitting undoes joining, for at least one part and no separator inside a part. */
  lemma {:induction false} SplitJoin(parts: seq<string>, sep: char)
    requires parts != [] && forall i :: 0 <= i < |parts| ==> sep !in parts[i]
    ensures Split(Join(parts, sep), sep) == parts
  {
    if |parts| == 1 {
      SplitWithout(parts[0], sep);
    } else {
      SplitJoin(parts[1..], sep);
      SplitAfterPart(parts[0], sep, Join(parts[1..], sep));
    }
  }

  /** Joining undoes splitting, for every string. */
  lemma {:induction false} JoinSplit(s: string, sep: char)
    ensures Join(Split(s, sep), sep) == s
  {
    if s != [] {
      JoinSplit(s[1..], sep);
      var rest, whole := Split(s[1..], sep), Split(s, sep);
      if s[0] == sep {
        assert whole[1..] == rest;
      } else {
        assert whole[1..] == rest[1..];
        assert Join(whole, sep) == [s[0]] + Join(rest, sep);
      }
      assert [s[0]] + s[1..] == s;
    }
  }

  /** The position of the first occurrence. */
  function IndexOf(s: string, c: char): (i: nat)
    requires c in s
    ensures i < |s| && s[i] == c && c !in s[..i]
  {
    if s[0] == c then 0
    else
      assert s == [s[0]] + s[1..];
      var i := IndexOf(s[1..], c);
      assert s[..i + 1] == [s[0]] + s[1..][..i];
      1 + i
  }

  /** strings.SplitN(s, sep, 2): both sides of the first separator, if there is one. */
  function Cut(s: string, sep: char): (r: Option<(string, string)>)
    ensures r.Some? <==> sep in s
    ensures r.Some? ==> sep !in r.value.0 && r.value.0 + [sep] + r.value.1 == s
  {
    if sep in s then var i := IndexOf(s, sep); Some((s[..i], s[i + 1..])) else None
  }

  lemma CutAtFirst(a: string, sep: char, b: string)
    requires sep !in a
    ensures Cut(a + [sep] + b, sep) == Some((a, b))
  {
    var s := a + [sep] + b;
    assert s[|a|] == sep;
    var i := IndexOf(s, sep);
    assert forall k :: 0 <= k < |a| ==> s[k] == a[k] && a[k] != sep;
    assert forall k :: 0 <= k < i ==> s[..i][k] == s[k] && s[k] != sep;
    assert s[..|a|] == a && s[|a| + 1..] == b;
  }
}
