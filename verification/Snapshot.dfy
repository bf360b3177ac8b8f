// Choosing the name of a new snapshot (lxd/container_snapshot.go).
module Snapshot {
  import opened GoStrings

  // ----- fmt.Sscanf(s, "%d", &num) ---------------------------------------------------------------

  /** The white space that fmt skips before a number; a line feed stops it with an error. */
  predicate IsSpace(c: char) {
    || '\t' <= c <= '\r' || c == ' ' || c == '\U{85}' || c == '\U{A0}' || c == '\U{1680}'
    || '\U{2000}' <= c <= '\U{200A}' || c == '\U{2028}' || c == '\U{2029}' || c == '\U{202F}'
    || c == '\U{205F}' || c == '\U{3000}'
  }

  function SkipSpace(s: string): Option<string> {
    if s == [] then Some(s)
    else if s[0] == '\n' then None
    else if IsSpace(s[0]) then SkipSpace(s[1..])
    else Some(s)
  }

  /** The longest prefix of digits. */
  function Digits(s: string): (r: string)
    ensures AllDigits(r) && |r| <= |s| && r == s[..|r|]
    ensures |r| < |s| ==> !IsDigit(s[|r|])
  {
    if s == [] || !IsDigit(s[0]) then []
    else
      var r := Digits(s[1..]);
      assert s[..|r| + 1] == [s[0]] + s[1..][..|r|];
      [s[0]] + r
  }

  /** Anything may follow the number; a number that does not fit is an error. */
  function Scan(s: string): (r: Option<int>)
    ensures r.Some? ==> MIN_INT <= r.value <= MAX_INT
  {
    match SkipSpace(s)
    case None => None
    case Some(t) =>
      var sign := if t != [] && (t[0] == '-' || t[0] == '+') then t[..1] else [];
      var digits := Digits(t[|sign|..]);
      if digits == [] then None else Atoi(sign + digits)
  }

  lemma {:induction false} SpaceSkipped(space: string, t: string)
    requires forall i :: 0 <= i < |space| ==> IsSpace(space[i]) && space[i] != '\n'
    requires t != "" && !IsSpace(t[0]) && t[0] != '\n'
    ensures SkipSpace(space + t) == Some(t)
  {
    if space == "" {
      assert space + t == t;
    } else {
      SpaceSkipped(space[1..], t);
      assert (space + t)[1..] == space[1..] + t;
    }
  }

  lemma {:induction false} DigitsThen(digits: string, rest: string)
    requires AllDigits(digits) && (rest == "" || !IsDigit(rest[0]))
    ensures Digits(digits + rest) == digits
  {
    if digits == "" {
      assert digits + rest == rest;
    } else {
      DigitsThen(digits[1..], rest);
      assert (digits + rest)[1..] == digits[1..] + rest;
      assert [digits[0]] + digits[1..] == digits;
    }
  }

  /** White space, a sign, digits, and whatever follows: the number counts.  Without a digit there
      is none. */
  lemma ScanMeans(space: string, sign: string, digits: string, rest: string)
    requires forall i :: 0 <= i < |space| ==> space[i] == ' ' || space[i] == '\t'
    requires sign == "" || sign == "+" || sign == "-"
    requires AllDigits(digits) && (rest == "" || !IsDigit(rest[0]))
    ensures digits != "" ==> Scan(space + (sign + (digits + rest))) == Atoi(sign + digits)
    ensures digits == "" && sign != "" ==> Scan(space + (sign + (digits + rest))).None?
  {
    var t := sign + (digits + rest);
    if t != "" && (digits != "" || sign != "") {
      SpaceSkipped(space, t);
      assert sign == "" ==> t == digits + rest && t[0] == digits[0];
      assert sign != "" ==> t[0] == sign[0] && t[..1] == sign && t[1..] == digits + rest;
      assert t[0..] == t;
      DigitsThen(digits, rest);
    }
  }

  /** An int printed with %d. */
  function Itoa(n: int): string { if n < 0 then "-" + Dec(-n) else Dec(n) }

  lemma {:induction false} DigitsAll(s: string)
    requires AllDigits(s)
    ensures Digits(s) == s
  {
    if s != [] {
      DigitsAll(s[1..]);
    }
  }

  lemma ScanDigits(s: string)
    requires s != [] && AllDigits(s)
    ensures Scan(s) == Atoi(s)
  {
    DigitsAll(s);
    assert IsDigit(s[0]);
    assert SkipSpace(s) == Some(s);
    assert s[0..] == s && [] + s == s;
  }

  /** Scanning undoes printing, for every non-negative int. */
  lemma ScanItoa(n: nat)
    requires n <= MAX_INT
    ensures Scan(Itoa(n)) == Some(n)
  {
    ScanDigits(Dec(n));
    AtoiDec(n);
  }

  // ----- nextSnapshot ------------------------------------------------------------------------------

  /** 64-bit addition wraps around. */
  function Wrap(n: int): int { if n > MAX_INT then n - 0x1_0000_0000_0000_0000 else n }

  function Base(container: string): string { container + "/snap" }

  /** The condition of the database query. */
  predicate HasBase(base: string, name: string) { |base| <= |name| && name[..|base|] == base }

  /** The number that a snapshot name contributes. */
  function Reading(base: string, name: string): (r: Option<int>)
    ensures r.Some? ==> MIN_INT <= r.value <= MAX_INT
  {
    if HasBase(base, name) && |base| < |name| then Scan(name[|base|..]) else None
  }

  type Readings = seq<Option<int>>

  function ReadAll(base: string, names: seq<string>): (r: Readings)
    ensures |r| == |names| && forall k :: 0 <= k < |r| ==> r[k] == Reading(base, names[k])
  {
    seq(|names|, k requires 0 <= k < |names| => Reading(base, names[k]))
  }

  function Bumped(top: int, reading: Option<int>): int {
    if reading.Some? && reading.value >= top then Wrap(reading.value + 1) else top
  }

  function Next(rs: Readings): int {
    if rs == [] then 0 else Bumped(Next(rs[..|rs|-1]), rs[|rs|-1])
  }

  /** found: whether the query succeeded.  If not, the number is 0. */
  method NextSnapshot(container: string, names: seq<string>, found: bool) returns (top: int)
    ensures top == if found then Next(ReadAll(Base(container), names)) else 0
  {
    if !found {
      return 0;
    }
    var base := Base(container);
    ghost var rs := ReadAll(base, names);
    top := 0;
    for k := 0 to |names|
      invariant top == Next(rs[..k])
    {
      assert rs[..k + 1][..k] == rs[..k];
      if !HasBase(base, names[k]) {
        continue;
      }
      if |names[k]| <= |base| {
        continue;
      }
      var num := Scan(names[k][|base|..]);
      if num.None? {
        continue;
      }
      if num.value >= top {
        top := Wrap(num.value + 1);
      }
    }
    assert rs[..|names|] == rs;
  }

  function NameOf(container: string, n: int): string { container + "/" + ("snap" + Itoa(n)) }

  /** The whole name that a request without a name gets. */
  function ChosenName(container: string, names: seq<string>): string {
    NameOf(container, Next(ReadAll(Base(container), names)))
  }

  method ChooseName(container: string, names: seq<string>, found: bool) returns (name: string)
    ensures name == if found then ChosenName(container, names) else NameOf(container, 0)
    ensures found && Some(MAX_INT) !in ReadAll(Base(container), names) ==> name !in names
  {
    var i := NextSnapshot(container, names, found);
    name := container + "/" + ("snap" + Itoa(i));
    if Some(MAX_INT) !in ReadAll(Base(container), names) {
      ChosenIsFree(container, names);
    }
  }

  // ----- The next number ---------------------------------------------------------------------------

  ghost predicate Ints(rs: Readings) {
    forall k :: 0 <= k < |rs| && rs[k].Some? ==> MIN_INT <= rs[k].value <= MAX_INT
  }

  lemma NextAppend(rs: Readings, r: Option<int>)
    ensures Next(rs + [r]) == Bumped(Next(rs), r)
  {
    assert (rs + [r])[..|rs|] == rs;
  }

  lemma {:induction false} NextInRange(rs: Readings)
    requires Ints(rs)
    ensures MIN_INT <= Next(rs) <= MAX_INT
  {
    if rs != [] {
      NextInRange(rs[..|rs|-1]);
    }
  }

  /** It is the least: 0 if no number in use is non-negative, and otherwise one more than one of
      them. */
  lemma {:induction false} NextIsLeast(rs: Readings)
    requires Ints(rs) && Some(MAX_INT) !in rs
    ensures Next(rs) == 0 || Some(Next(rs) - 1) in rs
    ensures Next(rs) == 0 <==> forall n: int :: Some(n) in rs ==> n < 0
  {
    if rs != [] {
      var init, r := rs[..|rs|-1], rs[|rs|-1];
      NextIsLeast(init);
      assert r != Some(MAX_INT);
      NextIsAbove(rs);
      if Some(Next(init) - 1) in init {
        assert Some(Next(init) - 1) in rs;
      }
    }
  }

  /** Without the largest int among them, the next number is above all numbers in use. */
  lemma {:induction false} NextIsAbove(rs: Readings)
    requires Ints(rs) && Some(MAX_INT) !in rs
    ensures 0 <= Next(rs) <= MAX_INT
    ensures forall n :: Some(n) in rs ==> n < Next(rs)
  {
    if rs != [] {
      var init, r := rs[..|rs|-1], rs[|rs|-1];
      NextIsAbove(init);
      assert r != Some(MAX_INT);
      forall n | Some(n) in rs ensures n < Next(rs) {
        assert Some(n) in init || Some(n) == r;
      }
    }
  }

  /** With it, the next number is one of them plus one, wrapped around. */
  lemma {:induction false} NextIsASuccessor(rs: Readings) returns (n: int)
    requires Ints(rs) && Some(MAX_INT) in rs
    ensures Some(n) in rs && Next(rs) == Wrap(n + 1)
  {
    var init, r := rs[..|rs|-1], rs[|rs|-1];
    NextInRange(init);
    if r.Some? && r.value >= Next(init) {
      n := r.value;
    } else {
      assert r != Some(MAX_INT);
      n := NextIsASuccessor(init);
    }
  }

  // ----- When the chosen name is free ------------------------------------------------------------------

  lemma ReadingOf(base: string, digits: string)
    requires digits != []
    ensures Reading(base, base + digits) == Scan(digits)
  {
    assert (base + digits)[..|base|] == base && (base + digits)[|base|..] == digits;
  }

  lemma NameIsBase(container: string, n: nat)
    ensures NameOf(container, n) == Base(container) + Dec(n)
  {
    var digits := Dec(n);
    assert container + "/" + ("snap" + digits) == container + "/snap" + digits;
  }

  lemma NameRead(container: string, n: nat)
    requires n <= MAX_INT
    ensures Reading(Base(container), NameOf(container, n)) == Some(n)
  {
    ScanItoa(n);
    NameIsBase(container, n);
    ReadingOf(Base(container), Dec(n));
  }

  /** A taken name counts as its number. */
  lemma TakenIsRead(container: string, names: seq<string>, n: nat)
    requires n <= MAX_INT && NameOf(container, n) in names
    ensures Some(n) in ReadAll(Base(container), names)
  {
    var k :| 0 <= k < |names| && names[k] == NameOf(container, n);
    NameRead(container, n);
    assert ReadAll(Base(container), names)[k] == Some(n);
  }

  /** The chosen name is free, unless some snapshot reads as the largest int. */
  lemma ChosenIsFree(container: string, names: seq<string>)
    requires Some(MAX_INT) !in ReadAll(Base(container), names)
    ensures ChosenName(container, names) !in names
  {
    var rs := ReadAll(Base(container), names);
    NextIsAbove(rs);
    if NameOf(container, Next(rs)) in names {
      TakenIsRead(container, names, Next(rs));
    }
  }

  lemma {:induction false} MembersPermuted(names: seq<string>, other: seq<string>, name: string)
    requires multiset(names) == multiset(other)
    ensures name in names <==> name in other
  {
    assert name in names <==> name in multiset(names);
    assert name in other <==> name in multiset(other);
  }

  lemma ReadPermuted(base: string, names: seq<string>, other: seq<string>, n: int)
    requires multiset(names) == multiset(other) && Some(n) in ReadAll(base, names)
    ensures Some(n) in ReadAll(base, other)
  {
    var k :| 0 <= k < |names| && Reading(base, names[k]) == Some(n);
    MembersPermuted(names, other, names[k]);
    var j :| 0 <= j < |other| && other[j] == names[k];
    assert ReadAll(base, other)[j] == Some(n);
  }

  lemma {:induction false} MoveToEnd<T>(xs: seq<T>, k: nat)
    requires k < |xs|
    ensures multiset(xs[..k] + xs[k + 1..] + [xs[k]]) == multiset(xs)
  {
    assert xs == xs[..k] + [xs[k]] + xs[k + 1..];
  }

  /** A name that reads as n can come last. */
  lemma ReadLast(base: string, names: seq<string>, n: int) returns (rest: seq<string>, name: string)
    requires Some(n) in ReadAll(base, names)
    ensures multiset(rest + [name]) == multiset(names)
    ensures Reading(base, name) == Some(n)
  {
    var k :| 0 <= k < |names| && Reading(base, names[k]) == Some(n);
    rest, name := names[..k] + names[k + 1..], names[k];
    MoveToEnd(names, k);
  }

  lemma ReadAllAppend(base: string, names: seq<string>, name: string)
    ensures ReadAll(base, names + [name]) == ReadAll(base, names) + [Reading(base, name)]
  {}

  lemma ReadAllInts(base: string, names: seq<string>)
    ensures Ints(ReadAll(base, names))
  {}

  /** After the largest int, whatever comes next counts. */
  lemma NextAfterLargest(rs: Readings, n: int)
    requires Ints(rs) && MIN_INT <= n <= MAX_INT
    ensures Next(rs + [Some(MAX_INT)]) == Wrap(MAX_INT + 1)
    ensures n < MAX_INT ==> Next(rs + [Some(MAX_INT)] + [Some(n)]) == Wrap(n + 1)
  {
    NextInRange(rs);
    NextAppend(rs, Some(MAX_INT));
    NextAppend(rs + [Some(MAX_INT)], Some(n));
  }

  /** The order in which the next number is one more than n, if the largest int is in use. */
  lemma WorstOrder(base: string, names: seq<string>, n: int) returns (order: seq<string>)
    requires Some(MAX_INT) in ReadAll(base, names) && Some(n) in ReadAll(base, names)
    ensures multiset(order) == multiset(names) && Next(ReadAll(base, order)) == Wrap(n + 1)
  {
    var rest, last := ReadLast(base, names, n);
    ReadAllAppend(base, rest, last);
    ReadAllInts(base, rest);
    if n == MAX_INT {
      NextAfterLargest(ReadAll(base, rest), n);
      return rest + [last];
    }
    ReadPermuted(base, names, rest + [last], MAX_INT);
    order := LargestThenLast(base, rest, last, n);
  }

  lemma LargestThenLast(base: string, rest: seq<string>, last: string, n: int) returns (order: seq<string>)
    requires Some(MAX_INT) in ReadAll(base, rest) && Reading(base, last) == Some(n) && n < MAX_INT
    ensures multiset(order) == multiset(rest + [last]) && Next(ReadAll(base, order)) == Wrap(n + 1)
  {
    var rest', top := ReadLast(base, rest, MAX_INT);
    ReadAllAppend(base, rest', top);
    ReadAllAppend(base, rest' + [top], last);
    ReadAllInts(base, rest');
    NextAfterLargest(ReadAll(base, rest'), n);
    order := rest' + [top] + [last];
    assert multiset(order) == multiset(rest' + [top]) + multiset([last]) == multiset(rest + [last]);
  }

  ghost predicate FreeInEveryOrder(container: string, names: seq<string>) {
    forall order: seq<string> :: multiset(order) == multiset(names) ==> ChosenName(container, order) !in order
  }

  /** No number in use is followed by a name in use. */
  ghost predicate NoSuccessorTaken(container: string, names: seq<string>, rs: Readings) {
    forall n :: Some(n) in rs ==> NameOf(container, Wrap(n + 1)) !in names
  }

  /** The query, when it succeeds, has no ORDER BY.  Exactly when is the chosen name free in whatever order the rows
      arrive? */
  lemma FreeExactlyWhen(container: string, names: seq<string>)
    ensures FreeInEveryOrder(container, names) <==>
            Some(MAX_INT) !in ReadAll(Base(container), names)
            || NoSuccessorTaken(container, names, ReadAll(Base(container), names))
  {
    var base := Base(container);
    var rs := ReadAll(base, names);
    if Some(MAX_INT) !in rs || NoSuccessorTaken(container, names, rs) {
      forall order: seq<string> | multiset(order) == multiset(names) ensures ChosenName(container, order) !in order {
        FreeInOrder(container, names, order);
      }
    } else {
      var n :| Some(n) in rs && NameOf(container, Wrap(n + 1)) in names;
      var order := WorstOrder(base, names, n);
      MembersPermuted(names, order, NameOf(container, Wrap(n + 1)));
      assert ChosenName(container, order) in order;
    }
  }

  lemma FreeInOrder(container: string, names: seq<string>, order: seq<string>)
    requires multiset(order) == multiset(names)
    requires Some(MAX_INT) !in ReadAll(Base(container), names)
             || NoSuccessorTaken(container, names, ReadAll(Base(container), names))
    ensures ChosenName(container, order) !in order
  {
    var base := Base(container);
    if Some(MAX_INT) in ReadAll(base, order) {
      ReadPermuted(base, order, names, MAX_INT);
      var n := NextIsASuccessor(ReadAll(base, order));
      ReadPermuted(base, order, names, n);
      MembersPermuted(names, order, NameOf(container, Wrap(n + 1)));
    } else {
      ChosenIsFree(container, order);
    }
  }

  lemma Three(rs: Readings, i: Option<int>, j: Option<int>, k: Option<int>)
    requires |rs| == 3 && rs[0] == i && rs[1] == j && rs[2] == k
    ensures rs == [i] + [j] + [k]
  {
  }

  /** Three snapshots for which the chosen name is taken. */
  lemma WrapCollides(container: string, n: nat, top: nat) returns (names: seq<string>)
    requires top == MAX_INT && n + 1 < top
    ensures names == [NameOf(container, n + 1), NameOf(container, top), NameOf(container, n)]
    ensures ChosenName(container, names) == names[0]
  {
    var a, b, c := NameOf(container, n + 1), NameOf(container, top), NameOf(container, n);
    NameRead(container, n + 1);
    NameRead(container, top);
    NameRead(container, n);
    Three(ReadAll(Base(container), [a, b, c]), Some(n + 1), Some(top), Some(n));
    NextAfterLargest([Some(n + 1)], n);
    names := [a, b, c];
  }
}
