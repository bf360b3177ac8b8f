// deviceTaskBalance (lxd/devices.go): which container runs on which CPU.
//
// Containers are named by their position in the list read from the database.  Where the
// program ranges over a Go map, or sorts with an unstable sort, the methods here pick any
// order, so what they promise holds for every order.
module Balance {
  import opened GoStrings
  import opened Sequences
  import opened Cpuset
  import opened Greedy

  // ----- What a container asks for -----------------------------------------------------------

  datatype Container = Container(loads: bool, running: bool, limit: Option<string>)

  datatype Request = NoRequest | CountOf(n: int) | SetOf(cpus: seq<int>) | BadSet

  function LimitText(c: Container, u: Usable): string {
    if c.limit.None? || c.limit.value == "" then u.text else c.limit.value
  }

  /** A limit that reads as an integer is a count, anything else is a cpuset. */
  function Asked(c: Container, u: Usable): Request {
    if !c.loads || !c.running then NoRequest
    else
      match Atoi(LimitText(c, u))
      case Some(n) => CountOf(n)
      case None =>
        match CpusetValue(LimitText(c, u))
        case Some(xs) => SetOf(xs)
        case None => BadSet
  }

  function Requests(cs: seq<Container>, u: Usable): (rs: seq<Request>)
    ensures |rs| == |cs| && forall i :: 0 <= i < |cs| ==> rs[i] == Asked(cs[i], u)
  {
    seq(|cs|, i requires 0 <= i < |cs| => Asked(cs[i], u))
  }

  /** The entries of xs that are in keep, repeated entries included. */
  function Within(xs: seq<int>, keep: seq<int>): seq<int> {
    if xs == [] then []
    else
      var r := Within(xs[..|xs|-1], keep);
      if xs[|xs|-1] in keep then r + [xs[|xs|-1]] else r
  }

  /** The usable CPUs a container asks to be pinned to. */
  function PinList(r: Request, ids: seq<int>): seq<int> {
    if r.SetOf? then Within(r.cpus, ids) else []
  }

  function Pins(r: Request, ids: seq<int>, id: int): nat { multiset(PinList(r, ids))[id] }

  /** The placements of pinned containers on one CPU. */
  function PinnedLoad(rs: seq<Request>, ids: seq<int>, id: int): nat {
    if rs == [] then 0 else PinnedLoad(rs[..|rs|-1], ids, id) + Pins(rs[|rs|-1], ids, id)
  }

  /** A container without a limit is pinned to every usable CPU, except that the text of a
      single CPU reads as a count: then it is balanced over min(id, 1) CPUs. */
  lemma UnlimitedContainer(c: Container, u: Usable)
    requires c.loads && c.running && (c.limit.None? || c.limit.value == "")
    requires u.ids != [] && u.text == Join(Printed(u.ids), ',')
    requires forall x :: x in u.ids ==> x <= MAX_INT
    ensures |u.ids| == 1 ==> Asked(c, u) == CountOf(u.ids[0])
    ensures 1 < |u.ids| ==> Asked(c, u) == SetOf(u.ids) && PinList(Asked(c, u), u.ids) == u.ids
  {
    assert forall i :: 0 <= i < |u.ids| ==> u.ids[i] in u.ids;
    TextOfIds(u.ids);
    WithinItself(u.ids, u.ids);
  }

  lemma TextOfIds(ids: seq<nat>)
    requires ids != [] && forall i :: 0 <= i < |ids| ==> ids[i] <= MAX_INT
    ensures Atoi(Join(Printed(ids), ',')) == if |ids| == 1 then Some(ids[0]) else None
    ensures CpusetValue(Join(Printed(ids), ',')) == Some(ids)
  {
    PrintParse(ids);
    if |ids| == 1 {
      AtoiDec(ids[0]);
    } else {
      NotANumber(Dec(ids[0]), Join(Printed(ids)[1..], ','));
    }
  }

  lemma NotANumber(digits: string, rest: string)
    requires digits != [] && AllDigits(digits)
    ensures Atoi(digits + [','] + rest).None?
  {
    var s := digits + [','] + rest;
    assert s[0] == digits[0] && s[|digits|] == ',';
    assert !IsDigit(',');
  }

  lemma {:induction false} WithinItself(xs: seq<int>, keep: seq<int>)
    requires forall i :: 0 <= i < |xs| ==> xs[i] in keep
    ensures Within(xs, keep) == xs
  {
    if xs != [] {
      var n := |xs| - 1;
      assert xs == xs[..n] + [xs[n]];
      WithinItself(xs[..n], keep);
    }
  }

  // ----- CPUs, pinning lists and counters ------------------------------------------------------

  class Cpu {
    const id: int
    var count: nat

    constructor (id: int)
      ensures this.id == id && count == 0
    {
      this.id := id;
      count := 0;
    }
  }

  type Pinning = map<nat, seq<int>>

  function ListOf(pinning: Pinning, c: nat): seq<int> {
    if c in pinning then pinning[c] else []
  }

  function Append(pinning: Pinning, c: nat, id: int): Pinning {
    pinning[c := ListOf(pinning, c) + [id]]
  }

  /** Every place in a pinning list where CPU id is written. */
  ghost function Slots(pinning: Pinning, id: int): set<(nat, nat)> {
    set c, j | c in pinning && 0 <= j < |pinning[c]| && pinning[c][j] == id :: (c, j)
  }

  ghost function Entries(pinning: Pinning, id: int): nat { |Slots(pinning, id)| }

  lemma EntriesAppend(pinning: Pinning, c: nat, id: int, other: int)
    ensures Entries(Append(pinning, c, id), other) == Entries(pinning, other) + if other == id then 1 else 0
  {
    SlotsAppend(pinning, c, id, other);
  }

  lemma SlotsAppend(pinning: Pinning, c: nat, id: int, other: int)
    ensures (c, |ListOf(pinning, c)|) !in Slots(pinning, other)
    ensures Slots(Append(pinning, c, id), other) ==
            Slots(pinning, other) + if other == id then {(c, |ListOf(pinning, c)|)} else {}
  {
    var more, n := Append(pinning, c, id), |ListOf(pinning, c)|;
    forall d: nat, j: nat
      ensures (d, j) in Slots(more, other) <==> (d, j) in Slots(pinning, other) || (other == id && d == c && j == n)
    {
      assert d != c ==> (d in more <==> d in pinning) && (d in pinning ==> more[d] == pinning[d]);
    }
  }

  ghost function Objects(usage: map<int, Cpu>): (cpus: set<Cpu>)
    ensures forall id :: id in usage ==> usage[id] in cpus
  {
    set id | id in usage :: usage[id]
  }

  /** Every CPU object is filed under its own id. */
  ghost predicate Filed(usage: map<int, Cpu>) {
    forall id :: id in usage ==> usage[id].id == id
  }

  /** ids names every CPU of the usage map once. */
  ghost predicate Names(ids: seq<int>, usage: map<int, Cpu>) {
    && Distinct(ids)
    && (forall p :: 0 <= p < |ids| ==> ids[p] in usage)
    && (forall id :: id in usage ==> id in ids)
  }

  ghost function LoadsOf(ids: seq<int>, usage: map<int, Cpu>): (l: Loads)
    requires forall p :: 0 <= p < |ids| ==> ids[p] in usage
    reads Objects(usage)
    ensures |l| == |ids|
    ensures forall p :: 0 <= p < |ids| ==> l[p] == usage[ids[p]].count
  {
    seq(|ids|, p requires 0 <= p < |ids| reads Objects(usage) => usage[ids[p]].count)
  }

  /** Every counter is the number of entries for its CPU over all pinning lists. */
  ghost predicate Counted(pinning: Pinning, usage: map<int, Cpu>)
    reads Objects(usage)
  {
    && (forall id :: id in usage ==> usage[id].count == Entries(pinning, id))
    && (forall c, j :: c in pinning && 0 <= j < |pinning[c]| ==> pinning[c][j] in usage)
  }

  // ----- Sorting the CPUs by load ----------------------------------------------------------------

  ghost predicate SortedByCount(cpus: seq<Cpu>)
    reads cpus
  {
    forall i, j :: 0 <= i < j < |cpus| ==> cpus[i].count <= cpus[j].count
  }

  lemma SortedInsert(cpus: seq<Cpu>, i: nat, cpu: Cpu, r: seq<Cpu>)
    requires i <= |cpus| && SortedByCount(cpus) && r == cpus[..i] + [cpu] + cpus[i..]
    requires forall j :: 0 <= j < i ==> cpus[j].count <= cpu.count
    requires i < |cpus| ==> cpu.count <= cpus[i].count
    ensures SortedByCount(r)
  {
    forall a, b | 0 <= a < b < |r| ensures r[a].count <= r[b].count {
      assert a < i ==> r[a] == cpus[a];
      assert i < a ==> r[a] == cpus[a - 1];
      assert b < i ==> r[b] == cpus[b];
      assert i < b ==> r[b] == cpus[b - 1];
    }
  }

  method InsertByCount(cpus: seq<Cpu>, cpu: Cpu) returns (r: seq<Cpu>)
    requires SortedByCount(cpus)
    ensures multiset(r) == multiset(cpus) + multiset{cpu}
    ensures SortedByCount(r)
  {
    var i := 0;
    while i < |cpus| && cpus[i].count <= cpu.count
      invariant i <= |cpus| && forall j :: 0 <= j < i ==> cpus[j].count <= cpu.count
    {
      i := i + 1;
    }
    assert cpus == cpus[..i] + cpus[i..];
    r := cpus[..i] + [cpu] + cpus[i..];
    SortedInsert(cpus, i, cpu, r);
  }

  /** sort.Sort on the counters.  The order of CPUs with equal counters is not promised. */
  method SortByCount(cpus: seq<Cpu>) returns (r: seq<Cpu>)
    ensures multiset(r) == multiset(cpus)
    ensures SortedByCount(r)
  {
    r := [];
    for n := 0 to |cpus|
      invariant multiset(r) == multiset(cpus[..n])
      invariant SortedByCount(r)
    {
      assert cpus[..n + 1] == cpus[..n] + [cpus[n]];
      r := InsertByCount(r, cpus[n]);
    }
    assert cpus[..|cpus|] == cpus;
  }

  // ----- Placing one load-balanced container --------------------------------------------------------

  /** The positions of the CPUs named by a list. */
  function MaskOf(ids: seq<int>, chosen: seq<int>): (t: Mask)
    ensures |t| == |ids|
  {
    seq(|ids|, p requires 0 <= p < |ids| => ids[p] in chosen)
  }

  lemma {:induction false} MaskSize(ids: seq<int>, chosen: seq<int>)
    requires Distinct(ids) && Distinct(chosen) && forall i :: 0 <= i < |chosen| ==> chosen[i] in ids
    ensures Ones(MaskOf(ids, chosen)) == |chosen|
  {
    if chosen == [] {
      NoneChosen(MaskOf(ids, chosen));
    } else {
      var n := |chosen| - 1;
      MaskSize(ids, chosen[..n]);
      var p :| 0 <= p < |ids| && ids[p] == chosen[n];
      assert chosen == chosen[..n] + [chosen[n]];
      OnesUpdate(MaskOf(ids, chosen[..n]), p);
      assert MaskOf(ids, chosen) == MaskOf(ids, chosen[..n])[p := true];
    }
  }

  ghost predicate Arranged(cpus: seq<Cpu>, usage: map<int, Cpu>) {
    && Distinct(cpus)
    && (forall i :: 0 <= i < |cpus| ==> cpus[i].id in usage && usage[cpus[i].id] == cpus[i])
    && (forall id :: id in usage ==> usage[id] in cpus)
  }

  function IdsOf(cpus: seq<Cpu>): (ids: seq<int>)
    ensures |ids| == |cpus| && forall i :: 0 <= i < |cpus| ==> ids[i] == cpus[i].id
  {
    seq(|cpus|, i requires 0 <= i < |cpus| => cpus[i].id)
  }

  lemma StillArranged(cpus: seq<Cpu>, sorted: seq<Cpu>, usage: map<int, Cpu>)
    requires Arranged(cpus, usage) && multiset(sorted) == multiset(cpus)
    ensures Arranged(sorted, usage) && |sorted| == |cpus|
  {
    assert |multiset(sorted)| == |sorted| && |multiset(cpus)| == |cpus|;
    forall i | 0 <= i < |sorted| ensures sorted[i] in cpus {
      assert sorted[i] in multiset(sorted);
    }
    forall i | 0 <= i < |cpus| ensures cpus[i] in sorted {
      assert cpus[i] in multiset(cpus);
    }
    DistinctMultiset(cpus);
    MultisetDistinct(sorted);
  }

  lemma {:induction false} DistinctMultiset<T>(xs: seq<T>)
    requires Distinct(xs)
    ensures forall i :: 0 <= i < |xs| ==> multiset(xs)[xs[i]] == 1
  {
    forall i | 0 <= i < |xs| ensures multiset(xs)[xs[i]] == 1 {
      var x := xs[i];
      assert xs == xs[..i] + [x] + xs[i+1..];
      assert x !in xs[..i] && x !in xs[i+1..];
      assert multiset(xs)[x] == multiset(xs[..i])[x] + 1 + multiset(xs[i+1..])[x];
    }
  }

  lemma MultisetDistinct<T>(xs: seq<T>)
    requires forall i :: 0 <= i < |xs| ==> multiset(xs)[xs[i]] == 1
    ensures Distinct(xs)
  {
    forall i, j | 0 <= i < j < |xs| ensures xs[i] != xs[j] {
      assert xs == xs[..j] + [xs[j]] + xs[j+1..];
      assert multiset(xs)[xs[j]] == multiset(xs[..j])[xs[j]] + 1 + multiset(xs[j+1..])[xs[j]];
      assert xs[..j][i] == xs[i];
    }
  }

  lemma DistinctIds(cpus: seq<Cpu>, usage: map<int, Cpu>, ids: seq<int>, n: nat)
    requires Arranged(cpus, usage) && Names(ids, usage) && n <= |cpus|
    ensures Distinct(IdsOf(cpus[..n])) && forall i :: 0 <= i < n ==> IdsOf(cpus[..n])[i] in ids
  {
  }

  lemma SameLength(cpus: seq<Cpu>, usage: map<int, Cpu>, ids: seq<int>)
    requires Filed(usage) && Arranged(cpus, usage) && Names(ids, usage)
    ensures |cpus| == |ids|
  {
    assert cpus[..|cpus|] == cpus;
    DistinctIds(cpus, usage, ids, |cpus|);
    MaskSize(ids, IdsOf(cpus));
    forall p | 0 <= p < |ids| ensures MaskOf(ids, IdsOf(cpus))[p] {
      var id := ids[p];
      assert usage[id] in cpus;
      var i :| 0 <= i < |cpus| && cpus[i] == usage[id];
      assert IdsOf(cpus)[i] == ids[p];
    }
    AllChosen(MaskOf(ids, IdsOf(cpus)));
  }

  lemma CountedAppend(pinning: Pinning, c: nat, id: int)
    ensures forall other ::
              Entries(Append(pinning, c, id), other) == Entries(pinning, other) + if other == id then 1 else 0
  {
    forall other
      ensures Entries(Append(pinning, c, id), other) == Entries(pinning, other) + if other == id then 1 else 0
    {
      EntriesAppend(pinning, c, id, other);
    }
  }

  /** The inner loop: walk the sorted list until the limit is used up, entering each CPU in
      the container's pinning list and counting it. */
  method TakeFront(cpus: seq<Cpu>, usage: map<int, Cpu>, c: nat, limit: int, pinning: Pinning)
    returns (pinning': Pinning, n: nat)
    requires Filed(usage) && Arranged(cpus, usage)
    requires Counted(pinning, usage) && ListOf(pinning, c) == []
    modifies Objects(usage)
    ensures n == Share(limit, |cpus|)
    ensures Counted(pinning', usage)
    ensures ListOf(pinning', c) == IdsOf(cpus[..n])
    ensures forall d :: d != c ==> ListOf(pinning', d) == ListOf(pinning, d)
    ensures forall i :: 0 <= i < |cpus| ==> cpus[i].count == old(cpus[i].count) + if i < n then 1 else 0
  {
    pinning' := pinning;
    var count := limit;
    n := 0;
    while n < |cpus| && count != 0
      invariant n <= |cpus| && count == limit - n && (0 <= limit ==> n <= limit)
      invariant forall i :: 0 <= i < |cpus| ==> cpus[i].count == old(cpus[i].count) + if i < n then 1 else 0
      invariant Counted(pinning', usage)
      invariant Extended(pinning, pinning', c, IdsOf(cpus[..n]))
    {
      ExtendedAppend(pinning, pinning', c, IdsOf(cpus[..n]), cpus[n].id);
      assert IdsOf(cpus[..n + 1]) == IdsOf(cpus[..n]) + [cpus[n].id];
      assert forall i :: 0 <= i < |cpus| && i != n ==> cpus[i] != cpus[n];
      pinning' := CountOne(cpus[n], usage, c, pinning');
      count := count - 1;
      n := n + 1;
    }
  }

  /** The list of c is ids and no other list changed. */
  ghost predicate Extended(pinning: Pinning, pinning': Pinning, c: nat, ids: seq<int>) {
    ListOf(pinning', c) == ids && forall d: nat :: d != c ==> ListOf(pinning', d) == ListOf(pinning, d)
  }

  lemma ExtendedAppend(pinning: Pinning, pinning': Pinning, c: nat, ids: seq<int>, id: int)
    requires Extended(pinning, pinning', c, ids)
    ensures Extended(pinning, Append(pinning', c, id), c, ids + [id])
  {}

  /** One entry for one CPU: appended to the list and counted. */
  method CountOne(cpu: Cpu, usage: map<int, Cpu>, c: nat, pinning: Pinning) returns (pinning': Pinning)
    requires Filed(usage) && cpu.id in usage && usage[cpu.id] == cpu
    requires Counted(pinning, usage)
    modifies cpu
    ensures cpu.count == old(cpu.count) + 1
    ensures pinning' == Append(pinning, c, cpu.id)
    ensures Counted(pinning', usage)
  {
    pinning' := Append(pinning, c, cpu.id);
    cpu.count := cpu.count + 1;
    CountedAppend(pinning, c, cpu.id);
  }

  /** Bumping the counters of the chosen CPUs is a placement when no other CPU had less load. */
  lemma PlacementOf(ids: seq<int>, chosen: seq<int>, limit: int, l: Loads, l': Loads)
    requires Distinct(ids) && Distinct(chosen) && forall i :: 0 <= i < |chosen| ==> chosen[i] in ids
    requires |l| == |l'| == |ids| && |chosen| == Share(limit, |ids|)
    requires forall p :: 0 <= p < |ids| ==> l'[p] == l[p] + if ids[p] in chosen then 1 else 0
    requires forall p, q :: 0 <= p < |ids| && 0 <= q < |ids| && ids[p] in chosen && ids[q] !in chosen ==> l[p] <= l[q]
    ensures PlacedBy(l, limit, MaskOf(ids, chosen), l')
  {
    MaskSize(ids, chosen);
  }

  /** Where a CPU stands in the sorted list tells whether it is chosen. */
  lemma Position(cpus: seq<Cpu>, usage: map<int, Cpu>, n: nat, id: int) returns (i: nat)
    requires Filed(usage) && Arranged(cpus, usage) && n <= |cpus| && id in usage
    ensures i < |cpus| && cpus[i] == usage[id] && (id in IdsOf(cpus[..n]) <==> i < n)
  {
    assert usage[id] in cpus;
    i :| 0 <= i < |cpus| && cpus[i] == usage[id];
    if i < n {
      assert IdsOf(cpus[..n])[i] == id;
    }
    if id in IdsOf(cpus[..n]) {
      var j :| 0 <= j < n && IdsOf(cpus[..n])[j] == id;
      assert cpus[j] == usage[id];
    }
  }

  /** The CPUs of one load-balanced container: from the front of the freshly sorted list.  The
      chosen CPUs are least loaded, each is chosen once, its counter goes up by one, and it is
      entered in the container's pinning list. */
  method PlaceContainer(cpus: seq<Cpu>, usage: map<int, Cpu>, ghost ids: seq<int>, c: nat, limit: int, pinning: Pinning)
    returns (pinning': Pinning, cpus': seq<Cpu>)
    requires Filed(usage) && Names(ids, usage) && Arranged(cpus, usage)
    requires Counted(pinning, usage) && ListOf(pinning, c) == []
    modifies Objects(usage)
    ensures Arranged(cpus', usage)
    ensures Counted(pinning', usage)
    ensures forall d :: d != c ==> ListOf(pinning', d) == ListOf(pinning, d)
    ensures Distinct(ListOf(pinning', c)) && |ListOf(pinning', c)| == Share(limit, |ids|)
    ensures PlacedBy(old(LoadsOf(ids, usage)), limit, MaskOf(ids, ListOf(pinning', c)), LoadsOf(ids, usage))
  {
    cpus' := SortByCount(cpus);
    StillArranged(cpus, cpus', usage);
    SameLength(cpus', usage, ids);
    ghost var l := LoadsOf(ids, usage);
    var n;
    pinning', n := TakeFront(cpus', usage, c, limit, pinning);
    ghost var l' := LoadsOf(ids, usage);
    ghost var chosen := ListOf(pinning', c);
    DistinctIds(cpus', usage, ids, n);
    forall p | 0 <= p < |ids| ensures l'[p] == l[p] + if ids[p] in chosen then 1 else 0 {
      var i := Position(cpus', usage, n, ids[p]);
    }
    forall p, q | 0 <= p < |ids| && 0 <= q < |ids| && ids[p] in chosen && ids[q] !in chosen ensures l[p] <= l[q] {
      var i := Position(cpus', usage, n, ids[p]);
      var j := Position(cpus', usage, n, ids[q]);
    }
    PlacementOf(ids, chosen, limit, l, l');
  }

  // ----- Sorting the containers into pinned and balanced -----------------------------------------

  type Fixed = map<int, seq<nat>>

  function FixedOf(fixed: Fixed, nr: int): seq<nat> {
    if nr in fixed then fixed[nr] else []
  }

  /** How often container c is listed for CPU nr. */
  function Times(fixed: Fixed, nr: int, c: nat): nat { multiset(FixedOf(fixed, nr))[c] }

  function PinsAt(rs: seq<Request>, ids: seq<int>, c: nat, nr: int): nat {
    if c < |rs| then Pins(rs[c], ids, nr) else 0
  }

  /** fixed lists, for every usable CPU, each container as often as it asks to be pinned there. */
  ghost predicate FixedFor(fixed: Fixed, rs: seq<Request>, ids: seq<int>) {
    && (forall nr :: nr in fixed ==> nr in ids)
    && (forall nr :: |FixedOf(fixed, nr)| == PinnedLoad(rs, ids, nr))
    && (forall nr: int, c: nat :: Times(fixed, nr, c) == PinsAt(rs, ids, c, nr))
  }

  ghost predicate WellFormed(rs: seq<Request>) {
    forall i :: 0 <= i < |rs| ==> !rs[i].BadSet?
  }

  /** balanced gives the count of every load-balanced container. */
  ghost predicate BalancedFor(balanced: map<nat, int>, rs: seq<Request>, ids: seq<int>) {
    && (forall c: nat :: c in balanced <==> c < |rs| && rs[c].CountOf?)
    && (forall c: nat :: c in balanced ==> balanced[c] == Min(rs[c].n, |ids|))
  }

  /** fixed' is fixed with container c listed once more for every entry of list. */
  ghost predicate FixedPlus(fixed: Fixed, fixed': Fixed, c: nat, list: seq<int>) {
    && (forall nr :: |FixedOf(fixed', nr)| == |FixedOf(fixed, nr)| + multiset(list)[nr])
    && (forall nr: int, d: nat ::
          Times(fixed', nr, d) == Times(fixed, nr, d) + if d == c then multiset(list)[nr] else 0)
  }

  lemma OneMore(list: seq<int>, nr: int)
    ensures forall n: int :: multiset(list + [nr])[n] == multiset(list)[n] + if n == nr then 1 else 0
  {
  }

  lemma OneMoreTime(fixed: Fixed, nr: int, c: nat)
    ensures forall n: int, d: nat :: Times(fixed[nr := FixedOf(fixed, nr) + [c]], n, d)
                                  == Times(fixed, n, d) + if n == nr && d == c then 1 else 0
  {
  }

  lemma FixedPlusOne(fixed: Fixed, fixed': Fixed, c: nat, list: seq<int>, nr: int)
    requires FixedPlus(fixed, fixed', c, list)
    ensures FixedPlus(fixed, fixed'[nr := FixedOf(fixed', nr) + [c]], c, list + [nr])
  {
    OneMore(list, nr);
    OneMoreTime(fixed', nr, c);
  }

  method FixContainer(fixed: Fixed, c: nat, xs: seq<int>, ids: seq<int>) returns (fixed': Fixed)
    requires forall nr :: nr in fixed ==> nr in ids
    ensures forall nr :: nr in fixed' ==> nr in ids
    ensures FixedPlus(fixed, fixed', c, Within(xs, ids))
  {
    fixed' := fixed;
    for n := 0 to |xs|
      invariant forall nr :: nr in fixed' ==> nr in ids
      invariant FixedPlus(fixed, fixed', c, Within(xs[..n], ids))
    {
      assert xs[..n + 1][..n] == xs[..n];
      if xs[n] in ids {
        FixedPlusOne(fixed, fixed', c, Within(xs[..n], ids), xs[n]);
        fixed' := fixed'[xs[n] := FixedOf(fixed', xs[n]) + [c]];
      }
    }
    assert xs[..|xs|] == xs;
  }

  method ReadLimit(c: Container, u: Usable) returns (r: Request)
    ensures r == Asked(c, u)
  {
    if !c.loads || !c.running {
      return NoRequest;
    }
    var text := LimitText(c, u);
    var count := Atoi(text);
    if count.Some? {
      return CountOf(count.value);
    }
    var cpus := ParseCpuset(text);
    return if cpus.None? then BadSet else SetOf(cpus.value);
  }

  method SortContainer(fixed: Fixed, balanced: map<nat, int>, c: nat, request: Request, ids: seq<int>)
    returns (fixed': Fixed, balanced': map<nat, int>)
    requires !request.BadSet? && forall nr :: nr in fixed ==> nr in ids
    ensures forall nr :: nr in fixed' ==> nr in ids
    ensures FixedPlus(fixed, fixed', c, PinList(request, ids))
    ensures balanced' == if request.CountOf? then balanced[c := Min(request.n, |ids|)] else balanced
  {
    fixed', balanced' := fixed, balanced;
    match request {
      case CountOf(count) =>
        balanced' := balanced[c := Min(count, |ids|)];
      case SetOf(cpus) =>
        fixed' := FixContainer(fixed, c, cpus, ids);
      case NoRequest =>
    }
  }

  /** The first loop.  A cpuset that does not parse ends the whole rebalancing. */
  method SortContainers(cs: seq<Container>, u: Usable, ghost rs: seq<Request>)
    returns (ok: bool, fixed: Fixed, balanced: map<nat, int>)
    requires |rs| == |cs| && forall i :: 0 <= i < |cs| ==> Asked(cs[i], u) == rs[i]
    ensures ok <==> WellFormed(rs)
    ensures ok ==> FixedFor(fixed, rs, u.ids)
    ensures ok ==> BalancedFor(balanced, rs, u.ids)
  {
    fixed, balanced := map[], map[];
    for n := 0 to |cs|
      invariant WellFormed(rs[..n])
      invariant FixedFor(fixed, rs[..n], u.ids)
      invariant BalancedFor(balanced, rs[..n], u.ids)
    {
      var request := ReadLimit(cs[n], u);
      if request.BadSet? {
        assert rs[n].BadSet?;
        return false, map[], map[];
      }
      ghost var fixed0, balanced0 := fixed, balanced;
      fixed, balanced := SortContainer(fixed, balanced, n, request, u.ids);
      FixedGrows(fixed0, fixed, rs, u.ids, n);
      BalancedGrows(balanced0, balanced, rs, u.ids, n);
    }
    assert rs[..|cs|] == rs;
    ok := true;
  }

  lemma BalancedGrows(was: map<nat, int>, balanced: map<nat, int>, rs: seq<Request>, ids: seq<int>, n: nat)
    requires n < |rs| && BalancedFor(was, rs[..n], ids) && WellFormed(rs[..n]) && !rs[n].BadSet?
    requires balanced == if rs[n].CountOf? then was[n := Min(rs[n].n, |ids|)] else was
    ensures BalancedFor(balanced, rs[..n + 1], ids) && WellFormed(rs[..n + 1])
  {
  }

  lemma FixedGrows(was: Fixed, fixed: Fixed, rs: seq<Request>, ids: seq<int>, n: nat)
    requires n < |rs| && FixedFor(was, rs[..n], ids)
    requires forall nr :: nr in fixed ==> nr in ids
    requires FixedPlus(was, fixed, n, PinList(rs[n], ids))
    ensures FixedFor(fixed, rs[..n + 1], ids)
  {
    var before, after, list := rs[..n], rs[..n + 1], PinList(rs[n], ids);
    assert after[..n] == before;
    forall nr: int, d: nat ensures Times(fixed, nr, d) == PinsAt(after, ids, d, nr) {
      assert Times(was, nr, d) == PinsAt(before, ids, d, nr);
    }
  }

  // ----- Pinned placements --------------------------------------------------------------------------

  method NewUsage(ids: seq<int>) returns (usage: map<int, Cpu>)
    ensures Filed(usage) && (forall id :: id in usage <==> id in ids)
    ensures forall i :: 0 <= i < |ids| ==> ids[i] in usage
    ensures fresh(Objects(usage))
    ensures forall id :: id in usage ==> usage[id].count == 0
  {
    usage := map[];
    for n := 0 to |ids|
      invariant Filed(usage) && (forall id :: id in usage <==> id in ids[..n])
      invariant forall i :: 0 <= i < n ==> ids[i] in usage
      invariant forall id :: id in usage ==> fresh(usage[id]) && usage[id].count == 0
    {
      var cpu := new Cpu(ids[n]);
      usage := usage[ids[n] := cpu];
      assert ids[..n + 1] == ids[..n] + [ids[n]];
    }
    assert ids[..|ids|] == ids;
  }

  /** How often CPU id stands in the list of container c. */
  function Listed(pinning: Pinning, c: nat, id: int): nat { multiset(ListOf(pinning, c))[id] }

  /** The counters and lists after the pinned containers of the CPUs in done were placed,
      whatever order the CPUs are visited in. */
  ghost predicate PinnedAs(pinning: Pinning, fixed: Fixed, done: set<int>, usage: map<int, Cpu>)
    reads Objects(usage)
  {
    && (forall id :: id in usage ==> usage[id].count == if id in done then |FixedOf(fixed, id)| else 0)
    && (forall c: nat, id: int ::
          Listed(pinning, c, id) == if id in usage && id in done then Times(fixed, id, c) else 0)
  }

  lemma ListedAppend(pinning: Pinning, c: nat, id: int)
    ensures forall d: nat, i: int ::
              Listed(Append(pinning, c, id), d, i) == Listed(pinning, d, i) + if d == c && i == id then 1 else 0
  {}

  method PlaceFixed(id: int, ctns: seq<nat>, usage: map<int, Cpu>, pinning: Pinning) returns (pinning': Pinning)
    requires Filed(usage) && id in usage && Counted(pinning, usage)
    modifies usage[id]
    ensures Counted(pinning', usage)
    ensures usage[id].count == old(usage[id].count) + |ctns|
    ensures forall c: nat, i: int ::
              Listed(pinning', c, i) == Listed(pinning, c, i) + if i == id then multiset(ctns)[c] else 0
  {
    pinning' := pinning;
    for n := 0 to |ctns|
      invariant Counted(pinning', usage)
      invariant usage[id].count == old(usage[id].count) + n
      invariant forall c: nat, i: int ::
                  Listed(pinning', c, i) == Listed(pinning, c, i) + if i == id then multiset(ctns[..n])[c] else 0
    {
      ListedAppend(pinning', ctns[n], id);
      assert ctns[..n + 1] == ctns[..n] + [ctns[n]];
      pinning' := CountOne(usage[id], usage, ctns[n], pinning');
    }
    assert ctns[..|ctns|] == ctns;
  }

  /** The next key of a map that is ranged over: any of those left. */
  method PickAny<T>(todo: set<T>) returns (x: T)
    requires todo != {}
    ensures x in todo
  {
    x :| x in todo;
  }

  method PlacePinned(fixed: Fixed, usage: map<int, Cpu>) returns (pinning: Pinning)
    requires Filed(usage) && forall id :: id in usage ==> usage[id].count == 0
    modifies Objects(usage)
    ensures Counted(pinning, usage)
    ensures PinnedAs(pinning, fixed, fixed.Keys, usage)
  {
    pinning := map[];
    var todo := fixed.Keys;
    assert forall id :: Slots(pinning, id) == {};
    while todo != {}
      invariant todo <= fixed.Keys
      invariant Counted(pinning, usage)
      invariant PinnedAs(pinning, fixed, fixed.Keys - todo, usage)
    {
      var cpu := PickAny(todo);
      if cpu in usage {
        pinning := PlaceFixed(cpu, fixed[cpu], usage, pinning);
      }
      todo := todo - {cpu};
    }
    assert fixed.Keys - todo == fixed.Keys;
  }

  // ----- Balanced placements ------------------------------------------------------------------------

  /** The containers in order were placed one after the other, each on the CPUs of its list,
      which were least loaded at the time. */
  ghost predicate Trace(ids: seq<int>, l: Loads, balanced: map<nat, int>, order: seq<nat>, pinning: Pinning, l': Loads)
    decreases |order|
  {
    if order == [] then l' == l
    else
      var earlier, c := order[..|order|-1], order[|order|-1];
      && c in balanced
      && exists m :: Trace(ids, l, balanced, earlier, pinning, m)
                     && PlacedBy(m, balanced[c], MaskOf(ids, ListOf(pinning, c)), l')
  }

  lemma {:induction false} TraceFrame(ids: seq<int>, l: Loads, balanced: map<nat, int>, order: seq<nat>,
                                      pinning: Pinning, pinning': Pinning, l': Loads)
    requires Trace(ids, l, balanced, order, pinning, l')
    requires forall i :: 0 <= i < |order| ==> ListOf(pinning', order[i]) == ListOf(pinning, order[i])
    ensures Trace(ids, l, balanced, order, pinning', l')
    decreases |order|
  {
    if order != [] {
      var earlier, c := order[..|order|-1], order[|order|-1];
      var m :| Trace(ids, l, balanced, earlier, pinning, m)
               && PlacedBy(m, balanced[c], MaskOf(ids, ListOf(pinning, c)), l');
      TraceFrame(ids, l, balanced, earlier, pinning, pinning', m);
    }
  }

  lemma TraceSnoc(ids: seq<int>, l: Loads, balanced: map<nat, int>, order: seq<nat>, pinning: Pinning, m: Loads,
                  c: nat, pinning': Pinning, l': Loads)
    requires Trace(ids, l, balanced, order, pinning, m)
    requires c in balanced && c !in order && forall d :: d != c ==> ListOf(pinning', d) == ListOf(pinning, d)
    requires PlacedBy(m, balanced[c], MaskOf(ids, ListOf(pinning', c)), l')
    ensures Trace(ids, l, balanced, order + [c], pinning', l')
  {
    TraceFrame(ids, l, balanced, order, pinning, pinning', m);
    assert (order + [c])[..|order|] == order;
  }

  ghost predicate Visits(order: seq<nat>, balanced: map<nat, int>) {
    Distinct(order) && forall c :: c in order <==> c in balanced
  }

  /** Each container in order has the right number of different CPUs. */
  ghost predicate Allotted(pinning: Pinning, order: seq<nat>, balanced: map<nat, int>, n: nat) {
    forall i :: 0 <= i < |order| ==>
      && order[i] in balanced
      && Distinct(ListOf(pinning, order[i]))
      && |ListOf(pinning, order[i])| == Share(balanced[order[i]], n)
  }

  lemma AllottedSnoc(pinning: Pinning, pinning': Pinning, order: seq<nat>, balanced: map<nat, int>, n: nat, c: nat)
    requires Allotted(pinning, order, balanced, n)
    requires c in balanced && c !in order && forall d :: d != c ==> ListOf(pinning', d) == ListOf(pinning, d)
    requires Distinct(ListOf(pinning', c)) && |ListOf(pinning', c)| == Share(balanced[c], n)
    ensures Allotted(pinning', order + [c], balanced, n)
  {
  }

  lemma VisitSnoc(order: seq<nat>, todo: set<nat>, all: set<nat>, c: nat)
    requires c in todo && todo <= all && Distinct(order) && forall d :: d in order <==> d in all && d !in todo
    ensures Distinct(order + [c]) && forall d :: d in order + [c] <==> d in all && d !in todo - {c}
  {
  }

  /** What holds after the containers in order were placed. */
  ghost predicate Progress(ids: seq<int>, l: Loads, balanced: map<nat, int>, order: seq<nat>, todo: set<nat>,
                           pinned: Pinning, pinning: Pinning, l': Loads) {
    && Distinct(order) && (forall c :: c in order <==> c in balanced.Keys && c !in todo)
    && Trace(ids, l, balanced, order, pinning, l')
    && Allotted(pinning, order, balanced, |ids|)
    && (forall c :: c !in order ==> ListOf(pinning, c) == ListOf(pinned, c))
  }

  lemma ProgressSnoc(ids: seq<int>, l: Loads, balanced: map<nat, int>, order: seq<nat>, todo: set<nat>, pinned: Pinning,
                     before: Pinning, m: Loads, c: nat, pinning: Pinning, l': Loads)
    requires Progress(ids, l, balanced, order, todo, pinned, before, m)
    requires c in todo && todo <= balanced.Keys && forall d :: d != c ==> ListOf(pinning, d) == ListOf(before, d)
    requires Distinct(ListOf(pinning, c)) && |ListOf(pinning, c)| == Share(balanced[c], |ids|)
    requires PlacedBy(m, balanced[c], MaskOf(ids, ListOf(pinning, c)), l')
    ensures Progress(ids, l, balanced, order + [c], todo - {c}, pinned, pinning, l')
  {
    TraceSnoc(ids, l, balanced, order, before, m, c, pinning, l');
    AllottedSnoc(before, pinning, order, balanced, |ids|, c);
    VisitSnoc(order, todo, balanced.Keys, c);
  }

  method PlaceBalanced(balanced: map<nat, int>, usage: map<int, Cpu>, cpus: seq<Cpu>, ghost ids: seq<int>,
                       pinned: Pinning)
    returns (pinning: Pinning, ghost order: seq<nat>)
    requires Filed(usage) && Names(ids, usage) && Arranged(cpus, usage) && Counted(pinned, usage)
    requires forall c :: c in balanced ==> ListOf(pinned, c) == []
    modifies Objects(usage)
    ensures Counted(pinning, usage)
    ensures Progress(ids, old(LoadsOf(ids, usage)), balanced, order, {}, pinned, pinning, LoadsOf(ids, usage))
  {
    pinning, order := pinned, [];
    var sorted := cpus;
    var todo := balanced.Keys;
    ghost var l := LoadsOf(ids, usage);
    while todo != {}
      invariant todo <= balanced.Keys
      invariant Arranged(sorted, usage) && Counted(pinning, usage)
      invariant Progress(ids, l, balanced, order, todo, pinned, pinning, LoadsOf(ids, usage))
    {
      var c := PickAny(todo);
      ghost var before, m := pinning, LoadsOf(ids, usage);
      pinning, sorted := PlaceContainer(sorted, usage, ids, c, balanced[c], pinning);
      ProgressSnoc(ids, l, balanced, order, todo, pinned, before, m, c, pinning, LoadsOf(ids, usage));
      order := order + [c];
      todo := todo - {c};
    }
  }

  // ----- The whole of it ------------------------------------------------------------------------------

  function BalancedOf(rs: seq<Request>, ids: seq<int>): map<nat, int> {
    map c: nat | c < |rs| && rs[c].CountOf? :: Min(rs[c].n, |ids|)
  }

  function PinnedLoads(rs: seq<Request>, usable: seq<int>, ids: seq<int>): (l: Loads)
    ensures |l| == |ids|
  {
    seq(|ids|, p requires 0 <= p < |ids| => PinnedLoad(rs, usable, ids[p]))
  }

  ghost predicate SameElements<T>(xs: seq<T>, ys: seq<T>) {
    && (forall i :: 0 <= i < |xs| ==> xs[i] in ys)
    && (forall i :: 0 <= i < |ys| ==> ys[i] in xs)
  }

  /** What one rebalancing leaves behind: l[p] is the counter of CPU ids[p]. */
  ghost predicate Outcome(rs: seq<Request>, usable: seq<int>, ids: seq<int>, pinning: Pinning, l: Loads) {
    && Distinct(ids) && SameElements(ids, usable)
    // Load-balanced containers were placed in some order, after the pinned ones.
    && (exists order :: Visits(order, BalancedOf(rs, usable))
                        && Trace(ids, PinnedLoads(rs, usable, ids), BalancedOf(rs, usable), order, pinning, l))
    && (forall c :: c in BalancedOf(rs, usable) ==>
          Distinct(ListOf(pinning, c)) && |ListOf(pinning, c)| == Share(rs[c].n, |ids|))
    // Pinned containers have what they asked for, as often as they asked, and the others nothing.
    && (forall c: nat, id: int :: c !in BalancedOf(rs, usable) ==> Listed(pinning, c, id) == PinsAt(rs, usable, c, id))
    // Every counter is the number of entries for its CPU.
    && |l| == |ids|
    && (forall p :: 0 <= p < |ids| ==> l[p] == Entries(pinning, ids[p]))
    && (forall c, j :: c in pinning && 0 <= j < |pinning[c]| ==> pinning[c][j] in ids)
  }

  method ListUsage(usage: map<int, Cpu>) returns (cpus: seq<Cpu>)
    requires Filed(usage)
    ensures Arranged(cpus, usage) && Names(IdsOf(cpus), usage)
  {
    cpus := [];
    var todo := usage.Keys;
    while todo != {}
      invariant todo <= usage.Keys
      invariant Distinct(cpus)
      invariant forall i :: 0 <= i < |cpus| ==>
            cpus[i].id in usage && usage[cpus[i].id] == cpus[i] && cpus[i].id !in todo
      invariant forall id :: id in usage && id !in todo ==> usage[id] in cpus && id in IdsOf(cpus)
    {
      var id := PickAny(todo);
      ghost var before := cpus;
      cpus := cpus + [usage[id]];
      assert IdsOf(cpus) == IdsOf(before) + [id];
      todo := todo - {id};
    }
  }

  lemma SomethingListed(xs: seq<int>)
    ensures xs == [] || exists i :: 0 <= i < |xs| && 0 < multiset(xs)[xs[i]]
  {
    assert xs == [] || xs[0] in multiset(xs);
  }

  lemma BalancedUnpinned(pinning: Pinning, fixed: Fixed, rs: seq<Request>, usable: seq<int>, usage: map<int, Cpu>)
    requires PinnedAs(pinning, fixed, fixed.Keys, usage) && FixedFor(fixed, rs, usable)
    ensures forall c :: c in BalancedOf(rs, usable) ==> ListOf(pinning, c) == []
  {
    forall c | c in BalancedOf(rs, usable) ensures ListOf(pinning, c) == [] {
      var list := ListOf(pinning, c);
      forall i | 0 <= i < |list| ensures multiset(list)[list[i]] == 0 {
        var x := list[i];
        assert Listed(pinning, c, x) == 0 by {
          assert Times(fixed, x, c) == PinsAt(rs, usable, c, x) == 0;
        }
      }
      SomethingListed(list);
    }
  }

  lemma PinnedAsAsked(pinning: Pinning, fixed: Fixed, rs: seq<Request>, usable: seq<int>, usage: map<int, Cpu>,
                      ids: seq<int>)
    requires PinnedAs(pinning, fixed, fixed.Keys, usage) && FixedFor(fixed, rs, usable)
    requires Filed(usage) && Names(ids, usage) && forall id :: id in usage <==> id in usable
    ensures LoadsOf(ids, usage) == PinnedLoads(rs, usable, ids)
    ensures forall c: nat, id: int :: Listed(pinning, c, id) == PinsAt(rs, usable, c, id)
  {
    forall c: nat, id: int ensures Listed(pinning, c, id) == PinsAt(rs, usable, c, id) {
      assert Times(fixed, id, c) == PinsAt(rs, usable, c, id);
      assert id !in fixed ==> Times(fixed, id, c) == 0;
    }
  }

  /** From the limits of the containers to the pinning lists. */
  method Rebalance(cs: seq<Container>, u: Usable, ghost rs: seq<Request>)
    returns (r: Option<Pinning>, ghost ids: seq<int>, ghost l: Loads)
    requires |rs| == |cs| && forall i :: 0 <= i < |cs| ==> Asked(cs[i], u) == rs[i]
    ensures r.Some? <==> WellFormed(rs)
    ensures r.Some? ==> Outcome(rs, u.ids, ids, r.value, l)
  {
    r, ids, l := None, [], [];
    var ok, fixed, balanced := SortContainers(cs, u, rs);
    if ok {
      var pinning;
      pinning, ids, l := Place(rs, u.ids, fixed, balanced);
      r := Some(pinning);
    }
  }

  method Place(ghost rs: seq<Request>, usable: seq<int>, fixed: Fixed, balanced: map<nat, int>)
    returns (pinning: Pinning, ghost ids: seq<int>, ghost l: Loads)
    requires FixedFor(fixed, rs, usable) && BalancedFor(balanced, rs, usable)
    ensures Outcome(rs, usable, ids, pinning, l)
  {
    var usage := NewUsage(usable);
    pinning := PlacePinned(fixed, usage);
    var cpus := ListUsage(usage);
    ids := IdsOf(cpus);
    assert balanced == BalancedOf(rs, usable);
    BalancedUnpinned(pinning, fixed, rs, usable, usage);
    PinnedAsAsked(pinning, fixed, rs, usable, usage, ids);
    ghost var pinned := pinning;
    ghost var order;
    pinning, order := PlaceBalanced(balanced, usage, cpus, ids, pinning);
    l := LoadsOf(ids, usage);
    forall i | 0 <= i < |usable| ensures usable[i] in ids {
      var x := usable[i];
      assert x in usage;
    }
    OutcomeOf(rs, usable, ids, pinned, pinning, order, l);
  }

  lemma OutcomeOf(rs: seq<Request>, usable: seq<int>, ids: seq<int>, pinned: Pinning, pinning: Pinning,
                  order: seq<nat>, l: Loads)
    requires Distinct(ids) && SameElements(ids, usable)
    requires Progress(ids, PinnedLoads(rs, usable, ids), BalancedOf(rs, usable), order, {}, pinned, pinning, l)
    requires forall c: nat, id: int :: Listed(pinned, c, id) == PinsAt(rs, usable, c, id)
    requires |l| == |ids| && forall p :: 0 <= p < |ids| ==> l[p] == Entries(pinning, ids[p])
    requires forall c, j :: c in pinning && 0 <= j < |pinning[c]| ==> pinning[c][j] in ids
    ensures Outcome(rs, usable, ids, pinning, l)
  {
    MoreNames(usable, ids);
    forall c | c in BalancedOf(rs, usable)
      ensures Distinct(ListOf(pinning, c)) && |ListOf(pinning, c)| == Share(rs[c].n, |ids|)
    {
      assert c in order;
      var i :| 0 <= i < |order| && order[i] == c;
    }
  }

  /** The list of usable CPUs may repeat a CPU, so it is at least as long as the list of names. */
  lemma MoreNames(usable: seq<int>, ids: seq<int>)
    requires Distinct(ids) && forall i :: 0 <= i < |ids| ==> ids[i] in usable
    ensures |ids| <= |usable|
  {
    var a := set i | 0 <= i < |ids| :: ids[i];
    var b := set i | 0 <= i < |usable| :: usable[i];
    DistinctSize(ids);
    SetSize(usable);
    assert a <= b;
    SubsetSize(a, b);
  }

  lemma {:induction false} DistinctSize(xs: seq<int>)
    requires Distinct(xs)
    ensures |set i | 0 <= i < |xs| :: xs[i]| == |xs|
  {
    if xs != [] {
      var n := |xs| - 1;
      DistinctSize(xs[..n]);
      var front := set i | 0 <= i < n :: xs[..n][i];
      assert (set i | 0 <= i < |xs| :: xs[i]) == front + {xs[n]};
      assert xs[n] !in front;
    }
  }

  lemma {:induction false} SetSize(xs: seq<int>)
    ensures |set i | 0 <= i < |xs| :: xs[i]| <= |xs|
  {
    if xs != [] {
      var n := |xs| - 1;
      SetSize(xs[..n]);
      var front := set i | 0 <= i < n :: xs[..n][i];
      assert (set i | 0 <= i < |xs| :: xs[i]) == front + {xs[n]};
    }
  }

  lemma SubsetSize(a: set<int>, b: set<int>)
    requires a <= b
    ensures |a| <= |b|
  {
    assert b == a + (b - a);
  }

  // ----- Independence of map order and of ties -----------------------------------------------------

  function Apply<T>(xs: seq<T>, f: T -> int): (ys: seq<int>)
    ensures |ys| == |xs| && forall i :: 0 <= i < |xs| ==> ys[i] == f(xs[i])
  {
    seq(|xs|, i requires 0 <= i < |xs| => f(xs[i]))
  }

  function RemoveAt<T>(xs: seq<T>, i: nat): (ys: seq<T>)
    requires i < |xs|
    ensures |ys| == |xs| - 1
  {
    xs[..i] + xs[i+1..]
  }

  lemma RemoveAtMultiset<T>(xs: seq<T>, i: nat)
    requires i < |xs|
    ensures multiset(xs) == multiset(RemoveAt(xs, i)) + multiset{xs[i]}
  {
    assert xs == xs[..i] + [xs[i]] + xs[i+1..];
  }

  lemma ApplyRemoved<T>(xs: seq<T>, i: nat, f: T -> int)
    requires i < |xs|
    ensures multiset(Apply(xs, f)) == multiset(Apply(RemoveAt(xs, i), f)) + multiset{f(xs[i])}
  {
    RemoveAtMultiset(Apply(xs, f), i);
    assert RemoveAt(Apply(xs, f), i) == Apply(RemoveAt(xs, i), f);
  }

  lemma {:induction false} ApplyPermuted<T>(xs: seq<T>, ys: seq<T>, f: T -> int)
    requires multiset(xs) == multiset(ys)
    ensures multiset(Apply(xs, f)) == multiset(Apply(ys, f))
    decreases |xs|
  {
    if xs == [] {
      assert |multiset(ys)| == 0;
    } else {
      assert xs[0] in multiset(ys);
      var i :| 0 <= i < |ys| && ys[i] == xs[0];
      RemoveAtMultiset(xs, 0);
      RemoveAtMultiset(ys, i);
      assert multiset(RemoveAt(xs, 0)) == multiset(xs) - multiset{xs[0]} == multiset(RemoveAt(ys, i));
      ApplyPermuted(RemoveAt(xs, 0), RemoveAt(ys, i), f);
      ApplyRemoved(xs, 0, f);
      ApplyRemoved(ys, i, f);
    }
  }

  lemma SameMembers<T(!new)>(xs: seq<T>, ys: seq<T>)
    requires SameElements(xs, ys)
    ensures forall x :: x in xs ==> x in ys
  {
    forall x | x in xs ensures x in ys {
      var i :| 0 <= i < |xs| && xs[i] == x;
      assert xs[i] in ys;
    }
  }

  lemma DistinctPermuted<T(!new)>(xs: seq<T>, ys: seq<T>)
    requires Distinct(xs) && Distinct(ys) && SameElements(xs, ys)
    ensures multiset(xs) == multiset(ys)
  {
    DistinctMultiset(xs);
    DistinctMultiset(ys);
    SameMembers(xs, ys);
    SameMembers(ys, xs);
    forall x ensures multiset(xs)[x] == multiset(ys)[x] {
      if x in xs {
        var i :| 0 <= i < |xs| && xs[i] == x;
        var j :| 0 <= j < |ys| && ys[j] == x;
        assert multiset(xs)[xs[i]] == 1 && multiset(ys)[ys[j]] == 1;
      }
    }
  }

  /** The limits of the load-balanced containers, in the order they were visited. */
  function LimitsAlong(order: seq<nat>, balanced: map<nat, int>): seq<int> {
    Apply(order, c => LimitOf(balanced, c))
  }

  lemma {:induction false} TraceIsRun(ids: seq<int>, l: Loads, balanced: map<nat, int>, order: seq<nat>,
                                      pinning: Pinning, l': Loads)
    requires Trace(ids, l, balanced, order, pinning, l')
    ensures Run(l, LimitsAlong(order, balanced), l')
    decreases |order|
  {
    if order != [] {
      var earlier, c := order[..|order|-1], order[|order|-1];
      var m :| Trace(ids, l, balanced, earlier, pinning, m)
               && PlacedBy(m, balanced[c], MaskOf(ids, ListOf(pinning, c)), l');
      TraceIsRun(ids, l, balanced, earlier, pinning, m);
      var limits := LimitsAlong(order, balanced);
      assert limits[..|limits|-1] == LimitsAlong(earlier, balanced);
      assert limits[|limits|-1] == balanced[c];
      assert Run(l, limits[..|limits|-1], m) && Placed(m, limits[|limits|-1], l');
    }
  }

  function LimitOf(balanced: map<nat, int>, c: nat): int {
    if c in balanced then balanced[c] else 0
  }

  lemma SameVisits(order: seq<nat>, order': seq<nat>, balanced: map<nat, int>)
    requires Visits(order, balanced) && Visits(order', balanced)
    ensures SameElements(order, order')
  {
    forall i | 0 <= i < |order| ensures order[i] in order' {
      var c := order[i];
      assert c in balanced;
    }
    forall i | 0 <= i < |order'| ensures order'[i] in order {
      var c := order'[i];
      assert c in balanced;
    }
  }

  lemma SameThrough<T>(xs: seq<T>, ys: seq<T>, zs: seq<T>)
    requires SameElements(xs, zs) && SameElements(ys, zs)
    ensures SameElements(xs, ys)
  {
    forall i | 0 <= i < |xs| ensures xs[i] in ys {
      assert xs[i] in zs;
      var j :| 0 <= j < |zs| && zs[j] == xs[i];
    }
    forall i | 0 <= i < |ys| ensures ys[i] in xs {
      assert ys[i] in zs;
      var j :| 0 <= j < |zs| && zs[j] == ys[i];
    }
  }

  lemma SamePinnedLoads(rs: seq<Request>, usable: seq<int>, ids: seq<int>, ids': seq<int>)
    requires Distinct(ids) && Distinct(ids') && SameElements(ids, usable) && SameElements(ids', usable)
    ensures multiset(PinnedLoads(rs, usable, ids)) == multiset(PinnedLoads(rs, usable, ids'))
  {
    var f := id => PinnedLoad(rs, usable, id);
    SameThrough(ids, ids', usable);
    DistinctPermuted(ids, ids');
    ApplyPermuted(ids, ids', f);
    NatsAsInts(PinnedLoads(rs, usable, ids), Apply(ids, f), PinnedLoads(rs, usable, ids'), Apply(ids', f));
  }

  lemma NatsAsInts(a: seq<nat>, b: seq<int>, a': seq<nat>, b': seq<int>)
    requires |a| == |b| && |a'| == |b'| && multiset(b) == multiset(b')
    requires forall i :: 0 <= i < |a| ==> a[i] == b[i]
    requires forall i :: 0 <= i < |a'| ==> a'[i] == b'[i]
    ensures multiset(a) == multiset(a')
  {
    assert a == b && a' == b';
  }

  /** The balanced part of a rebalancing is a greedy run on top of the pinned loads. */
  lemma OutcomeRuns(rs: seq<Request>, usable: seq<int>, ids: seq<int>, pinning: Pinning, l: Loads)
    returns (order: seq<nat>)
    requires Outcome(rs, usable, ids, pinning, l)
    ensures Visits(order, BalancedOf(rs, usable))
    ensures Run(PinnedLoads(rs, usable, ids), LimitsAlong(order, BalancedOf(rs, usable)), l)
  {
    var balanced, start := BalancedOf(rs, usable), PinnedLoads(rs, usable, ids);
    order :| Visits(order, balanced) && Trace(ids, start, balanced, order, pinning, l);
    TraceIsRun(ids, start, balanced, order, pinning, l);
  }

  lemma SameLimits(order: seq<nat>, order': seq<nat>, balanced: map<nat, int>)
    requires Visits(order, balanced) && Visits(order', balanced)
    ensures multiset(LimitsAlong(order, balanced)) == multiset(LimitsAlong(order', balanced))
  {
    SameVisits(order, order', balanced);
    DistinctPermuted(order, order');
    ApplyPermuted(order, order', c => LimitOf(balanced, c));
  }

  /** Two rebalancings of the same containers on the same CPUs leave the same multiset of
      loads, whatever order the maps were ranged over in and whatever the sort did with ties. */
  lemma OutcomesAgree(rs: seq<Request>, usable: seq<int>, ids: seq<int>, pinning: Pinning, l: Loads,
                      ids': seq<int>, pinning': Pinning, l': Loads)
    requires Outcome(rs, usable, ids, pinning, l) && Outcome(rs, usable, ids', pinning', l')
    ensures multiset(l) == multiset(l')
  {
    var balanced := BalancedOf(rs, usable);
    var order := OutcomeRuns(rs, usable, ids, pinning, l);
    var order' := OutcomeRuns(rs, usable, ids', pinning', l');
    SameLimits(order, order', balanced);
    SamePinnedLoads(rs, usable, ids, ids');
    Confluence(PinnedLoads(rs, usable, ids), PinnedLoads(rs, usable, ids'),
               LimitsAlong(order, balanced), LimitsAlong(order', balanced), l, l');
  }

  /** On top of the pinned containers, no other assignment of the same numbers of CPUs to the
      load-balanced ones is better balanced; in particular none has a less busy busiest CPU. */
  lemma OutcomeIsOptimal(rs: seq<Request>, usable: seq<int>, ids: seq<int>, pinning: Pinning, l: Loads,
                         order: seq<nat>, other: Loads, cap: int)
    requires Outcome(rs, usable, ids, pinning, l)
    requires Visits(order, BalancedOf(rs, usable))
    requires AnyRun(PinnedLoads(rs, usable, ids), LimitsAlong(order, BalancedOf(rs, usable)), other)
    ensures NoWorse(l, other)
    ensures AtMost(other, cap) ==> AtMost(l, cap)
  {
    var balanced, start := BalancedOf(rs, usable), PinnedLoads(rs, usable, ids);
    var visited := OutcomeRuns(rs, usable, ids, pinning, l);
    SameLimits(visited, order, balanced);
    GreedyIsOptimal(start, LimitsAlong(visited, balanced), l, LimitsAlong(order, balanced), other);
    if AtMost(other, cap) {
      NoWorseBusiest(l, other, cap);
    }
  }

  lemma {:induction false} NoPinnedLoad(rs: seq<Request>, usable: seq<int>, id: int)
    requires forall i :: 0 <= i < |rs| ==> !rs[i].SetOf?
    ensures PinnedLoad(rs, usable, id) == 0
  {
    if rs != [] {
      NoPinnedLoad(rs[..|rs|-1], usable, id);
    }
  }

  lemma NoPinnedLoads(rs: seq<Request>, usable: seq<int>, ids: seq<int>)
    requires forall i :: 0 <= i < |rs| ==> !rs[i].SetOf?
    ensures PinnedLoads(rs, usable, ids) == seq(|ids|, _ => 0)
  {
    forall i | 0 <= i < |ids| ensures PinnedLoad(rs, usable, ids[i]) == 0 {
      NoPinnedLoad(rs, usable, ids[i]);
    }
  }

  /** With nothing pinned, the counters of the n CPUs are p / n rounded down or up, p being
      the number of placements, and both values occur. */
  lemma OutcomeWithoutPinned(rs: seq<Request>, usable: seq<int>, ids: seq<int>, pinning: Pinning, l: Loads)
    returns (p: nat)
    requires Outcome(rs, usable, ids, pinning, l) && ids != []
    requires forall i :: 0 <= i < |rs| ==> !rs[i].SetOf?
    ensures exists order :: Visits(order, BalancedOf(rs, usable))
                            && p == Placements(LimitsAlong(order, BalancedOf(rs, usable)), |ids|)
    ensures |l| == |ids| && Even(l, p)
  {
    var balanced, start := BalancedOf(rs, usable), PinnedLoads(rs, usable, ids);
    var order := OutcomeRuns(rs, usable, ids, pinning, l);
    NoPinnedLoads(rs, usable, ids);
    p := Placements(LimitsAlong(order, balanced), |ids|);
    BusiestIsCeiling(|ids|, LimitsAlong(order, balanced), l);
  }

  // ----- What each container gets ------------------------------------------------------------------

  /** What a container's configuration asks for, and that it has it: n CPUs are usable. */
  ghost predicate Served(c: Container, u: Usable, n: nat, list: seq<int>) {
    var text := if c.limit.None? || c.limit.value == "" then u.text else c.limit.value;
    if !c.loads || !c.running then list == []
    else if Atoi(text).Some? then
      var k := Atoi(text).value;
      Distinct(list) && (forall j :: 0 <= j < |list| ==> list[j] in u.ids) && |list| == if 0 <= k < n then k else n
    else
      && CpusetValue(text).Some?
      && forall id :: multiset(list)[id] == if id in u.ids then multiset(CpusetValue(text).value)[id] else 0
  }

  lemma {:induction false} WithinCounts(xs: seq<int>, keep: seq<int>, id: int)
    ensures multiset(Within(xs, keep))[id] == if id in keep then multiset(xs)[id] else 0
  {
    if xs != [] {
      var n := |xs| - 1;
      WithinCounts(xs[..n], keep, id);
      assert xs == xs[..n] + [xs[n]];
    }
  }

  lemma NothingListed(list: seq<int>)
    requires forall id: int :: multiset(list)[id] == 0
    ensures list == []
  {
    var id := if list == [] then 0 else list[0];
    assert multiset(list)[id] == 0;
    assert list == [] || id in multiset(list);
  }

  lemma ListsAreUsable(rs: seq<Request>, usable: seq<int>, ids: seq<int>, pinning: Pinning, l: Loads, c: nat)
    requires Outcome(rs, usable, ids, pinning, l)
    ensures forall j :: 0 <= j < |ListOf(pinning, c)| ==> ListOf(pinning, c)[j] in usable
  {
    forall j | 0 <= j < |ListOf(pinning, c)| ensures ListOf(pinning, c)[j] in usable {
      assert pinning[c][j] in ids;
      var p :| 0 <= p < |ids| && ids[p] == pinning[c][j];
      assert ids[p] in usable;
    }
  }

  /** A rebalancing serves every container. */
  lemma OutcomeServes(cs: seq<Container>, u: Usable, ids: seq<int>, pinning: Pinning, l: Loads, i: nat)
    requires i < |cs| && WellFormed(Requests(cs, u)) && Outcome(Requests(cs, u), u.ids, ids, pinning, l)
    ensures Served(cs[i], u, |ids|, ListOf(pinning, i))
  {
    var rs := Requests(cs, u);
    var list := ListOf(pinning, i);
    assert rs[i] == Asked(cs[i], u) && !rs[i].BadSet?;
    if rs[i].CountOf? {
      assert i in BalancedOf(rs, u.ids);
      ListsAreUsable(rs, u.ids, ids, pinning, l, i);
    } else {
      assert i !in BalancedOf(rs, u.ids);
      forall id: int ensures multiset(list)[id] == Pins(rs[i], u.ids, id) {
        assert Listed(pinning, i, id) == PinsAt(rs, u.ids, i, id);
      }
      if rs[i].NoRequest? {
        NothingListed(list);
      } else {
        forall id: int ensures multiset(list)[id] == if id in u.ids then multiset(rs[i].cpus)[id] else 0 {
          WithinCounts(rs[i].cpus, u.ids, id);
        }
      }
    }
  }

  /** A limit given as a number: that many different CPUs, or all there are. */
  lemma CountedLimit(c: Container, u: Usable, n: nat, list: seq<int>, k: nat)
    requires Served(c, u, n, list) && c.loads && c.running && c.limit == Some(Dec(k)) && k <= MAX_INT
    ensures Distinct(list) && |list| == (if k < n then k else n) && forall j :: 0 <= j < |list| ==> list[j] in u.ids
  {
    AtoiDec(k);
  }

  /** The texts that are read as limits all make sense. */
  ghost predicate Readable(cs: seq<Container>, u: Usable) {
    forall i :: 0 <= i < |cs| && cs[i].loads && cs[i].running ==>
      var text := if cs[i].limit.None? || cs[i].limit.value == "" then u.text else cs[i].limit.value;
      Atoi(text).Some? || CpusetValue(text).Some?
  }

  lemma ReadableRequests(cs: seq<Container>, u: Usable)
    ensures WellFormed(Requests(cs, u)) <==> Readable(cs, u)
  {
    var rs := Requests(cs, u);
    assert forall i :: 0 <= i < |cs| ==> rs[i] == Asked(cs[i], u);
    if !Readable(cs, u) {
      var i :| 0 <= i < |cs| && cs[i].loads && cs[i].running && !(
          var text := if cs[i].limit.None? || cs[i].limit.value == "" then u.text else cs[i].limit.value;
          Atoi(text).Some? || CpusetValue(text).Some?);
      assert rs[i].BadSet?;
    }
  }

  /** The whole of deviceTaskBalance, from the kernel's CPU lists to the pinning lists: it fails
      exactly if a list or a limit does not read or no CPU is left; otherwise every container has
      what it asks for, and the balanced ones were placed greedily. */
  method DeviceTaskBalance(effective: string, isolated: string, cs: seq<Container>)
    returns (r: Option<Pinning>, ghost ids: seq<int>, ghost l: Loads)
    ensures r.Some? <==> UsableOf(effective, isolated).Some? && Readable(cs, UsableOf(effective, isolated).value)
    ensures r.Some? ==>
              var u := UsableOf(effective, isolated).value;
              && Distinct(ids) && SameElements(ids, u.ids)
              && (forall i: nat :: i < |cs| ==> Served(cs[i], u, |ids|, ListOf(r.value, i)))
              && Outcome(Requests(cs, u), u.ids, ids, r.value, l)
  {
    r, ids, l := None, [], [];
    var usable := UsableCpus(effective, isolated);
    if usable.Some? {
      r, ids, l := Rebalance(cs, usable.value, Requests(cs, usable.value));
      ReadableRequests(cs, usable.value);
      if r.Some? {
        forall i: nat | i < |cs| ensures Served(cs[i], usable.value, |ids|, ListOf(r.value, i)) {
          OutcomeServes(cs, usable.value, ids, r.value, l, i);
        }
      }
    }
  }
}
