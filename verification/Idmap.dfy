// The allocation of isolated uid/gid ranges (findIdmap and idmapSize in
// lxd/container_lxc.go).
module Idmap {
  import opened GoStrings
  import opened Sequences
  import opened Machines

  /** A range of host ids: base up to but not including base + size. */
  datatype Entry = Entry(base: int, size: int) {
    function End(): int { base + size }
  }

  /** The first entry of the daemon's own id map. */
  datatype Host = Host(base: int, size: int) {
    /** The first id handed out: the first 65536 belong to containers that are not isolated. */
    function Low(): int { base + 65536 }
    function High(): int { base + size }
  }

  // ----- First fit ---------------------------------------------------------------------------

  /** The free space before entry i, or before the end of the region, starts at x: is it taken?
      The first gap may be filled completely, the others must keep one id to spare. */
  predicate Takes(host: Host, es: seq<Entry>, size: int, i: nat, x: int)
    requires i <= |es|
  {
    if i == |es| then x + size < host.High()
    else if i == 0 then x + size <= es[0].base
    else x + size < es[i].base
  }

  function FitFrom(host: Host, es: seq<Entry>, size: int, i: nat, x: int): Option<int>
    requires i <= |es|
    decreases |es| - i
  {
    if Takes(host, es, size, i, x) then Some(x)
    else if i == |es| then None
    else FitFrom(host, es, size, i + 1, es[i].End())
  }

  function Fit(host: Host, es: seq<Entry>, size: int): Option<int> {
    FitFrom(host, es, size, 0, host.Low())
  }

  /** The loop of findIdmap, over entries in any order.  Its second branch is dead: from index 1
      on, offset is the end of the previous entry. */
  method FindOffset(host: Host, es: seq<Entry>, size: int) returns (r: Option<int>)
    ensures r == Fit(host, es, size)
  {
    var offset := host.Low();
    var i := 0;
    while i < |es|
      invariant i <= |es|
      invariant offset == if i == 0 then host.Low() else es[i - 1].End()
      invariant Fit(host, es, size) == FitFrom(host, es, size, i, offset)
    {
      if i == 0 {
        if es[0].base < offset + size {
          offset := es[0].End();
          i := i + 1;
          continue;
        }
        return Some(offset);
      }
      if es[i - 1].End() > offset {
        assert false;
      }
      offset := es[i - 1].End();
      if offset + size < es[i].base {
        return Some(offset);
      }
      offset := es[i].End();
      i := i + 1;
    }
    if offset + size < host.High() {
      return Some(offset);
    }
    return None;
  }

  // ----- Correctness of first fit ----------------------------------------------------------------

  ghost predicate Disjoint(a: Entry, b: Entry) { a.End() <= b.base || b.End() <= a.base }

  ghost predicate InRegion(host: Host, e: Entry) { host.Low() <= e.base && e.End() <= host.High() }

  /** Entries of at least one id, in ascending order, apart from one another and in the region. */
  ghost predicate Layout(host: Host, es: seq<Entry>) {
    && (forall i :: 0 <= i < |es| ==> 1 <= es[i].size && InRegion(host, es[i]))
    && (forall i, j :: 0 <= i < j < |es| ==> es[i].End() <= es[j].base)
  }

  /** n consecutive ids from x on that lie in the region and belong to nobody. */
  ghost predicate FreeRun(host: Host, es: seq<Entry>, x: int, n: int) {
    InRegion(host, Entry(x, n)) && forall i :: 0 <= i < |es| ==> Disjoint(Entry(x, n), es[i])
  }

  /** A free run with one id to spare. */
  ghost predicate RoomAt(host: Host, es: seq<Entry>, x: int, size: int) { FreeRun(host, es, x, size + 1) }

  lemma {:induction false} FitFromFree(host: Host, es: seq<Entry>, size: int, i: nat, x: int)
    requires Layout(host, es) && 1 <= size && i <= |es|
    requires host.Low() <= x && forall k :: 0 <= k < i ==> es[k].End() <= x
    ensures FitFrom(host, es, size, i, x).Some? ==> FreeRun(host, es, FitFrom(host, es, size, i, x).value, size)
    decreases |es| - i
  {
    if i < |es| && !Takes(host, es, size, i, x) {
      FitFromFree(host, es, size, i + 1, es[i].End());
    }
  }

  lemma {:induction false} FitFromFirst(host: Host, es: seq<Entry>, size: int, i: nat, x: int, y: int)
    requires Layout(host, es) && 1 <= size && i <= |es|
    requires x <= y && FreeRun(host, es, y, size + 1)
    ensures FitFrom(host, es, size, i, x).Some?
    ensures FitFrom(host, es, size, i, x).value <= y || x == FitFrom(host, es, size, i, x).value
    decreases |es| - i
  {
    if i < |es| && !Takes(host, es, size, i, x) {
      assert Disjoint(Entry(y, size + 1), es[i]);
      FitFromFirst(host, es, size, i + 1, es[i].End(), y);
    }
  }

  /** The returned range lies in the region and touches nobody's ids. */
  lemma FitIsFree(host: Host, es: seq<Entry>, size: int)
    requires Layout(host, es) && 1 <= size
    ensures Fit(host, es, size).Some? ==> FreeRun(host, es, Fit(host, es, size).value, size)
  {
    FitFromFree(host, es, size, 0, host.Low());
  }

  /** No run of size + 1 free ids starts below the returned offset, and if nothing is returned
      there is no such run. */
  lemma FitIsFirst(host: Host, es: seq<Entry>, size: int, y: int)
    requires Layout(host, es) && 1 <= size
    requires FreeRun(host, es, y, size + 1)
    ensures Fit(host, es, size).Some? && Fit(host, es, size).value <= y
  {
    FitFromFirst(host, es, size, 0, host.Low(), y);
  }

  lemma {:induction false} FitFromRoom(host: Host, es: seq<Entry>, size: int, i: nat, x: int)
    requires Layout(host, es) && 1 <= size && 1 <= i <= |es|
    requires host.Low() <= x && forall k :: 0 <= k < i ==> es[k].End() <= x
    requires FitFrom(host, es, size, i, x).Some?
    ensures FreeRun(host, es, FitFrom(host, es, size, i, x).value, size + 1)
    decreases |es| - i
  {
    if i < |es| && !Takes(host, es, size, i, x) {
      FitFromRoom(host, es, size, i + 1, es[i].End());
    }
  }

  /** When the allocation succeeds: exactly when some run of size + 1 ids is free, or the ids
      before the first entry suffice without one to spare.  A gap of exactly size ids anywhere
      else is passed over. */
  lemma FitSucceeds(host: Host, es: seq<Entry>, size: int)
    requires Layout(host, es) && 1 <= size
    ensures Fit(host, es, size).Some? <==>
            (exists y :: RoomAt(host, es, y, size)) || (es != [] && host.Low() + size <= es[0].base)
  {
    if y :| RoomAt(host, es, y, size) {
      FitIsFirst(host, es, size, y);
    }
    if Fit(host, es, size).Some? && !Takes(host, es, size, 0, host.Low()) && es != [] {
      FitFromRoom(host, es, size, 1, es[0].End());
      assert RoomAt(host, es, Fit(host, es, size).value, size);
    }
    if es == [] && Fit(host, es, size).Some? {
      assert RoomAt(host, es, host.Low(), size);
    }
  }

  /** A range of size 0 is not harmless: it may sort after a real range with the same base, and
      the offset then falls back onto that range. */
  lemma EmptyRangeBreaksAllocation(host: Host, n: int)
    requires 1 <= n && host.Low() + n < host.High()
    ensures var taken := Entry(host.Low(), n);
            Fit(host, [taken, Entry(host.Low(), 0)], n) == Some(taken.base)
  {
    var es := [Entry(host.Low(), n), Entry(host.Low(), 0)];
    assert FitFrom(host, es, n, 2, es[1].End()) == Some(host.Low());
    assert FitFrom(host, es, n, 1, es[0].End()) == Some(host.Low());
  }

  // ----- The containers of a host ----------------------------------------------------------------

  /** What the allocator reads of a container: base is volatile.idmap.base (0 when not set),
      sizeText is security.idmap.size. */
  datatype Config = Config(isolated: bool, privileged: bool, base: int, sizeText: string)

  type Containers = map<string, Config>

  /** idmapSize: 65536 ids for an isolated container unless a size is given. */
  function IdmapSize(host: Host, isolated: bool, sizeText: string): Option<int> {
    if sizeText == "" || sizeText == "auto" then Some(if isolated then 65536 else host.size)
    else Atoi(sizeText)
  }

  /** Containers that own a range. */
  predicate Owns(c: Config) { c.isolated && !c.privileged }

  function RangeOf(host: Host, c: Config): Option<Entry> {
    match IdmapSize(host, c.isolated, c.sizeText)
    case Some(size) => Some(Entry(c.base, size))
    case None => None
  }

  predicate Counts(cs: Containers, skip: string, name: string) {
    name in cs && name != skip && Owns(cs[name])
  }

  /** es are the ranges of the containers in names. */
  ghost predicate Ranges(host: Host, cs: Containers, names: seq<string>, es: seq<Entry>) {
    |es| == |names| && forall i :: 0 <= i < |es| ==> names[i] in cs && RangeOf(host, cs[names[i]]) == Some(es[i])
  }

  ghost predicate Names(cs: Containers, skip: string, names: seq<string>) {
    && Distinct(names)
    && (forall i :: 0 <= i < |names| ==> Counts(cs, skip, names[i]))
    && (forall name :: Counts(cs, skip, name) ==> name in names)
  }

  ghost predicate SortedByBase(es: seq<Entry>) {
    forall i, j :: 0 <= i < j < |es| ==> es[i].base <= es[j].base
  }

  /** The ranges in use, the container's own old one ignored, in ascending order. */
  ghost predicate InUse(host: Host, cs: Containers, skip: string, names: seq<string>, es: seq<Entry>) {
    Names(cs, skip, names) && Ranges(host, cs, names, es) && SortedByBase(es)
  }

  /** Some size among the other containers' does not parse: the allocation fails. */
  ghost predicate Unreadable(host: Host, cs: Containers, skip: string) {
    exists name :: Counts(cs, skip, name) && RangeOf(host, cs[name]).None?
  }

  // ----- One step: allocate and record ------------------------------------------------------------

  datatype Op =
    | Configure(name: string, isolated: bool, privileged: bool, sizeText: string)
    | Delete(name: string)

  /** findIdmap on the automatic path, for one isolated unprivileged container. */
  ghost predicate Finds(host: Host, cs: Containers, op: Op, r: Option<int>)
    requires op.Configure?
  {
    var size := IdmapSize(host, op.isolated, op.sizeText);
    if size.None? || Unreadable(host, cs, op.name) then r == None
    else exists names, es :: InUse(host, cs, op.name, names, es) && r == Fit(host, es, size.value)
  }

  /** Creating or reconfiguring a container; a failed allocation changes nothing. */
  ghost predicate Configures(host: Host, cs: Containers, op: Op, r: Option<int>, cs': Containers)
    requires op.Configure?
  {
    && (if op.isolated && !op.privileged then Finds(host, cs, op, r) else r == Some(0))
    && cs' == match r
              case Some(base) => cs[op.name := Config(op.isolated, op.privileged, base, op.sizeText)]
              case None => cs
  }

  ghost predicate Next(host: Host, cs: Containers, op: Op, cs': Containers) {
    match op
    case Configure(_, _, _, _) => exists r :: Configures(host, cs, op, r, cs')
    case Delete(name) => cs' == cs - {name}
  }

  class ContainerDb {
    const host: Host
    var containers: Containers

    constructor (host: Host)
      ensures this.host == host && containers == map[]
    {
      this.host := host;
      containers := map[];
    }

    /** The ranges of the other isolated containers, in the order the database lists them. */
    method Gather(skip: string) returns (es: Option<seq<Entry>>, ghost names: seq<string>)
      ensures es.None? <==> Unreadable(host, containers, skip)
      ensures es.Some? ==> Names(containers, skip, names) && Ranges(host, containers, names, es.value)
    {
      var list: seq<Entry> := [];
      names := [];
      var todo := containers.Keys;
      while todo != {}
        invariant todo <= containers.Keys
        invariant Distinct(names) && Ranges(host, containers, names, list)
        invariant forall i :: 0 <= i < |names| ==> Counts(containers, skip, names[i]) && names[i] !in todo
        invariant forall name :: Counts(containers, skip, name) && name !in todo ==> name in names
        invariant forall name :: Counts(containers, skip, name) && name !in todo ==>
              RangeOf(host, containers[name]).Some?
      {
        var name :| name in todo;
        todo := todo - {name};
        if name == skip || !Owns(containers[name]) {
          continue;
        }
        var range := RangeOf(host, containers[name]);
        if range.None? {
          assert Counts(containers, skip, name);
          return None, [];
        }
        list, names := list + [range.value], names + [name];
      }
      return Some(list), names;
    }

    /** findIdmap under its lock, then the recording of the result. */
    method Configure(name: string, isolated: bool, privileged: bool, sizeText: string) returns (r: Option<int>)
      modifies this
      ensures Configures(host, old(containers), Op.Configure(name, isolated, privileged, sizeText), r, containers)
      ensures r.None? ==> isolated && !privileged && containers == old(containers)
      ensures r.Some? ==> containers == old(containers)[name := Config(isolated, privileged, r.value, sizeText)]
    {
      r := Some(0);
      if isolated && !privileged {
        r := FindIdmap(name, isolated, privileged, sizeText);
      }
      if r.Some? {
        containers := containers[name := Config(isolated, privileged, r.value, sizeText)];
      }
    }

    method FindIdmap(name: string, isolated: bool, privileged: bool, sizeText: string) returns (r: Option<int>)
      ensures Finds(host, containers, Op.Configure(name, isolated, privileged, sizeText), r)
    {
      var size := IdmapSize(host, isolated, sizeText);
      if size.None? {
        return None;
      }
      var gathered, names := Gather(name);
      if gathered.None? {
        return None;
      }
      var es, order := SortByBase(gathered.value);
      RangesReordered(host, containers, name, names, gathered.value, order, es);
      r := FindOffset(host, es, size.value);
    }

    method Delete(name: string)
      modifies this
      ensures containers == old(containers) - {name}
    {
      containers := containers - {name};
    }
  }

  /** order lists the numbers below n, each once. */
  ghost predicate Permutes(order: seq<nat>, n: nat) {
    && |order| == n
    && (forall i :: 0 <= i < |order| ==> order[i] < n)
    && Distinct(order)
    && (forall m: nat :: m < n ==> m in order)
  }

  ghost predicate Reordered(es: seq<Entry>, order: seq<nat>, es': seq<Entry>) {
    |es'| == |order| && forall i :: 0 <= i < |order| ==> order[i] < |es| && es'[i] == es[order[i]]
  }

  lemma InsertPermutes(order: seq<nat>, k: nat, order': seq<nat>)
    requires k <= |order| && Permutes(order, |order|) && order' == order[..k] + [|order|] + order[k..]
    ensures Permutes(order', |order| + 1)
  {
    var n := |order|;
    forall m: nat | m < n + 1 ensures m in order' {
      if m < n {
        assert m in order;
        var i :| 0 <= i < n && order[i] == m;
        assert order'[if i < k then i else i + 1] == m;
      } else {
        assert order'[k] == n;
      }
    }
  }

  lemma InsertSorted(es: seq<Entry>, k: nat, e: Entry, es': seq<Entry>)
    requires k <= |es| && SortedByBase(es) && es' == es[..k] + [e] + es[k..]
    requires forall i :: 0 <= i < k ==> es[i].base <= e.base
    requires k < |es| ==> e.base <= es[k].base
    ensures SortedByBase(es')
  {
  }

  /** sort.Sort by Hostid; the order of entries with the same base is not promised. */
  method SortByBase(es: seq<Entry>) returns (es': seq<Entry>, ghost order: seq<nat>)
    ensures SortedByBase(es') && Permutes(order, |es|) && Reordered(es, order, es')
  {
    es', order := [], [];
    for n := 0 to |es|
      invariant SortedByBase(es') && Permutes(order, n) && Reordered(es, order, es')
    {
      var k := 0;
      while k < n && es'[k].base <= es[n].base
        invariant k <= n && forall i :: 0 <= i < k ==> es'[i].base <= es[n].base
      {
        k := k + 1;
      }
      ghost var es0, order0 := es', order;
      es' := es'[..k] + [es[n]] + es'[k..];
      order := order0[..k] + [n] + order0[k..];
      InsertSorted(es0, k, es[n], es');
      InsertPermutes(order0, k, order);
    }
  }

  lemma RangesReordered(host: Host, cs: Containers, skip: string, names: seq<string>, es: seq<Entry>,
                        order: seq<nat>, es': seq<Entry>)
    requires Names(cs, skip, names) && Ranges(host, cs, names, es)
    requires SortedByBase(es') && Permutes(order, |es|) && Reordered(es, order, es')
    ensures exists names' :: InUse(host, cs, skip, names', es')
  {
    var names' := seq(|order|, i requires 0 <= i < |order| => names[order[i]]);
    forall name | Counts(cs, skip, name) ensures name in names' {
      var m: nat :| m < |names| && names[m] == name;
      assert m in order;
      var i :| 0 <= i < |order| && order[i] == m;
      assert names'[i] == name;
    }
    assert InUse(host, cs, skip, names', es');
  }

  // ----- Every run keeps the ranges apart -------------------------------------------------------------

  /** Every isolated unprivileged container has a range of at least one id inside the region,
      and no two of them share an id. */
  ghost predicate Valid(host: Host, cs: Containers) {
    && (forall a :: a in cs && Owns(cs[a]) ==>
          var r := RangeOf(host, cs[a]);
          r.Some? && 1 <= r.value.size && InRegion(host, r.value))
    && (forall a, b :: a in cs && b in cs && a != b && Owns(cs[a]) && Owns(cs[b]) ==>
          Disjoint(RangeOf(host, cs[a]).value, RangeOf(host, cs[b]).value))
  }

  /** The one demand on the caller: a size that parses is at least 1. */
  ghost predicate Sensible(host: Host, op: Op) {
    op.Configure? && op.isolated && !op.privileged ==>
      IdmapSize(host, op.isolated, op.sizeText).Some? ==> 1 <= IdmapSize(host, op.isolated, op.sizeText).value
  }

  lemma LayoutInUse(host: Host, cs: Containers, skip: string, names: seq<string>, es: seq<Entry>)
    requires Valid(host, cs) && InUse(host, cs, skip, names, es)
    ensures Layout(host, es)
  {
    forall i, j | 0 <= i < j < |es| ensures es[i].End() <= es[j].base {
      assert names[i] != names[j];
      assert Disjoint(es[i], es[j]);
    }
  }

  lemma StepKeepsValid(host: Host, cs: Containers, op: Op, cs': Containers)
    requires Valid(host, cs) && Sensible(host, op) && Next(host, cs, op, cs')
    ensures Valid(host, cs')
  {
    if op.Configure? && op.isolated && !op.privileged && cs' != cs {
      var r :| Configures(host, cs, op, r, cs');
      var size := IdmapSize(host, op.isolated, op.sizeText).value;
      var names, es :| InUse(host, cs, op.name, names, es) && r == Fit(host, es, size);
      LayoutInUse(host, cs, op.name, names, es);
      FitIsFree(host, es, size);
      var mine := Entry(r.value, size);
      assert RangeOf(host, cs'[op.name]) == Some(mine);
      forall b | b in cs' && b != op.name && Owns(cs'[b])
        ensures Disjoint(mine, RangeOf(host, cs'[b]).value)
      {
        assert Counts(cs, op.name, b);
        var i :| 0 <= i < |names| && names[i] == b;
        assert Disjoint(mine, es[i]);
      }
    }
  }

  ghost function Steps(host: Host): (Containers, Op, Containers) -> bool {
    (cs: Containers, op: Op, cs': Containers) => Next(host, cs, op, cs')
  }

  /** Over any run of configurations and deletions the ranges stay apart and in the region. */
  lemma {:induction false} RunKeepsValid(host: Host, a: Containers, ops: seq<Op>, b: Containers)
    requires Runs(Steps(host), a, ops, b) && Valid(host, a)
    requires forall i :: 0 <= i < |ops| ==> Sensible(host, ops[i])
    ensures Valid(host, b)
    decreases |ops|
  {
    if ops != [] {
      var earlier, last := ops[..|ops|-1], ops[|ops|-1];
      var m :| Runs(Steps(host), a, earlier, m) && Steps(host)(m, last, b);
      RunKeepsValid(host, a, earlier, m);
      StepKeepsValid(host, m, last, b);
    }
  }

  /** In a valid state the allocation fails only when no run of size + 1 ids is free of the
      other containers' ranges, and it returns no offset beyond the first such run. */
  lemma AllocationIsFirstFit(host: Host, cs: Containers, op: Op, r: Option<int>, y: int)
    requires Valid(host, cs) && op.Configure? && op.isolated && !op.privileged && Sensible(host, op)
    requires Finds(host, cs, op, r)
    requires IdmapSize(host, op.isolated, op.sizeText).Some?
    requires var run := Entry(y, IdmapSize(host, op.isolated, op.sizeText).value + 1);
             InRegion(host, run) &&
             forall b :: Counts(cs, op.name, b) ==> Disjoint(run, RangeOf(host, cs[b]).value)
    ensures r.Some? && host.Low() <= r.value <= y
  {
    var size := IdmapSize(host, op.isolated, op.sizeText).value;
    assert !Unreadable(host, cs, op.name);
    var names, es :| InUse(host, cs, op.name, names, es) && r == Fit(host, es, size);
    LayoutInUse(host, cs, op.name, names, es);
    assert FreeRun(host, es, y, size + 1);
    FitIsFirst(host, es, size, y);
    FitIsFree(host, es, size);
  }

  // ----- Ranges of size 0 --------------------------------------------------------------------------------

  predicate Has(e: Entry, x: int) { e.base <= x < e.End() }

  ghost predicate Share(a: Entry, b: Entry) { exists x :: Has(a, x) && Has(b, x) }

  /** No two containers own the same id. */
  ghost predicate Apart(host: Host, cs: Containers) {
    forall a, b :: a in cs && b in cs && a != b && Owns(cs[a]) && Owns(cs[b]) ==>
      RangeOf(host, cs[a]).Some? && RangeOf(host, cs[b]).Some?
      && !Share(RangeOf(host, cs[a]).value, RangeOf(host, cs[b]).value)
  }

  /** A size that parses is one of sizes. */
  ghost predicate Draws(host: Host, sizes: iset<int>, op: Op) {
    op.Configure? && op.isolated && !op.privileged ==>
      IdmapSize(host, op.isolated, op.sizeText).Some? ==> IdmapSize(host, op.isolated, op.sizeText).value in sizes
  }

  ghost predicate AllDraw(host: Host, sizes: iset<int>, ops: seq<Op>) {
    forall i :: 0 <= i < |ops| ==> Draws(host, sizes, ops[i])
  }

  /** Starting without containers, with sizes from this set only. */
  ghost predicate KeepsApart(host: Host, sizes: iset<int>) {
    forall ops, cs :: Runs(Steps(host), map[], ops, cs) && AllDraw(host, sizes, ops) ==> Apart(host, cs)
  }

  /** The first range of this size can be allocated. */
  predicate Fits(host: Host, size: int) { host.Low() + size < host.High() }

  /** Every range has size 0 and lies in the region. */
  ghost predicate AllEmpty(host: Host, cs: Containers) {
    forall a :: a in cs && Owns(cs[a]) ==>
      RangeOf(host, cs[a]) == Some(Entry(cs[a].base, 0)) && host.Low() <= cs[a].base < host.High()
  }

  lemma {:induction false} FitAmongEmpty(host: Host, es: seq<Entry>, size: int, i: nat, x: int)
    requires i <= |es| && host.Low() <= x && (i == 0 ==> x == host.Low())
    requires forall k :: 0 <= k < |es| ==> es[k].size == 0 && host.Low() <= es[k].base < host.High()
    ensures var r := FitFrom(host, es, size, i, x); r.Some? ==> host.Low() <= r.value && r.value + size < host.High()
    decreases |es| - i
  {
    if i < |es| && !Takes(host, es, size, i, x) {
      FitAmongEmpty(host, es, size, i + 1, es[i].End());
    }
  }

  lemma StepKeepsEmpty(host: Host, sizes: iset<int>, cs: Containers, op: Op, cs': Containers)
    requires AllEmpty(host, cs) && Draws(host, sizes, op) && Next(host, cs, op, cs')
    requires forall n :: n in sizes ==> 0 <= n && (1 <= n ==> !Fits(host, n))
    ensures AllEmpty(host, cs')
  {
    if op.Configure? && op.isolated && !op.privileged && cs' != cs {
      var r :| Configures(host, cs, op, r, cs');
      var size := IdmapSize(host, op.isolated, op.sizeText).value;
      var names: seq<string>, es: seq<Entry> :| InUse(host, cs, op.name, names, es) && r == Fit(host, es, size);
      forall k | 0 <= k < |es| ensures es[k].size == 0 && host.Low() <= es[k].base < host.High() {
        assert Counts(cs, op.name, names[k]);
      }
      FitAmongEmpty(host, es, size, 0, host.Low());
      assert size in sizes;
    }
  }

  lemma {:induction false} RunKeepsEmpty(host: Host, sizes: iset<int>, ops: seq<Op>, cs: Containers)
    requires Runs(Steps(host), map[], ops, cs) && AllDraw(host, sizes, ops)
    requires forall n :: n in sizes ==> 0 <= n && (1 <= n ==> !Fits(host, n))
    ensures AllEmpty(host, cs)
    decreases |ops|
  {
    if ops != [] {
      var earlier, last := ops[..|ops|-1], ops[|ops|-1];
      var m :| Runs(Steps(host), map[], earlier, m) && Steps(host)(m, last, cs);
      RunKeepsEmpty(host, sizes, earlier, m);
      StepKeepsEmpty(host, sizes, m, last, cs);
    }
  }

  lemma SizeOfText(host: Host, n: nat)
    requires n <= MAX_INT
    ensures IdmapSize(host, true, Dec(n)) == Some(n)
  {
    AtoiDec(n);
    assert !AllDigits("auto") by {
      assert !IsDigit("auto"[0]);
    }
  }

  /** One isolated container more, its size given as a number. */
  function Added(cs: Containers, name: string, base: int, n: nat): Containers {
    cs[name := Config(true, false, base, Dec(n))]
  }

  lemma AddNext(host: Host, cs: Containers, name: string, n: nat, base: int, names: seq<string>, es: seq<Entry>)
    requires n <= MAX_INT && InUse(host, cs, name, names, es) && Fit(host, es, n) == Some(base)
    ensures Next(host, cs, Adding(name, n), Added(cs, name, base, n))
  {
    SizeOfText(host, n);
    var op := Adding(name, n);
    forall x | Counts(cs, name, x) ensures RangeOf(host, cs[x]).Some? {
      var i :| 0 <= i < |names| && names[i] == x;
    }
    assert Finds(host, cs, op, Some(base));
    assert Configures(host, cs, op, Some(base), Added(cs, name, base, n));
  }

  lemma AddedRange(host: Host, cs: Containers, name: string, base: int, n: nat)
    requires n <= MAX_INT
    ensures var cs' := Added(cs, name, base, n);
            && name in cs' && Owns(cs'[name]) && RangeOf(host, cs'[name]) == Some(Entry(base, n))
            && cs'.Keys == cs.Keys + {name} && forall x :: x in cs && x != name ==> cs'[x] == cs[x]
  {
    SizeOfText(host, n);
  }

  lemma AddFirst(host: Host, a: string, n: nat) returns (cs: Containers)
    requires 1 <= n <= MAX_INT && Fits(host, n)
    ensures cs == Added(map[], a, host.Low(), n)
    ensures Next(host, map[], Adding(a, n), cs)
  {
    cs := Added(map[], a, host.Low(), n);
    AddNext(host, map[], a, n, host.Low(), [], []);
  }

  /** One of size 0 beside one of size n. */
  lemma AddEmpty(host: Host, cs: Containers, a: string, b: string, n: nat, zero: nat) returns (cs': Containers)
    requires 1 <= n <= MAX_INT && zero == 0 && a != b && cs == Added(map[], a, host.Low(), n)
    ensures cs' == Added(cs, b, host.Low(), zero)
    ensures Next(host, cs, Adding(b, zero), cs')
  {
    AddedRange(host, map[], a, host.Low(), n);
    assert InUse(host, cs, b, [a], [Entry(host.Low(), n)]);
    cs' := Added(cs, b, host.Low(), zero);
    AddNext(host, cs, b, zero, host.Low(), [a], [Entry(host.Low(), n)]);
  }

  lemma AddLast(host: Host, cs: Containers, a: string, b: string, c: string, n: nat, zero: nat)
    returns (cs': Containers)
    requires 1 <= n <= MAX_INT && Fits(host, n) && zero == 0 && Distinct([a, b, c])
    requires cs == Added(Added(map[], a, host.Low(), n), b, host.Low(), zero)
    ensures cs' == Added(cs, c, host.Low(), n)
    ensures Next(host, cs, Adding(c, n), cs')
    ensures !Apart(host, cs')
  {
    var low := host.Low();
    assert [a, b, c][0] != [a, b, c][1] && [a, b, c][0] != [a, b, c][2] && [a, b, c][1] != [a, b, c][2];
    AddedRange(host, map[], a, low, n);
    AddedRange(host, Added(map[], a, low, n), b, low, zero);
    AddedRange(host, cs, c, low, n);
    cs' := Added(cs, c, low, n);
    EmptyRangeBreaksAllocation(host, n);
    assert InUse(host, cs, c, [a, b], [Entry(low, n), Entry(low, zero)]);
    AddNext(host, cs, c, n, low, [a, b], [Entry(low, n), Entry(low, zero)]);
    assert Has(Entry(low, n), low);
    assert RangeOf(host, cs'[a]) == RangeOf(host, cs'[c]) == Some(Entry(low, n));
  }

  function Adding(name: string, n: nat): Op { Op.Configure(name, true, false, Dec(n)) }

  /** A container of size n, one of size 0, another of size n: the last is given the ids of the
      first. */
  lemma EmptyRangeBreaksRun(host: Host, n: nat, zero: nat, a: string, b: string, c: string)
    returns (ops: seq<Op>, cs: Containers)
    requires 1 <= n <= MAX_INT && Fits(host, n) && zero == 0 && Distinct([a, b, c])
    ensures ops == [Adding(a, n), Adding(b, zero), Adding(c, n)]
    ensures Runs(Steps(host), map[], ops, cs) && !Apart(host, cs)
  {
    assert [a, b, c][0] != [a, b, c][1];
    var one := AddFirst(host, a, n);
    var two := AddEmpty(host, one, a, b, n, zero);
    cs := AddLast(host, two, a, b, c, n, zero);
    ops := [Adding(a, n), Adding(b, zero), Adding(c, n)];
    RunOfThree(Steps(host), map[], ops, one, two, cs);
  }

  lemma AddingDraws(host: Host, sizes: iset<int>, name: string, n: nat)
    requires n <= MAX_INT && n in sizes
    ensures Draws(host, sizes, Adding(name, n))
  {
    SizeOfText(host, n);
  }

  lemma ValidIsApart(host: Host, cs: Containers)
    requires Valid(host, cs)
    ensures Apart(host, cs)
  {
  }

  lemma EmptyIsApart(host: Host, cs: Containers)
    requires AllEmpty(host, cs)
    ensures Apart(host, cs)
  {
    forall a, b | a in cs && b in cs && a != b && Owns(cs[a]) && Owns(cs[b])
      ensures RangeOf(host, cs[a]).Some? && RangeOf(host, cs[b]).Some?
              && !Share(RangeOf(host, cs[a]).value, RangeOf(host, cs[b]).value)
    {
      assert forall x :: !Has(Entry(cs[a].base, 0), x);
    }
  }

  /** Runs with sizes from a set keep all ranges apart: exactly when 0 is not one of the sizes, or
      no positive size fits the region at all. */
  lemma KeepsApartExactly(host: Host, sizes: iset<int>)
    requires forall n :: n in sizes ==> 0 <= n <= MAX_INT
    ensures KeepsApart(host, sizes) <==> 0 !in sizes || forall n :: n in sizes && 1 <= n ==> !Fits(host, n)
  {
    if 0 !in sizes {
      forall ops, cs | Runs(Steps(host), map[], ops, cs) && AllDraw(host, sizes, ops) ensures Apart(host, cs) {
        RunKeepsValid(host, map[], ops, cs);
        ValidIsApart(host, cs);
      }
    } else if forall n :: n in sizes && 1 <= n ==> !Fits(host, n) {
      forall ops, cs | Runs(Steps(host), map[], ops, cs) && AllDraw(host, sizes, ops) ensures Apart(host, cs) {
        RunKeepsEmpty(host, sizes, ops, cs);
        EmptyIsApart(host, cs);
      }
    } else {
      var n :| n in sizes && 1 <= n && Fits(host, n);
      var ops, cs := EmptyRangeBreaksRun(host, n, 0, "a", "b", "c");
      AddingDraws(host, sizes, "a", n);
      AddingDraws(host, sizes, "b", 0);
      AddingDraws(host, sizes, "c", n);
      assert AllDraw(host, sizes, ops);
    }
  }

  // ----- The same, field by field -----------------------------------------------------------------------

  /** The size that an isolated container's security.idmap.size asks for. */
  predicate SizeMeans(text: string, n: int) {
    if text == "" || text == "auto" then n == 65536 else Atoi(text) == Some(n)
  }

  /** Containers that are isolated and not privileged have ids of their own: at least one, behind
      the first 65536 of the daemon's, and none that another such container has. */
  ghost predicate OwnIds(host: Host, cs: Containers) {
    && (forall a :: a in cs && cs[a].isolated && !cs[a].privileged ==> exists m :: SizeMeans(cs[a].sizeText, m))
    && (forall a, m :: a in cs && cs[a].isolated && !cs[a].privileged && SizeMeans(cs[a].sizeText, m) ==>
          1 <= m && host.base + 65536 <= cs[a].base && cs[a].base + m <= host.base + host.size)
    && (forall a, b, m, n ::
          && a in cs && cs[a].isolated && !cs[a].privileged && SizeMeans(cs[a].sizeText, m)
          && b in cs && cs[b].isolated && !cs[b].privileged && SizeMeans(cs[b].sizeText, n) && a != b ==>
            cs[a].base + m <= cs[b].base || cs[b].base + n <= cs[a].base)
  }

  lemma SizeIs(host: Host, c: Config, m: int)
    requires c.isolated
    ensures RangeOf(host, c) == Some(Entry(c.base, m)) <==> SizeMeans(c.sizeText, m)
  {
  }

  lemma ValidOwnIds(host: Host, cs: Containers)
    requires Valid(host, cs)
    ensures OwnIds(host, cs)
  {
    forall a | a in cs && cs[a].isolated && !cs[a].privileged ensures exists m :: SizeMeans(cs[a].sizeText, m) {
      assert Owns(cs[a]);
      SizeIs(host, cs[a], RangeOf(host, cs[a]).value.size);
    }
    forall a, m | a in cs && cs[a].isolated && !cs[a].privileged && SizeMeans(cs[a].sizeText, m)
      ensures 1 <= m && host.base + 65536 <= cs[a].base && cs[a].base + m <= host.base + host.size
    {
      SizeIs(host, cs[a], m);
      assert Owns(cs[a]);
    }
    forall a, b, m, n |
      && a in cs && cs[a].isolated && !cs[a].privileged && SizeMeans(cs[a].sizeText, m)
      && b in cs && cs[b].isolated && !cs[b].privileged && SizeMeans(cs[b].sizeText, n) && a != b
      ensures cs[a].base + m <= cs[b].base || cs[b].base + n <= cs[a].base
    {
      SizeIs(host, cs[a], m);
      SizeIs(host, cs[b], n);
      assert Owns(cs[a]) && Owns(cs[b]);
    }
  }

  /** Every size asked for by an isolated container is at least 1. */
  ghost predicate AsksForIds(ops: seq<Op>) {
    forall i, n ::
      0 <= i < |ops| && ops[i].Configure? && ops[i].isolated && !ops[i].privileged && SizeMeans(ops[i].sizeText, n) ==>
        1 <= n
  }

  lemma AskedIsSensible(host: Host, ops: seq<Op>)
    requires AsksForIds(ops)
    ensures forall i :: 0 <= i < |ops| ==> Sensible(host, ops[i])
  {
    forall i | 0 <= i < |ops| ensures Sensible(host, ops[i]) {
      if ops[i].Configure? && ops[i].isolated && !ops[i].privileged
         && IdmapSize(host, true, ops[i].sizeText).Some? {
        assert SizeMeans(ops[i].sizeText, IdmapSize(host, true, ops[i].sizeText).value);
      }
    }
  }

  /** After any run from no containers at all, no id has two owners. */
  lemma RunKeepsIdsApart(host: Host, ops: seq<Op>, cs: Containers)
    requires Runs(Steps(host), map[], ops, cs) && AsksForIds(ops)
    ensures OwnIds(host, cs)
  {
    AskedIsSensible(host, ops);
    RunKeepsValid(host, map[], ops, cs);
    ValidOwnIds(host, cs);
  }

  /** n ids from y on lie in the region and belong to no other container. */
  ghost predicate FreeOfOthers(host: Host, cs: Containers, name: string, y: int, n: int) {
    && host.base + 65536 <= y && y + n <= host.base + host.size
    && (forall b, m :: b in cs && b != name && cs[b].isolated && !cs[b].privileged && SizeMeans(cs[b].sizeText, m) ==>
          y + n <= cs[b].base || cs[b].base + m <= y)
  }

  /** After any such run: a container that is configured to be isolated gets a range no later than
      at any n + 1 free ids, and is recorded with it; all others stay as they were. */
  lemma ConfigureIsFirstFit(host: Host, ops: seq<Op>, cs: Containers, name: string, text: string, n: int, y: int,
                            cs': Containers)
    requires Runs(Steps(host), map[], ops, cs) && AsksForIds(ops) && SizeMeans(text, n) && 1 <= n
    requires FreeOfOthers(host, cs, name, y, n + 1)
    requires Next(host, cs, Op.Configure(name, true, false, text), cs')
    ensures name in cs' && host.base + 65536 <= cs'[name].base <= y
    ensures cs' == cs[name := Config(true, false, cs'[name].base, text)]
  {
    AskedIsSensible(host, ops);
    RunKeepsValid(host, map[], ops, cs);
    var op := Op.Configure(name, true, false, text);
    SizeIs(host, Config(true, false, 0, text), n);
    var r :| Configures(host, cs, op, r, cs');
    forall b | Counts(cs, name, b) ensures Disjoint(Entry(y, n + 1), RangeOf(host, cs[b]).value) {
      SizeIs(host, cs[b], RangeOf(host, cs[b]).value.size);
    }
    AllocationIsFirstFit(host, cs, op, r, y);
  }
}
