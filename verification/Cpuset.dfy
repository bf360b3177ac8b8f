// parseCpuset and the computation of the usable CPUs (lxd/devices.go).
module Cpuset {
  import opened GoStrings

  function Range(low: int, high: int): (r: seq<int>)
    ensures |r| == if low <= high then high - low + 1 else 0
    ensures forall i :: 0 <= i < |r| ==> r[i] == low + i
  {
    if low <= high then seq(high - low + 1, i => low + i) else []
  }

  /** One comma-separated chunk: a number, or two numbers around the first dash. */
  function ChunkCpus(chunk: string): Option<seq<int>> {
    match Cut(chunk, '-')
    case Some((a, b)) =>
      (match (Atoi(a), Atoi(b))
       case (Some(low), Some(high)) => Some(Range(low, high))
       case _ => None)
    case None =>
      match Atoi(chunk)
      case Some(nr) => Some([nr])
      case None => None
  }

  /** The CPUs of all chunks in order; one bad chunk spoils the whole list. */
  function ChunksCpus(chunks: seq<string>): Option<seq<int>> {
    if chunks == [] then Some([])
    else
      match (ChunksCpus(chunks[..|chunks|-1]), ChunkCpus(chunks[|chunks|-1]))
      case (Some(xs), Some(ys)) => Some(xs + ys)
      case _ => None
  }

  function CpusetValue(cpu: string): Option<seq<int>> { ChunksCpus(Split(cpu, ',')) }

  lemma {:induction false} BadChunkSpoils(chunks: seq<string>, i: nat)
    requires i < |chunks| && ChunkCpus(chunks[i]).None?
    ensures ChunksCpus(chunks).None?
  {
    if i < |chunks| - 1 {
      BadChunkSpoils(chunks[..|chunks|-1], i);
    }
  }

  lemma ChunkAppended(chunks: seq<string>, n: nat, before: seq<int>, more: seq<int>)
    requires n < |chunks|
    requires ChunksCpus(chunks[..n]) == Some(before)
    requires ChunkCpus(chunks[n]) == Some(more)
    ensures ChunksCpus(chunks[..n + 1]) == Some(before + more)
  {
    assert chunks[..n + 1][..n] == chunks[..n];
  }

  /** Two lists one after the other, if both read. */
  function Both(a: Option<seq<int>>, b: Option<seq<int>>): Option<seq<int>> {
    if a.Some? && b.Some? then Some(a.value + b.value) else None
  }

  lemma BothAssociative(a: Option<seq<int>>, b: Option<seq<int>>, c: Option<seq<int>>)
    ensures Both(Both(a, b), c) == Both(a, Both(b, c))
  {
    if a.Some? && b.Some? && c.Some? {
      assert a.value + b.value + c.value == a.value + (b.value + c.value);
    }
  }

  lemma {:induction false} ChunksConcat(a: seq<string>, b: seq<string>)
    ensures ChunksCpus(a + b) == Both(ChunksCpus(a), ChunksCpus(b))
    decreases |b|
  {
    if b == [] {
      assert a + b == a;
      assert ChunksCpus(a).Some? ==> ChunksCpus(a).value + [] == ChunksCpus(a).value;
    } else {
      var n := |b| - 1;
      assert (a + b)[..|a + b|-1] == a + b[..n];
      ChunksConcat(a, b[..n]);
      BothAssociative(ChunksCpus(a), ChunksCpus(b[..n]), ChunkCpus(b[n]));
    }
  }

  /** What comes before a comma and what comes after it are read one after the other, and both
      must read. */
  lemma CommaMeans(s: string, t: string)
    requires ',' !in s
    ensures var x, y := CpusetValue(s), CpusetValue(t);
            CpusetValue(s + [','] + t) == if x.Some? && y.Some? then Some(x.value + y.value) else None
  {
    SplitAfterPart(s, ',', t);
    SplitWithout(s, ',');
    ChunksConcat([s], Split(t, ','));
  }

  /** Between commas, a text without a dash is one number. */
  lemma NumberMeans(s: string)
    requires ',' !in s && '-' !in s
    ensures CpusetValue(s) == if Atoi(s).Some? then Some([Atoi(s).value]) else None
  {
    SplitWithout(s, ',');
    assert ChunksCpus([s][..0]) == Some([]);
    assert Atoi(s).Some? ==> [] + [Atoi(s).value] == [Atoi(s).value];
  }

  /** And a text with a dash is every number from the one before the first dash to the one
      behind it, in order. */
  lemma DashMeans(a: string, b: string)
    requires ',' !in a && '-' !in a && ',' !in b
    ensures var v := CpusetValue(a + ['-'] + b);
            && (v.Some? <==> Atoi(a).Some? && Atoi(b).Some?)
            && (v.Some? ==>
                  && |v.value| == (if Atoi(a).value <= Atoi(b).value then Atoi(b).value - Atoi(a).value + 1 else 0)
                  && forall i :: 0 <= i < |v.value| ==> v.value[i] == Atoi(a).value + i)
  {
    var s := a + ['-'] + b;
    CutAtFirst(a, '-', b);
    SplitWithout(s, ',');
    assert ChunksCpus([s][..0]) == Some([]);
  }

  method AppendRange(cpus: seq<int>, low: int, high: int) returns (r: seq<int>)
    ensures r == cpus + Range(low, high)
  {
    r := cpus;
    var i := low;
    while i <= high
      invariant low <= i && (i <= high + 1 || i == low)
      invariant r == cpus + Range(low, i - 1)
    {
      assert Range(low, i) == Range(low, i - 1) + [i];
      r := r + [i];
      i := i + 1;
    }
  }

  /** The inner part of the loop: the CPUs of one chunk are appended one by one. */
  method AppendChunk(cpus: seq<int>, chunk: string) returns (r: Option<seq<int>>)
    ensures r.Some? <==> ChunkCpus(chunk).Some?
    ensures r.Some? ==> r.value == cpus + ChunkCpus(chunk).value
  {
    if '-' in chunk {
      var fields := Cut(chunk, '-').value;
      var low := Atoi(fields.0);
      var high := Atoi(fields.1);
      if low.None? || high.None? {
        return None;
      }
      var more := AppendRange(cpus, low.value, high.value);
      return Some(more);
    }
    var nr := Atoi(chunk);
    return if nr.None? then None else Some(cpus + [nr.value]);
  }

  method ParseCpuset(cpu: string) returns (r: Option<seq<int>>)
    ensures r == CpusetValue(cpu)
  {
    var cpus: seq<int> := [];
    var chunks := Split(cpu, ',');
    for n := 0 to |chunks|
      invariant ChunksCpus(chunks[..n]) == Some(cpus)
    {
      var more := AppendChunk(cpus, chunks[n]);
      if more.None? {
        BadChunkSpoils(chunks, n);
        return None;
      }
      ChunkAppended(chunks, n, cpus, ChunkCpus(chunks[n]).value);
      cpus := more.value;
    }
    assert chunks[..|chunks|] == chunks;
    return Some(cpus);
  }

  /** No list that parses contains a negative number: a leading dash starts a range. */
  lemma {:induction false} NoNegativeCpus(chunks: seq<string>)
    ensures ChunksCpus(chunks).Some? ==> forall x :: x in ChunksCpus(chunks).value ==> 0 <= x <= MAX_INT
  {
    if chunks != [] {
      NoNegativeCpus(chunks[..|chunks|-1]);
    }
  }

  /** The numbers printed one by one. */
  function Printed(xs: seq<nat>): (r: seq<string>)
    ensures |r| == |xs| && forall i :: 0 <= i < |xs| ==> r[i] == Dec(xs[i])
  {
    seq(|xs|, i requires 0 <= i < |xs| => Dec(xs[i]))
  }

  lemma PrintedChunk(n: nat)
    requires n <= MAX_INT
    ensures ChunkCpus(Dec(n)) == Some([n])
  {
    AtoiDec(n);
    assert '-' !in Dec(n);
  }

  lemma {:induction false} PrintedChunks(xs: seq<nat>)
    requires forall i :: 0 <= i < |xs| ==> xs[i] <= MAX_INT
    ensures ChunksCpus(Printed(xs)) == Some(xs)
  {
    if xs != [] {
      var n := |xs| - 1;
      PrintedChunks(xs[..n]);
      assert Printed(xs)[..n] == Printed(xs[..n]);
      PrintedChunk(xs[n]);
      assert xs[..n] + [xs[n]] == xs;
    }
  }

  /** Printing a list with commas and parsing it again gives the list back, unless the list is
      empty: then the text is empty and does not parse. */
  lemma PrintParse(xs: seq<nat>)
    requires forall i :: 0 <= i < |xs| ==> xs[i] <= MAX_INT
    ensures CpusetValue(Join(Printed(xs), ',')) == if xs == [] then None else Some(xs)
  {
    if xs == [] {
      assert Split("", ',') == [""];
      assert ChunkCpus("") == None;
    } else {
      SplitJoin(Printed(xs), ',');
      PrintedChunks(xs);
    }
  }

  function Without(xs: seq<int>, drop: seq<int>): (r: seq<int>)
    ensures forall x :: x in r <==> x in xs && x !in drop
  {
    if xs == [] then []
    else
      var r := Without(xs[..|xs|-1], drop);
      var x := xs[|xs|-1];
      assert xs == xs[..|xs|-1] + [x];
      if x in drop then r else r + [x]
  }

  /** The text written to the cgroup and the CPUs read back from it. */
  datatype Usable = Usable(text: string, ids: seq<nat>)

  /** The effective CPUs that are not isolated.  isolated is the trimmed content of the
      kernel's list, empty if there is none. */
  function Wanted(effective: string, isolated: string): (r: Option<seq<int>>) {
    match (CpusetValue(effective), if isolated == "" then Some([]) else CpusetValue(isolated))
    case (Some(all), Some(drop)) => Some(Without(all, drop))
    case _ => None
  }

  /** ... with the text they are printed as; none if there are none. */
  function UsableOf(effective: string, isolated: string): Option<Usable> {
    match Wanted(effective, isolated)
    case Some(xs) =>
      if xs == [] then None else
      NoNegativeCpus(Split(effective, ','));
      assert forall i :: 0 <= i < |xs| ==> xs[i] in xs;
      Some(Usable(Join(Printed(xs), ','), xs))
    case None => None
  }

  /** r has the members of all that are not in drop, in order: r[k] is at place at[k]. */
  ghost predicate Filtered(all: seq<int>, drop: seq<int>, r: seq<int>, at: seq<nat>) {
    && |at| == |r|
    && (forall k :: 0 <= k < |r| ==> at[k] < |all| && r[k] == all[at[k]] && r[k] !in drop)
    && (forall j, k :: 0 <= j < k < |at| ==> at[j] < at[k])
    && (forall i :: 0 <= i < |all| && all[i] !in drop ==> i in at)
  }

  lemma FilteredSnoc(all: seq<int>, drop: seq<int>, r: seq<int>, at: seq<nat>, x: int)
    requires Filtered(all, drop, r, at)
    ensures x in drop ==> Filtered(all + [x], drop, r, at)
    ensures x !in drop ==> Filtered(all + [x], drop, r + [x], at + [|all|])
  {
    var more := at + [|all|];
    forall i | 0 <= i < |all + [x]| && (all + [x])[i] !in drop ensures i in more && (x in drop ==> i in at) {
      if i < |all| {
        assert i in at;
      } else {
        assert more[|at|] == i;
      }
    }
  }

  lemma {:induction false} WithoutFilters(all: seq<int>, drop: seq<int>) returns (at: seq<nat>)
    ensures Filtered(all, drop, Without(all, drop), at)
  {
    at := [];
    if all != [] {
      var n := |all| - 1;
      at := WithoutFilters(all[..n], drop);
      FilteredSnoc(all[..n], drop, Without(all[..n], drop), at, all[n]);
      assert all == all[..n] + [all[n]];
      at := if all[n] in drop then at else at + [n];
    }
  }

  /** There are usable CPUs exactly if both lists read and the first has one that is not in the
      second. */
  lemma UsableExactly(effective: string, isolated: string)
    ensures var e := CpusetValue(effective);
            var d := if isolated == "" then Some([]) else CpusetValue(isolated);
            UsableOf(effective, isolated).Some? <==>
            e.Some? && d.Some? && exists i :: 0 <= i < |e.value| && e.value[i] !in d.value
  {
    var e := CpusetValue(effective);
    var d := if isolated == "" then Some([]) else CpusetValue(isolated);
    if e.Some? && d.Some? {
      SomeLeft(e.value, d.value);
    }
  }

  /** The usable CPUs: those of the first list that are not in the second, in order. */
  lemma UsableMeans(effective: string, isolated: string) returns (at: seq<nat>)
    requires UsableOf(effective, isolated).Some?
    ensures var d := if isolated == "" then [] else CpusetValue(isolated).value;
            Filtered(CpusetValue(effective).value, d, UsableOf(effective, isolated).value.ids, at)
  {
    var d := if isolated == "" then [] else CpusetValue(isolated).value;
    at := WithoutFilters(CpusetValue(effective).value, d);
  }

  lemma SomeLeft(all: seq<int>, drop: seq<int>)
    ensures Without(all, drop) != [] <==> exists i :: 0 <= i < |all| && all[i] !in drop
  {
    var r := Without(all, drop);
    if r != [] {
      assert r[0] in r;
    }
    if i :| 0 <= i < |all| && all[i] !in drop {
      assert all[i] in r;
    }
  }

  method FilterCpus(all: seq<int>, isolated: seq<int>) returns (texts: seq<string>, ghost kept: seq<nat>)
    requires forall i :: 0 <= i < |all| ==> 0 <= all[i]
    ensures kept == Without(all, isolated) && texts == Printed(kept)
  {
    texts, kept := [], [];
    for n := 0 to |all|
      invariant kept == Without(all[..n], isolated)
      invariant texts == Printed(kept)
    {
      assert all[..n + 1][..n] == all[..n];
      if all[n] !in isolated {
        texts := texts + [Dec(all[n])];
        kept := kept + [all[n]];
      }
    }
    assert all[..|all|] == all;
  }

  /** The CPUs containers may run on: filtered, printed, and parsed again.  Nothing is lost or
      reordered on the way, and it fails exactly when a list does not parse or no CPU is left. */
  method UsableCpus(effective: string, isolated: string) returns (r: Option<Usable>)
    ensures r == UsableOf(effective, isolated)
    ensures r.Some? ==> CpusetValue(r.value.text) == Some(r.value.ids) && forall x :: x in r.value.ids ==> x <= MAX_INT
  {
    var effectiveInts := ParseCpuset(effective);
    if effectiveInts.None? {
      return None;
    }
    var isolatedInts: seq<int> := [];
    if isolated != "" {
      var parsed := ParseCpuset(isolated);
      if parsed.None? {
        return None;
      }
      isolatedInts := parsed.value;
    }
    NoNegativeCpus(Split(effective, ','));
    var all := effectiveInts.value;
    assert forall i :: 0 <= i < |all| ==> all[i] in all;
    var texts, kept := FilterCpus(all, isolatedInts);
    assert forall i :: 0 <= i < |kept| ==> kept[i] in kept;
    var text := Join(texts, ',');
    PrintParse(kept);
    var again := ParseCpuset(text);
    if again.None? {
      return None;
    }
    var ids: seq<nat> := again.value;
    return Some(Usable(text, ids));
  }
}
