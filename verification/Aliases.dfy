// Pointing image aliases to a new image (lxc/utils.go).
module Aliases {
  import opened GoStrings
  import opened Sequences

  // ----- The order of strings, sort.Strings and sort.SearchStrings ------------------------------------

  predicate Less(a: string, b: string) {
    b != [] && (a == [] || a[0] < b[0] || (a[0] == b[0] && Less(a[1..], b[1..])))
  }

  lemma {:induction false} LessTransitive(a: string, b: string, c: string)
    requires Less(a, b) && Less(b, c)
    ensures Less(a, c)
  {
    if a != [] && a[0] == b[0] == c[0] {
      LessTransitive(a[1..], b[1..], c[1..]);
    }
  }

  /** Of two strings, one is less or they are equal; never both ways. */
  lemma {:induction false} LessTotal(a: string, b: string)
    ensures Less(a, b) || a == b || Less(b, a)
    ensures !(Less(a, b) && Less(b, a)) && !Less(a, a)
  {
    if a != [] {
      LessTotal(a[1..], a[1..]);
    }
    if a != [] && b != [] && a[0] == b[0] {
      LessTotal(a[1..], b[1..]);
      if a[1..] == b[1..] {
        assert a == [a[0]] + a[1..] == b;
      }
    }
  }

  ghost predicate Sorted(xs: seq<string>) { forall i, j :: 0 <= i < j < |xs| ==> !Less(xs[j], xs[i]) }

  lemma NotLessTransitive(a: string, b: string, c: string)
    requires !Less(b, a) && !Less(c, b)
    ensures !Less(c, a)
  {
    LessTotal(a, b);
    LessTotal(b, c);
    LessTotal(a, c);
    if Less(c, a) && Less(a, b) {
      LessTransitive(c, a, b);
    }
  }

  /** sort.Strings. */
  method SortStrings(names: seq<string>) returns (sorted: seq<string>)
    ensures Sorted(sorted) && multiset(sorted) == multiset(names)
  {
    sorted := [];
    for k := 0 to |names|
      invariant Sorted(sorted) && multiset(sorted) == multiset(names[..k])
    {
      assert names[..k + 1] == names[..k] + [names[k]];
      sorted := Insert(sorted, names[k]);
    }
    assert names[..|names|] == names;
  }

  method Insert(sorted: seq<string>, x: string) returns (r: seq<string>)
    requires Sorted(sorted)
    ensures Sorted(r) && multiset(r) == multiset(sorted) + multiset{x}
  {
    var p := SearchStrings(sorted, x);
    r := sorted[..p] + [x] + sorted[p..];
    forall i, j | 0 <= i < j < |r| ensures !Less(r[j], r[i]) {
      if j == p {
        LessTotal(sorted[i], x);
      }
    }
    assert sorted == sorted[..p] + sorted[p..];
  }

  /** The least position whose string is not less than x. */
  method SearchStrings(a: seq<string>, x: string) returns (p: nat)
    requires Sorted(a)
    ensures p <= |a|
    ensures forall k :: 0 <= k < p ==> Less(a[k], x)
    ensures forall k :: p <= k < |a| ==> !Less(a[k], x)
  {
    var i, j := 0, |a|;
    while i < j
      invariant 0 <= i <= j <= |a|
      invariant forall k :: 0 <= k < i ==> Less(a[k], x)
      invariant forall k :: j <= k < |a| ==> !Less(a[k], x)
    {
      var h := i + (j - i) / 2;
      if Less(a[h], x) {
        forall k | 0 <= k <= h ensures Less(a[k], x) {
          BelowLess(a, k, h, x);
        }
        i := h + 1;
      } else {
        forall k | h <= k < |a| ensures !Less(a[k], x) {
          if h < k {
            NotLessTransitive(x, a[h], a[k]);
          }
        }
        j := h;
      }
    }
    p := i;
  }

  lemma BelowLess(a: seq<string>, k: nat, h: nat, x: string)
    requires Sorted(a) && k <= h < |a| && Less(a[h], x)
    ensures Less(a[k], x)
  {
    LessTotal(a[k], a[h]);
    if k < h && Less(a[k], a[h]) {
      LessTransitive(a[k], a[h], x);
    }
  }

  /** Binary search in a sorted list agrees with membership. */
  lemma FoundExactlyWhenMember(a: seq<string>, x: string, p: nat)
    requires Sorted(a) && p <= |a|
    requires forall k :: 0 <= k < p ==> Less(a[k], x)
    requires forall k :: p <= k < |a| ==> !Less(a[k], x)
    ensures (p < |a| && a[p] == x) <==> x in a
  {
    LessTotal(x, x);
    if x in a {
      var k :| 0 <= k < |a| && a[k] == x;
      assert p <= k;
      if p < k {
        assert !Less(a[k], a[p]);
      }
      LessTotal(a[p], x);
    }
  }

  // ----- The server ----------------------------------------------------------------------------------------

  datatype Alias = Alias(target: string, description: string)

  datatype Entry = Entry(name: string, alias: Alias)

  type Table = map<string, Alias>

  /** What goes wrong on the server: the listing, the removal of some names, the creation of some
      names. */
  datatype Faults = Faults(listing: bool, stuck: set<string>, refused: set<string>)

  function NamesOf(entries: seq<Entry>): (names: seq<string>)
    ensures |names| == |entries| && forall i :: 0 <= i < |names| ==> names[i] == entries[i].name
  {
    seq(|entries|, i requires 0 <= i < |entries| => entries[i].name)
  }

  /** Each alias once, in some order. */
  ghost predicate Lists(entries: seq<Entry>, table: Table) {
    && (forall i :: 0 <= i < |entries| ==> entries[i].name in table && table[entries[i].name] == entries[i].alias)
    && (forall n :: n in table ==> exists i :: 0 <= i < |entries| && entries[i].name == n)
    && Distinct(NamesOf(entries))
  }

  class ImageServer {
    var aliases: Table
    const faults: Faults

    constructor (aliases: Table, faults: Faults)
      ensures this.aliases == aliases && this.faults == faults
    {
      this.aliases := aliases;
      this.faults := faults;
    }

    method GetImageAliases() returns (entries: Option<seq<Entry>>)
      ensures entries.None? <==> faults.listing
      ensures entries.Some? ==> Lists(entries.value, aliases)
    {
      if faults.listing {
        return None;
      }
      var left := aliases.Keys;
      var got: seq<Entry> := [];
      while left != {}
        invariant left <= aliases.Keys
        invariant forall i :: 0 <= i < |got| ==> got[i].name in aliases && got[i].name !in left
        invariant forall i :: 0 <= i < |got| ==> aliases[got[i].name] == got[i].alias
        invariant forall n :: n in aliases && n !in left ==> exists i :: 0 <= i < |got| && got[i].name == n
        invariant Distinct(NamesOf(got))
        decreases |left|
      {
        var n :| n in left;
        ghost var was := got;
        got := got + [Entry(n, aliases[n])];
        left := left - {n};
        forall m | m in aliases && m !in left ensures exists i :: 0 <= i < |got| && got[i].name == m {
          if m == n {
            assert got[|was|].name == m;
          } else {
            var i :| 0 <= i < |was| && was[i].name == m;
            assert got[i].name == m;
          }
        }
      }
      return Some(got);
    }

    method DeleteImageAlias(name: string) returns (ok: bool)
      modifies this
      ensures ok <==> name in old(aliases) && name !in faults.stuck
      ensures aliases == if ok then old(aliases) - {name} else old(aliases)
    {
      ok := name in aliases && name !in faults.stuck;
      if ok {
        aliases := aliases - {name};
      }
    }

    /** A name in use is a conflict. */
    method CreateImageAlias(name: string, target: string) returns (ok: bool)
      modifies this
      ensures ok <==> name !in old(aliases) && name !in faults.refused
      ensures aliases == if ok then old(aliases)[name := Alias(target, "")] else old(aliases)
    {
      ok := name !in aliases && name !in faults.refused;
      if ok {
        aliases := aliases[name := Alias(target, "")];
      }
    }
  }

  // ----- ensureImageAliases -----------------------------------------------------------------------------

  /** The intersection of a sorted list of names with all aliases. */
  method GetExistingAliases(names: seq<string>, all: seq<Entry>) returns (existing: seq<Entry>)
    requires Sorted(names)
    ensures forall i :: 0 <= i < |existing| ==> existing[i] in all && existing[i].name in names
    ensures forall i :: 0 <= i < |all| && all[i].name in names ==> all[i] in existing
    ensures |existing| <= |all|
  {
    existing := [];
    for k := 0 to |all|
      invariant |existing| <= k
      invariant forall i :: 0 <= i < |existing| ==> existing[i] in all && existing[i].name in names
      invariant forall i :: 0 <= i < k && all[i].name in names ==> all[i] in existing
    {
      var pos := SearchStrings(names, all[k].name);
      FoundExactlyWhenMember(names, all[k].name, pos);
      if pos < |names| && names[pos] == all[k].name {
        existing := existing + [all[k]];
      }
    }
  }

  function Lookup(table: Table, name: string): Option<Alias> {
    if name in table then Some(table[name]) else None
  }

  /** What is known of a name once the matching aliases were deleted. */
  function Cleared(table: Table, requested: seq<string>, faults: Faults, name: string): Option<Alias> {
    if name in requested && name !in faults.stuck then None else Lookup(table, name)
  }

  /** ... and once the requested aliases were created. */
  function Ensured(table: Table, requested: seq<string>, fingerprint: string, faults: Faults, name: string)
    : Option<Alias>
  {
    if name !in requested then Lookup(table, name)
    else if name in table && name in faults.stuck then Lookup(table, name)
    else if name in faults.refused then None
    else Some(Alias(fingerprint, ""))
  }

  lemma SameNames(sorted: seq<string>, requested: seq<string>)
    requires multiset(sorted) == multiset(requested)
    ensures forall n :: n in sorted <==> n in requested
  {
    forall n ensures n in sorted <==> n in requested {
      assert n in sorted <==> n in multiset(sorted);
      assert n in requested <==> n in multiset(requested);
    }
  }

  /** A name is requested and in the table exactly if it is among the existing aliases. */
  lemma ExistingNames(table: Table, all: seq<Entry>, requested: seq<string>, existing: seq<Entry>, n: string)
    requires Lists(all, table)
    requires forall i :: 0 <= i < |existing| ==> existing[i] in all && existing[i].name in requested
    requires forall i :: 0 <= i < |all| && all[i].name in requested ==> all[i] in existing
    ensures n in requested && n in table <==> n in NamesOf(existing)
  {
    if n in requested && n in table {
      var i :| 0 <= i < |all| && all[i].name == n;
      assert all[i] in existing;
      var k :| 0 <= k < |existing| && existing[k] == all[i];
      assert NamesOf(existing)[k] == n;
    }
    if n in NamesOf(existing) {
      var k :| 0 <= k < |existing| && existing[k].name == n;
      assert existing[k] in all;
    }
  }

  method DeleteExisting(server: ImageServer, sorted: seq<string>, requested: seq<string>, all: seq<Entry>)
    requires Sorted(sorted) && multiset(sorted) == multiset(requested) && Lists(all, server.aliases)
    modifies server
    ensures forall n :: Lookup(server.aliases, n) == Cleared(old(server.aliases), requested, server.faults, n)
  {
    SameNames(sorted, requested);
    var existing := GetExistingAliases(sorted, all);
    ghost var table, names := server.aliases, NamesOf(existing);
    for k := 0 to |existing|
      invariant forall n :: Lookup(server.aliases, n) ==
                            if n in names[..k] && n !in server.faults.stuck then None else Lookup(table, n)
    {
      assert names[..k + 1] == names[..k] + [names[k]];
      var _ := server.DeleteImageAlias(existing[k].name);
    }
    assert names[..|existing|] == names;
    forall n ensures Lookup(server.aliases, n) == Cleared(table, requested, server.faults, n) {
      ExistingNames(table, all, requested, existing, n);
    }
  }

  lemma EnsuredNames(table: Table, after: Table, requested: seq<string>, fingerprint: string, faults: Faults)
    requires forall n :: Lookup(after, n) == Ensured(table, requested, fingerprint, faults, n)
    ensures faults.stuck == {} && faults.refused == {} ==>
              forall n :: n in requested ==> n in after && after[n].target == fingerprint
    ensures forall n :: n !in requested ==> (n in after <==> n in table) && (n in after ==> after[n] == table[n])
  {
    forall n | n !in requested ensures (n in after <==> n in table) && (n in after ==> after[n] == table[n]) {
      assert Lookup(after, n) == Ensured(table, requested, fingerprint, faults, n);
    }
    forall n | n in requested && faults.stuck == {} && faults.refused == {}
      ensures n in after && after[n].target == fingerprint
    {
      assert Lookup(after, n) == Ensured(table, requested, fingerprint, faults, n);
    }
  }

  /** Every requested name points to the image and every other alias is as before, whatever the
      order and the repetitions of the request; the exceptions are spelled out by Ensured. */
  method EnsureImageAliases(server: ImageServer, requested: seq<string>, fingerprint: string) returns (ok: bool)
    modifies server
    ensures ok <==> requested == [] || !server.faults.listing
    ensures !ok ==> server.aliases == old(server.aliases)
    ensures ok ==> forall n :: Lookup(server.aliases, n) ==
                               Ensured(old(server.aliases), requested, fingerprint, server.faults, n)
    ensures ok && server.faults.stuck == {} && server.faults.refused == {} ==>
              forall n :: n in requested ==> n in server.aliases && server.aliases[n].target == fingerprint
    ensures forall n :: n !in requested ==>
              && (n in server.aliases <==> n in old(server.aliases))
              && (n in server.aliases ==> server.aliases[n] == old(server.aliases)[n])
  {
    if requested == [] {
      return true;
    }
    var sorted := SortStrings(requested);
    var all := server.GetImageAliases();
    if all.None? {
      return false;
    }
    ghost var table := server.aliases;
    DeleteExisting(server, sorted, requested, all.value);
    ghost var cleared := server.aliases;
    for k := 0 to |requested|
      invariant forall n :: Lookup(server.aliases, n) ==
                            if n in requested[..k] && n !in cleared && n !in server.faults.refused
                            then Some(Alias(fingerprint, "")) else Lookup(cleared, n)
    {
      assert requested[..k + 1] == requested[..k] + [requested[k]];
      assert Lookup(server.aliases, requested[k]) ==
             if requested[k] in requested[..k] && requested[k] !in cleared && requested[k] !in server.faults.refused
             then Some(Alias(fingerprint, "")) else Lookup(cleared, requested[k]);
      var _ := server.CreateImageAlias(requested[k], fingerprint);
    }
    assert requested[..|requested|] == requested;
    forall n ensures Lookup(server.aliases, n) == Ensured(table, requested, fingerprint, server.faults, n) {
      assert Lookup(cleared, n) == Cleared(table, requested, server.faults, n);
    }
    EnsuredNames(table, server.aliases, requested, fingerprint, server.faults);
    return true;
  }

  /** The table that the request asks for. */
  function Overridden(table: Table, requested: seq<string>, fingerprint: string): Table {
    table + map n | n in requested :: Alias(fingerprint, "")
  }

  /** The request is met in full exactly when no deletion that was needed got stuck and no
      creation was refused. */
  lemma EnsuredExactlyWhen(table: Table, after: Table, requested: seq<string>, fingerprint: string, faults: Faults)
    requires forall n :: Lookup(after, n) == Ensured(table, requested, fingerprint, faults, n)
    ensures after == Overridden(table, requested, fingerprint) <==>
            forall n :: n in requested ==>
              if n in table && n in faults.stuck then table[n] == Alias(fingerprint, "") else n !in faults.refused
  {
    var want := Overridden(table, requested, fingerprint);
    if forall n :: n in requested ==>
         if n in table && n in faults.stuck then table[n] == Alias(fingerprint, "") else n !in faults.refused {
      forall n ensures Lookup(after, n) == Lookup(want, n) {
        assert Lookup(after, n) == Ensured(table, requested, fingerprint, faults, n);
      }
      SameTable(after, want);
    } else {
      var n :| n in requested &&
               !(if n in table && n in faults.stuck then table[n] == Alias(fingerprint, "") else n !in faults.refused);
      assert Lookup(after, n) == Ensured(table, requested, fingerprint, faults, n);
      assert Lookup(want, n) == Some(Alias(fingerprint, ""));
    }
  }

  lemma SameTable(a: Table, b: Table)
    requires forall n :: Lookup(a, n) == Lookup(b, n)
    ensures a == b
  {
    forall n ensures n in a <==> n in b {
      assert Lookup(a, n) == Lookup(b, n);
    }
    forall n | n in a ensures a[n] == b[n] {
      assert Lookup(a, n) == Lookup(b, n);
    }
  }
}
