// Exporting a container as a tar archive (Export and tarStoreFile in lxd/container_lxc.go): the
// hard-link table, and what extracting the archive gives back.
module TarExport {
  import opened GoStrings

  // ----- Files and archives ----------------------------------------------------------------------

  datatype Kind = Regular | Directory | Symlink(target: string) | Device(major: int, minor: int) | Pipe

  /** A path found by the walk, with what stat says about it.  unmapped: its owner has no id in
      the container's map. */
  datatype File = File(
    dir: string,
    rel: string,
    kind: Kind,
    dev: nat,       // the device, or subvolume, that the inode number belongs to
    ino: nat,
    nlink: nat,
    content: string,
    unmapped: bool)

  datatype Body = Content(data: string) | HardLink(target: string) | Other(kind: Kind)

  datatype Entry = Entry(name: string, body: Body)

  function PathOf(f: File): string { f.dir + ['/'] + f.rel }

  /** The name inside the archive: the path from after the walked directory on. */
  function NameOf(f: File): (name: string)
    ensures name == f.rel
  {
    PathOf(f)[|f.dir| + 1..]
  }

  predicate HasPrefix(s: string, prefix: string) { prefix <= s }

  /** The files whose links are tracked. */
  predicate Tracked(f: File) { f.kind.Regular? && 1 < f.nlink }

  function OwnBody(f: File): Body {
    if f.kind.Regular? then Content(f.content) else Other(f.kind)
  }

  // ----- What the archive should hold ----------------------------------------------------------------

  /** The first tracked path of an inode. */
  function First(files: seq<File>, ino: nat): (i: nat)
    requires exists k :: 0 <= k < |files| && Tracked(files[k]) && files[k].ino == ino
    ensures i < |files| && Tracked(files[i]) && files[i].ino == ino
    ensures forall k :: 0 <= k < i ==> !(Tracked(files[k]) && files[k].ino == ino)
  {
    if Tracked(files[0]) && files[0].ino == ino then 0
    else
      assert forall k :: 0 <= k < |files| - 1 ==> files[1..][k] == files[k + 1];
      1 + First(files[1..], ino)
  }

  /** The entry of path i: a link to the first path of its inode, or its own content. */
  function EntryFor(files: seq<File>, i: nat): Entry
    requires i < |files|
  {
    var f := files[i];
    if Tracked(f) && First(files, f.ino) < i then Entry(f.rel, HardLink(files[First(files, f.ino)].rel))
    else Entry(f.rel, OwnBody(f))
  }

  ghost predicate ArchiveOf(files: seq<File>, archive: seq<Entry>) {
    |archive| == |files| && forall i :: 0 <= i < |files| ==> archive[i] == EntryFor(files, i)
  }

  // ----- tarStoreFile and the walk ----------------------------------------------------------------------

  /** Every name is relative, so the branch that drops files under "/rootfs" with an unmapped
      owner is never taken. */
  method StoreFile(linkmap: map<nat, string>, f: File, privileged: bool)
    returns (linkmap': map<nat, string>, entry: Entry)
    requires f.rel != [] && f.rel[0] != '/'
    ensures entry.name == f.rel
    ensures if f.kind.Regular? && 1 < f.nlink && f.ino in linkmap then entry.body == HardLink(linkmap[f.ino])
            else Holds(f, entry.body)
    ensures linkmap' == if f.kind.Regular? && 1 < f.nlink && f.ino !in linkmap then linkmap[f.ino := f.rel] else linkmap
  {
    linkmap' := linkmap;
    var name := NameOf(f);
    if !privileged && HasPrefix(name, "/rootfs") && f.unmapped {
      assert false;
    }
    var body := OwnBody(f);
    if f.kind.Regular? && f.nlink > 1 {
      if f.ino in linkmap {
        body := HardLink(linkmap[f.ino]);
      } else {
        linkmap' := linkmap[f.ino := name];
      }
    }
    entry := Entry(name, body);
  }

  ghost predicate Relative(files: seq<File>) {
    forall i :: 0 <= i < |files| ==> files[i].rel != [] && files[i].rel[0] != '/'
  }

  /** The table after the first n files. */
  ghost predicate Table(files: seq<File>, n: nat, linkmap: map<nat, string>)
    requires n <= |files|
  {
    && (forall k :: 0 <= k < n && Tracked(files[k]) ==> files[k].ino in linkmap)
    && (forall ino :: ino in linkmap ==>
          exists k :: 0 <= k < n && Tracked(files[k]) && files[k].ino == ino && linkmap[ino] == files[k].rel
                      && k == First(files, ino))
  }

  method Export(files: seq<File>, privileged: bool) returns (archive: seq<Entry>)
    requires Relative(files)
    ensures ArchiveOf(files, archive)
  {
    archive := [];
    var linkmap: map<nat, string> := map[];
    for n := 0 to |files|
      invariant |archive| == n && forall i :: 0 <= i < n ==> archive[i] == EntryFor(files, i)
      invariant Table(files, n, linkmap)
    {
      var f := files[n];
      var entry;
      ghost var before := linkmap;
      linkmap, entry := StoreFile(linkmap, f, privileged);
      TableStep(files, n, before, linkmap);
      archive := archive + [entry];
    }
  }

  lemma TableStep(files: seq<File>, n: nat, linkmap: map<nat, string>, linkmap': map<nat, string>)
    requires n < |files| && Table(files, n, linkmap)
    requires var f := files[n];
             linkmap' == if Tracked(f) && f.ino !in linkmap then linkmap[f.ino := f.rel] else linkmap
    ensures Table(files, n + 1, linkmap')
    ensures var f := files[n];
            EntryFor(files, n) ==
            Entry(f.rel, if Tracked(f) && f.ino in linkmap then HardLink(linkmap[f.ino]) else OwnBody(f))
  {
    var f := files[n];
    if Tracked(f) && f.ino !in linkmap {
      assert First(files, f.ino) == n;
    }
  }

  // ----- Extraction -----------------------------------------------------------------------------------------

  /** names gives the inode of every extracted path, bodies what each inode holds. */
  datatype Tree = Tree(names: map<string, nat>, bodies: map<nat, Body>)

  /** Entry n of an archive is extracted: a new inode numbered n, or one more name. */
  function ExtractOne(t: Tree, n: nat, e: Entry): Option<Tree> {
    match e.body
    case HardLink(target) =>
      if target in t.names then Some(t.(names := t.names[e.name := t.names[target]])) else None
    case _ => Some(Tree(t.names[e.name := n], t.bodies[n := e.body]))
  }

  function Extract(archive: seq<Entry>): Option<Tree> {
    if archive == [] then Some(Tree(map[], map[]))
    else
      var n := |archive| - 1;
      match Extract(archive[..n])
      case Some(t) => ExtractOne(t, n, archive[n])
      case None => None
  }

  /** What file systems guarantee: names are different, and a regular inode that shows up twice
      has more than one link and one content. */
  ghost predicate Consistent(files: seq<File>) {
    && (forall i, j :: 0 <= i < j < |files| ==> files[i].rel != files[j].rel)
    && (forall i, j :: 0 <= i < |files| && 0 <= j < |files| && i != j && SameFile(files[i], files[j]) ==>
          1 < files[i].nlink && files[i].content == files[j].content)
  }

  predicate SameFile(f: File, g: File) {
    f.kind.Regular? && g.kind.Regular? && f.dev == g.dev && f.ino == g.ino
  }

  /** Two tracked paths with one entry in the table. */
  predicate SameSlot(f: File, g: File) {
    f.kind.Regular? && g.kind.Regular? && 1 < f.nlink && 1 < g.nlink && f.ino == g.ino
  }

  /** No inode number of a tracked path is used on two devices. */
  ghost predicate OneDevicePerNumber(files: seq<File>) {
    forall i, j :: 0 <= i < |files| && 0 <= j < |files| && SameSlot(files[i], files[j]) ==> files[i].dev == files[j].dev
  }

  /** Tracked paths with one inode number have one content. */
  ghost predicate OneContentPerNumber(files: seq<File>) {
    forall i, j :: 0 <= i < |files| && 0 <= j < |files| && SameSlot(files[i], files[j]) ==>
      files[i].content == files[j].content
  }

  /** The inode number the extraction gives to path i. */
  function NodeOf(files: seq<File>, i: nat): nat
    requires i < |files|
  {
    if Tracked(files[i]) then First(files, files[i].ino) else i
  }

  function Nodes(files: seq<File>): (nodes: seq<nat>)
    ensures |nodes| == |files| && forall i :: 0 <= i < |files| ==> nodes[i] == NodeOf(files, i)
  {
    seq(|files|, i requires 0 <= i < |files| => NodeOf(files, i))
  }

  ghost predicate ExtractedUpTo(files: seq<File>, nodes: seq<nat>, n: nat, t: Tree)
    requires n <= |files| == |nodes|
  {
    && (forall i :: 0 <= i < n ==> files[i].rel in t.names && t.names[files[i].rel] == nodes[i])
    && (forall name :: name in t.names ==> exists i :: 0 <= i < n && files[i].rel == name)
    && (forall i :: 0 <= i < n && nodes[i] == i ==> i in t.bodies && t.bodies[i] == OwnBody(files[i]))
  }

  /** One more path: under a new inode, or under that of its first path. */
  function Grown(f: File, node: nat, n: nat, t: Tree): Tree {
    Tree(t.names[f.rel := node], if node == n then t.bodies[n := OwnBody(f)] else t.bodies)
  }

  lemma {:induction false} GrownNames(files: seq<File>, node: nat, n: nat, t: Tree)
    requires n < |files|
    requires forall name :: name in t.names ==> exists i :: 0 <= i < n && files[i].rel == name
    ensures forall name :: name in Grown(files[n], node, n, t).names ==>
              exists i :: 0 <= i < n + 1 && files[i].rel == name
  {
    forall name | name in Grown(files[n], node, n, t).names ensures exists i :: 0 <= i < n + 1 && files[i].rel == name {
      if name in t.names {
        var i :| 0 <= i < n && files[i].rel == name;
      } else {
        assert files[n].rel == name;
      }
    }
  }

  lemma {:induction false} GrownPaths(files: seq<File>, nodes: seq<nat>, n: nat, t: Tree)
    requires forall i, j :: 0 <= i < j < |files| ==> files[i].rel != files[j].rel
    requires n < |files| == |nodes|
    requires forall i :: 0 <= i < n ==> files[i].rel in t.names && t.names[files[i].rel] == nodes[i]
    ensures var names := Grown(files[n], nodes[n], n, t).names;
            forall i :: 0 <= i < n + 1 ==> files[i].rel in names && names[files[i].rel] == nodes[i]
  {
    var names := Grown(files[n], nodes[n], n, t).names;
    forall i | 0 <= i < n + 1 ensures files[i].rel in names && names[files[i].rel] == nodes[i] {
      if i < n {
        assert files[i].rel != files[n].rel;
      }
    }
  }

  lemma {:induction false} GrownBodies(files: seq<File>, nodes: seq<nat>, n: nat, t: Tree)
    requires n < |files| == |nodes|
    requires forall i :: 0 <= i < n && nodes[i] == i ==> i in t.bodies && t.bodies[i] == OwnBody(files[i])
    ensures var bodies := Grown(files[n], nodes[n], n, t).bodies;
            forall i :: 0 <= i < n + 1 && nodes[i] == i ==> i in bodies && bodies[i] == OwnBody(files[i])
  {
  }

  lemma {:induction false} GrownExtracted(files: seq<File>, nodes: seq<nat>, n: nat, t: Tree)
    requires forall i, j :: 0 <= i < j < |files| ==> files[i].rel != files[j].rel
    requires n < |files| == |nodes| && ExtractedUpTo(files, nodes, n, t)
    ensures ExtractedUpTo(files, nodes, n + 1, Grown(files[n], nodes[n], n, t))
  {
    GrownPaths(files, nodes, n, t);
    GrownNames(files, nodes[n], n, t);
    GrownBodies(files, nodes, n, t);
  }

  lemma {:induction false} ExtractStep(files: seq<File>, n: nat, t: Tree)
    requires n < |files| && ExtractedUpTo(files, Nodes(files), n, t)
    ensures ExtractOne(t, n, EntryFor(files, n)) == Some(Grown(files[n], NodeOf(files, n), n, t))
  {
    var f := files[n];
    if Tracked(f) && First(files, f.ino) < n {
      var k := First(files, f.ino);
      assert files[k].rel in t.names && NodeOf(files, k) == k;
    }
  }

  lemma ExtractSnoc(archive: seq<Entry>, n: nat)
    requires n < |archive| && Extract(archive[..n]).Some?
    ensures Extract(archive[..n + 1]) == ExtractOne(Extract(archive[..n]).value, n, archive[n])
  {
    assert archive[..n + 1][..n] == archive[..n];
  }

  lemma {:induction false} ExtractNext(files: seq<File>, archive: seq<Entry>, n: nat)
    requires Consistent(files) && n < |files| && ArchiveOf(files, archive)
    requires Extract(archive[..n]).Some? && ExtractedUpTo(files, Nodes(files), n, Extract(archive[..n]).value)
    ensures Extract(archive[..n + 1]).Some?
    ensures ExtractedUpTo(files, Nodes(files), n + 1, Extract(archive[..n + 1]).value)
  {
    var t := Extract(archive[..n]).value;
    ExtractSnoc(archive, n);
    ExtractStep(files, n, t);
    GrownExtracted(files, Nodes(files), n, t);
  }

  lemma {:induction false} ExtractPrefix(files: seq<File>, archive: seq<Entry>, n: nat)
    requires Consistent(files) && n <= |files| && ArchiveOf(files, archive)
    ensures Extract(archive[..n]).Some? && ExtractedUpTo(files, Nodes(files), n, Extract(archive[..n]).value)
  {
    if 0 < n {
      ExtractPrefix(files, archive, n - 1);
      ExtractNext(files, archive, n - 1);
    }
  }

  lemma {:induction false} NodeIsSelfOrSlot(files: seq<File>, i: nat)
    requires i < |files|
    ensures var k := NodeOf(files, i);
            k < |files| && NodeOf(files, k) == k && (k == i || SameSlot(files[k], files[i]))
  {
  }

  lemma {:induction false} SameNode(files: seq<File>, i: nat, j: nat)
    requires i < |files| && j < |files| && i != j
    ensures NodeOf(files, i) == NodeOf(files, j) <==> SameSlot(files[i], files[j])
  {
    NodeIsSelfOrSlot(files, i);
    NodeIsSelfOrSlot(files, j);
  }

  /** t holds exactly the paths of files. */
  ghost predicate SamePaths(files: seq<File>, t: Tree) {
    forall name :: name in t.names <==> exists i :: 0 <= i < |files| && files[i].rel == name
  }

  /** A regular file holds its content, anything else is what it was. */
  predicate Holds(f: File, body: Body) {
    if f.kind.Regular? then body == Content(f.content) else body == Other(f.kind)
  }

  /** Each path leads to what it led to. */
  ghost predicate SameContents(files: seq<File>, t: Tree)
    requires SamePaths(files, t)
  {
    forall i :: 0 <= i < |files| ==>
      t.names[files[i].rel] in t.bodies && Holds(files[i], t.bodies[t.names[files[i].rel]])
  }

  /** Two paths lead to one inode in t exactly if they are links of one regular file. */
  ghost predicate SameLinks(files: seq<File>, t: Tree)
    requires SamePaths(files, t)
  {
    forall i, j :: 0 <= i < |files| && 0 <= j < |files| && i != j ==>
      (t.names[files[i].rel] == t.names[files[j].rel] <==> SameFile(files[i], files[j]))
  }

  /** What path i holds after the extraction. */
  lemma {:induction false} Found(files: seq<File>, t: Tree, i: nat)
    requires ExtractedUpTo(files, Nodes(files), |files|, t) && i < |files|
    ensures var k := NodeOf(files, i);
            && k < |files| && (k == i || SameSlot(files[k], files[i]))
            && files[i].rel in t.names && t.names[files[i].rel] == k
            && k in t.bodies && t.bodies[k] == OwnBody(files[k])
  {
    NodeIsSelfOrSlot(files, i);
  }

  lemma {:induction false} ContentsExactly(files: seq<File>, t: Tree)
    requires ExtractedUpTo(files, Nodes(files), |files|, t) && SamePaths(files, t)
    ensures SameContents(files, t) <==> OneContentPerNumber(files)
  {
    if OneContentPerNumber(files) {
      forall i | 0 <= i < |files|
        ensures t.names[files[i].rel] in t.bodies && Holds(files[i], t.bodies[t.names[files[i].rel]])
      {
        Found(files, t, i);
      }
    }
    if SameContents(files, t) {
      forall i, j | 0 <= i < |files| && 0 <= j < |files| && SameSlot(files[i], files[j])
        ensures files[i].content == files[j].content
      {
        Found(files, t, i);
        Found(files, t, j);
        if i != j {
          SameNode(files, i, j);
        }
      }
    }
  }

  /** For two paths: links of one file are those with one entry in the table, on one device. */
  lemma {:induction false} LinkedWhen(files: seq<File>, t: Tree, i: nat, j: nat)
    requires Consistent(files) && ExtractedUpTo(files, Nodes(files), |files|, t) && SamePaths(files, t)
    requires i < |files| && j < |files| && i != j
    ensures t.names[files[i].rel] == t.names[files[j].rel] <==> SameSlot(files[i], files[j])
    ensures SameFile(files[i], files[j]) <==> SameSlot(files[i], files[j]) && files[i].dev == files[j].dev
  {
    Found(files, t, i);
    Found(files, t, j);
    SameNode(files, i, j);
  }

  lemma {:induction false} LinksKept(files: seq<File>, t: Tree)
    requires Consistent(files) && ExtractedUpTo(files, Nodes(files), |files|, t) && SamePaths(files, t)
    requires OneDevicePerNumber(files)
    ensures SameLinks(files, t)
  {
    forall i, j | 0 <= i < |files| && 0 <= j < |files| && i != j
      ensures t.names[files[i].rel] == t.names[files[j].rel] <==> SameFile(files[i], files[j])
    {
      LinkedWhen(files, t, i, j);
    }
  }

  lemma {:induction false} LinksJoined(files: seq<File>, t: Tree, i: nat, j: nat)
    requires Consistent(files) && ExtractedUpTo(files, Nodes(files), |files|, t) && SamePaths(files, t)
    requires i < |files| && j < |files| && SameSlot(files[i], files[j]) && files[i].dev != files[j].dev
    ensures !SameLinks(files, t)
  {
    LinkedWhen(files, t, i, j);
  }

  lemma {:induction false} LinksBroken(files: seq<File>, t: Tree)
    requires Consistent(files) && ExtractedUpTo(files, Nodes(files), |files|, t) && SamePaths(files, t)
    requires !OneDevicePerNumber(files)
    ensures !SameLinks(files, t)
  {
    var i, j :| 0 <= i < |files| && 0 <= j < |files| && SameSlot(files[i], files[j]) && files[i].dev != files[j].dev;
    LinksJoined(files, t, i, j);
  }

  lemma {:induction false} OneDeviceOneContent(files: seq<File>)
    requires Consistent(files) && OneDevicePerNumber(files)
    ensures OneContentPerNumber(files)
  {
    forall i, j | 0 <= i < |files| && 0 <= j < |files| && SameSlot(files[i], files[j])
      ensures files[i].content == files[j].content
    {
      assert SameFile(files[i], files[j]);
    }
  }

  lemma {:induction false} ExtractedAll(files: seq<File>, archive: seq<Entry>) returns (t: Tree)
    requires Consistent(files) && ArchiveOf(files, archive)
    ensures Extract(archive) == Some(t) && ExtractedUpTo(files, Nodes(files), |files|, t) && SamePaths(files, t)
  {
    ExtractPrefix(files, archive, |files|);
    assert archive[..|files|] == archive;
    t := Extract(archive).value;
  }

  /** Extraction always succeeds and gives exactly the paths back.  Every path has its content
      exactly if tracked paths with one inode number have one content; two paths are hard links
      of each other exactly if they were before, exactly if no inode number of a tracked path is
      used on two devices. */
  lemma {:induction false} RoundTrip(files: seq<File>, archive: seq<Entry>)
    requires Consistent(files) && ArchiveOf(files, archive)
    ensures Extract(archive).Some? && SamePaths(files, Extract(archive).value)
    ensures SameContents(files, Extract(archive).value) <==> OneContentPerNumber(files)
    ensures SameLinks(files, Extract(archive).value) <==> OneDevicePerNumber(files)
    ensures OneDevicePerNumber(files) ==> OneContentPerNumber(files)
  {
    var t := ExtractedAll(files, archive);
    ContentsExactly(files, t);
    if OneDevicePerNumber(files) {
      LinksKept(files, t);
      OneDeviceOneContent(files);
    } else {
      LinksBroken(files, t);
    }
  }

  /** Two subvolumes that use one inode number: the second file becomes a link to the first, and
      its content is lost. */
  lemma {:induction false} SubvolumesClash(a: File, b: File)
    requires a.rel != b.rel && Tracked(a) && Tracked(b) && a.ino == b.ino && a.dev != b.dev && a.content != b.content
    ensures var archive := [EntryFor([a, b], 0), EntryFor([a, b], 1)];
            && Consistent([a, b]) && ArchiveOf([a, b], archive)
            && archive[1] == Entry(b.rel, HardLink(a.rel))
            && Extract(archive).Some? && SamePaths([a, b], Extract(archive).value)
            && !SameContents([a, b], Extract(archive).value)
  {
    var files := [a, b];
    var archive := [EntryFor(files, 0), EntryFor(files, 1)];
    assert files[0] == a && files[1] == b;
    assert First(files, a.ino) == 0;
    RoundTrip(files, archive);
    assert SameSlot(files[0], files[1]) && files[0].content != files[1].content;
  }

  /** A link entry names an earlier entry with the content of the same inode, and the content of
      a multiply linked inode is stored once, at its first path. */
  lemma {:induction false} LinksPointBack(files: seq<File>, archive: seq<Entry>, i: nat)
    requires ArchiveOf(files, archive) && i < |files| && Tracked(files[i])
    ensures archive[i].body.HardLink? ==>
              exists k :: 0 <= k < i && Tracked(files[k]) && files[k].ino == files[i].ino
                          && archive[k] == Entry(archive[i].body.target, Content(files[k].content))
    ensures archive[i].body.Content? <==> i == First(files, files[i].ino)
  {
    var k := First(files, files[i].ino);
    assert First(files, files[k].ino) == k;
  }

  /** Export followed by extraction. */
  method ExportAndExtract(files: seq<File>, privileged: bool) returns (t: Option<Tree>)
    requires Relative(files) && Consistent(files)
    ensures t.Some? && SamePaths(files, t.value)
    ensures SameContents(files, t.value) <==> OneContentPerNumber(files)
    ensures SameContents(files, t.value) && SameLinks(files, t.value) <==> OneDevicePerNumber(files)
  {
    var archive := Export(files, privileged);
    RoundTrip(files, archive);
    t := Extract(archive);
  }
}
