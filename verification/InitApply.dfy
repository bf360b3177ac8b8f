// "lxd init": applying a configuration, and reverting what was applied when a step fails
// (lxd/main_init.go).
module InitApply {
  import opened GoStrings

  // ----- What the server stores ----------------------------------------------------------------------

  type Config = map<string, string>

  datatype Body = Body(config: Config, description: string, devices: map<string, Config>)

  datatype Store = Store(config: Config, profiles: map<string, Body>)

  /** The requests that change it. */
  datatype Request =
    | UpdateServer(config: Config)
    | CreateProfile(name: string, body: Body)
    | UpdateProfile(name: string, body: Body)
    | DeleteProfile(name: string)

  /** The requests that the server finds invalid. */
  type Refusals = Request -> bool

  /** A refused request changes nothing. */
  function Send(s: Store, no: Refusals, r: Request): Option<Store> {
    if no(r) then None else
    match r
    case UpdateServer(c) => Some(s.(config := c))
    case CreateProfile(n, b) => if n in s.profiles then None else Some(s.(profiles := s.profiles[n := b]))
    case UpdateProfile(n, b) => if n in s.profiles then Some(s.(profiles := s.profiles[n := b])) else None
    case DeleteProfile(n) => if n in s.profiles then Some(s.(profiles := s.profiles - {n})) else None
  }

  // ----- The steps ------------------------------------------------------------------------------------

  /** One step of the configuration: the server's own, or one profile. */
  datatype Change = SetConfig(config: Config) | SetProfile(name: string, body: Body)

  /** The request of a step. */
  function Wanted(s: Store, c: Change): Request {
    match c
    case SetConfig(config) => UpdateServer(config)
    case SetProfile(n, b) => if n in s.profiles then UpdateProfile(n, b) else CreateProfile(n, b)
  }

  /** What its reverter will ask for. */
  function Undo(s: Store, c: Change): Request {
    match c
    case SetConfig(_) => UpdateServer(s.config)
    case SetProfile(n, _) => if n in s.profiles then UpdateProfile(n, s.profiles[n]) else DeleteProfile(n)
  }

  /** The store with the step's value in place, whatever was there. */
  function Written(s: Store, c: Change): Store {
    match c
    case SetConfig(config) => s.(config := config)
    case SetProfile(n, b) => s.(profiles := s.profiles[n := b])
  }

  function After(s: Store, cs: seq<Change>): Store {
    if cs == [] then s else Written(After(s, cs[..|cs|-1]), cs[|cs|-1])
  }

  /** The server takes every step. */
  ghost predicate Accepted(s: Store, no: Refusals, cs: seq<Change>) {
    forall k :: 0 <= k < |cs| ==> !no(Wanted(After(s, cs[..k]), cs[k]))
  }

  function Undos(s: Store, cs: seq<Change>): (r: seq<Request>)
    ensures |r| == |cs|
  {
    seq(|cs|, k requires 0 <= k < |cs| => Undo(After(s, cs[..k]), cs[k]))
  }

  /** The store after requests sent one after the other, up to the first that fails; and whether
      all succeeded. */
  function Replay(s: Store, no: Refusals, rs: seq<Request>): (Store, bool) {
    if rs == [] then (s, true)
    else
      var (t, ok) := Replay(s, no, rs[..|rs|-1]);
      if !ok then (t, false)
      else
        match Send(t, no, rs[|rs|-1])
        case None => (t, false)
        case Some(u) => (u, true)
  }

  // ----- The code ---------------------------------------------------------------------------------------

  class Server {
    var config: Config
    var profiles: map<string, Body>
    const no: Refusals

    constructor (s: Store, no: Refusals)
      ensures Contents() == s && this.no == no
    {
      config, profiles, this.no := s.config, s.profiles, no;
    }

    function Contents(): Store
      reads this
    {
      Store(config, profiles)
    }

    method Handle(r: Request) returns (ok: bool)
      modifies this
      ensures ok <==> Send(old(Contents()), no, r).Some?
      ensures Contents() == if ok then Send(old(Contents()), no, r).value else old(Contents())
      ensures ok <==> !no(r) && (r.CreateProfile? ==> r.name !in old(profiles))
                      && (r.UpdateProfile? || r.DeleteProfile? ==> r.name in old(profiles))
      ensures ok && r.UpdateServer? ==> config == r.config && profiles == old(profiles)
      ensures ok && (r.CreateProfile? || r.UpdateProfile?) ==> profiles == old(profiles)[r.name := r.body]
      ensures ok && r.DeleteProfile? ==> profiles == old(profiles) - {r.name}
      ensures !ok || !r.UpdateServer? ==> config == old(config)
      ensures !ok ==> profiles == old(profiles)
    {
      if no(r) {
        return false;
      }
      match r {
      case UpdateServer(c) =>
        config := c;
      case CreateProfile(n, b) =>
        if n in profiles {
          return false;
        }
        profiles := profiles[n := b];
      case UpdateProfile(n, b) =>
        if n !in profiles {
          return false;
        }
        profiles := profiles[n := b];
      case DeleteProfile(n) =>
        if n !in profiles {
          return false;
        }
        profiles := profiles - {n};
      }
      return true;
    }
  }

  method InitConfig(server: Server, config: Config) returns (reverter: Option<Request>)
    modifies server
    ensures Stepped(old(server.Contents()), server.no, SetConfig(config), server.Contents(), reverter)
  {
    var current := server.config;
    var ok := server.Handle(UpdateServer(config));
    reverter := if ok then Some(UpdateServer(current)) else None;
  }

  method InitProfile(server: Server, name: string, body: Body) returns (reverter: Option<Request>)
    modifies server
    ensures Stepped(old(server.Contents()), server.no, SetProfile(name, body), server.Contents(), reverter)
  {
    var ok;
    if name in server.profiles {
      var current := server.profiles[name];
      ok := server.Handle(UpdateProfile(name, body));
      reverter := if ok then Some(UpdateProfile(name, current)) else None;
    } else {
      ok := server.Handle(CreateProfile(name, body));
      reverter := if ok then Some(DeleteProfile(name)) else None;
    }
  }

  /** A step that the server takes yields its reverter; a step that it refuses changes nothing. */
  ghost predicate Stepped(s: Store, no: Refusals, c: Change, t: Store, reverter: Option<Request>) {
    if no(Wanted(s, c)) then t == s && reverter == None
    else t == Written(s, c) && reverter == Some(Undo(s, c))
  }

  method Revert(server: Server, reverters: seq<Request>)
    modifies server
    ensures server.Contents() == Replay(old(server.Contents()), server.no, reverters).0
  {
    ghost var s := server.Contents();
    for k := 0 to |reverters|
      invariant Replay(s, server.no, reverters[..k]) == (server.Contents(), true)
    {
      assert reverters[..k + 1][..k] == reverters[..k];
      var ok := server.Handle(reverters[k]);
      if !ok {
        StopsThere(s, server.no, reverters, k + 1);
        return;
      }
    }
    assert reverters[..|reverters|] == reverters;
  }

  /** Nothing is sent after a failure. */
  lemma {:induction false} StopsThere(s: Store, no: Refusals, rs: seq<Request>, k: nat)
    requires k <= |rs| && !Replay(s, no, rs[..k]).1
    ensures Replay(s, no, rs) == Replay(s, no, rs[..k])
    decreases |rs|
  {
    if k == |rs| {
      assert rs[..k] == rs;
    } else {
      assert rs[..|rs|-1][..k] == rs[..k];
      StopsThere(s, no, rs[..|rs|-1], k);
    }
  }

  function Changes(config: Config, profiles: seq<(string, Body)>): (cs: seq<Change>)
    ensures |cs| == 1 + |profiles|
  {
    [SetConfig(config)] + seq(|profiles|, i requires 0 <= i < |profiles| => SetProfile(profiles[i].0, profiles[i].1))
  }

  /** The first k steps were taken, the next was refused, and their reverters ran in the order of
      the steps. */
  ghost predicate FailedAt(s: Store, no: Refusals, cs: seq<Change>, k: nat, t: Store) {
    && k < |cs|
    && Accepted(s, no, cs[..k])
    && no(Wanted(After(s, cs[..k]), cs[k]))
    && t == Replay(After(s, cs[..k]), no, Undos(s, cs[..k])).0
  }

  /** The store that the configuration asks for: each profile as it is named last, and the others
      as they were. */
  ghost predicate Asked(s: Store, config: Config, profiles: seq<(string, Body)>, t: Store) {
    && t.config == config
    && (forall i :: 0 <= i < |profiles| && (forall j :: i < j < |profiles| ==> profiles[j].0 != profiles[i].0) ==>
          profiles[i].0 in t.profiles && t.profiles[profiles[i].0] == profiles[i].1)
    && (forall n :: (forall i :: 0 <= i < |profiles| ==> profiles[i].0 != n) ==>
          (n in t.profiles <==> n in s.profiles) && (n in s.profiles ==> t.profiles[n] == s.profiles[n]))
  }

  /** All or nothing, if no profile is named twice and no reverter is refused. */
  method Apply(server: Server, config: Config, profiles: seq<(string, Body)>) returns (ok: bool)
    modifies server
    ensures ok <==> Accepted(old(server.Contents()), server.no, Changes(config, profiles))
    ensures ok ==> server.Contents() == After(old(server.Contents()), Changes(config, profiles))
    ensures ok ==> Asked(old(server.Contents()), config, profiles, server.Contents())
    ensures !ok ==>
              exists k: nat ::
                FailedAt(old(server.Contents()), server.no, Changes(config, profiles), k, server.Contents())
    ensures !ok && (forall i, j :: 0 <= i < j < |profiles| ==> profiles[i].0 != profiles[j].0)
            && NoneRefused(server.no, Undos(old(server.Contents()), Changes(config, profiles)))
            ==> server.Contents() == old(server.Contents())
  {
    ghost var s, cs := server.Contents(), Changes(config, profiles);
    ghost var k;
    ok, k := ApplyChanges(server, config, profiles);
    if ok {
      AfterIsAsked(s, config, profiles);
    } else {
      FailedRestores(s, server.no, cs, k, server.Contents());
      DistinctNames(config, profiles);
    }
  }

  /** The loop over the changers: all are taken, or those before the first that is refused are
      reverted. */
  method ApplyChanges(server: Server, config: Config, profiles: seq<(string, Body)>)
    returns (ok: bool, ghost failed: nat)
    modifies server
    ensures ok <==> Accepted(old(server.Contents()), server.no, Changes(config, profiles))
    ensures ok ==> server.Contents() == After(old(server.Contents()), Changes(config, profiles))
    ensures !ok ==> FailedAt(old(server.Contents()), server.no, Changes(config, profiles), failed, server.Contents())
  {
    ghost var s, cs := server.Contents(), Changes(config, profiles);
    var reverters: seq<Request> := [];
    var k := 0;
    while k < |profiles| + 1
      invariant k <= |cs|
      invariant server.Contents() == After(s, cs[..k])
      invariant reverters == Undos(s, cs[..k])
      invariant Accepted(s, server.no, cs[..k])
    {
      var reverter;
      if k == 0 {
        reverter := InitConfig(server, config);
      } else {
        reverter := InitProfile(server, profiles[k - 1].0, profiles[k - 1].1);
      }
      if reverter.None? {
        Revert(server, reverters);
        return false, k;
      }
      StepTaken(s, server.no, cs, k);
      reverters := reverters + [reverter.value];
      k := k + 1;
    }
    assert cs[..|cs|] == cs;
    return true, 0;
  }

  lemma UndosPrefix(s: Store, cs: seq<Change>, k: nat)
    requires k <= |cs|
    ensures Undos(s, cs)[..k] == Undos(s, cs[..k])
  {
    forall i | 0 <= i < k ensures Undos(s, cs)[i] == Undos(s, cs[..k])[i] {
      assert cs[..k][..i] == cs[..i];
    }
  }

  lemma AcceptedStep(s: Store, no: Refusals, cs: seq<Change>, k: nat)
    requires k < |cs| && Accepted(s, no, cs[..k]) && !no(Wanted(After(s, cs[..k]), cs[k]))
    ensures Accepted(s, no, cs[..k + 1])
  {
    var more := cs[..k + 1];
    forall i | 0 <= i < |more| ensures !no(Wanted(After(s, more[..i]), more[i])) {
      assert more[..i] == cs[..k][..i];
      assert i < k ==> more[i] == cs[..k][i];
      assert i == k ==> more[..i] == cs[..k];
    }
  }

  lemma StepTaken(s: Store, no: Refusals, cs: seq<Change>, k: nat)
    requires k < |cs| && Accepted(s, no, cs[..k]) && !no(Wanted(After(s, cs[..k]), cs[k]))
    ensures After(s, cs[..k + 1]) == Written(After(s, cs[..k]), cs[k])
    ensures Undos(s, cs[..k + 1]) == Undos(s, cs[..k]) + [Undo(After(s, cs[..k]), cs[k])]
    ensures Accepted(s, no, cs[..k + 1])
  {
    AcceptedStep(s, no, cs, k);
    UndosPrefix(s, cs, k);
    UndosPrefix(s, cs, k + 1);
    assert cs[..k + 1][..k] == cs[..k];
    var us := Undos(s, cs);
    assert us[..k + 1] == us[..k] + [us[k]];
  }

  // ----- What the reverters restore -------------------------------------------------------------------------

  /** What a step writes to. */
  datatype Resource = TheConfig | TheProfile(name: string)

  datatype Value = ConfigValue(config: Config) | ProfileValue(body: Body)

  function Key(c: Change): Resource { if c.SetConfig? then TheConfig else TheProfile(c.name) }

  function New(c: Change): Value { if c.SetConfig? then ConfigValue(c.config) else ProfileValue(c.body) }

  function At(s: Store, r: Resource): Option<Value> {
    match r
    case TheConfig => Some(ConfigValue(s.config))
    case TheProfile(n) => if n in s.profiles then Some(ProfileValue(s.profiles[n])) else None
  }

  lemma SameStore(s: Store, t: Store)
    requires forall r :: At(s, r) == At(t, r)
    ensures s == t
  {
    assert At(s, TheConfig) == At(t, TheConfig);
    forall n ensures (n in s.profiles <==> n in t.profiles) && (n in s.profiles ==> s.profiles[n] == t.profiles[n]) {
      assert At(s, TheProfile(n)) == At(t, TheProfile(n));
    }
    assert s.profiles == t.profiles;
  }

  ghost predicate NoneRefused(no: Refusals, rs: seq<Request>) { forall k :: 0 <= k < |rs| ==> !no(rs[k]) }

  ghost predicate AllDistinct(cs: seq<Change>) { forall i, j :: 0 <= i < j < |cs| ==> Key(cs[i]) != Key(cs[j]) }

  /** Steps i and j are the last two that write to the same thing. */
  ghost predicate LastTwo(cs: seq<Change>, i: nat, j: nat) {
    && i < j < |cs| && Key(cs[i]) == Key(cs[j])
    && (forall k :: i < k < |cs| && k != j ==> Key(cs[k]) != Key(cs[j]))
  }

  /** Whatever is written more than once already had the value of its last write but one. */
  ghost predicate Harmless(s: Store, cs: seq<Change>) {
    forall i: nat, j: nat :: LastTwo(cs, i, j) ==> At(s, Key(cs[j])) == Some(New(cs[i]))
  }

  /** What the first k reverters leave: for each thing what it had before the latest of the first k
      steps that wrote to it. */
  function Left(s: Store, cs: seq<Change>, k: nat, r: Resource): Option<Value>
    requires k <= |cs|
  {
    if k == 0 then At(After(s, cs), r)
    else if Key(cs[k - 1]) == r then At(After(s, cs[..k - 1]), r)
    else Left(s, cs, k - 1, r)
  }

  lemma WrittenAt(s: Store, c: Change, r: Resource)
    ensures At(Written(s, c), r) == if r == Key(c) then Some(New(c)) else At(s, r)
  {}

  /** A step's reverter succeeds if there is something to change or to delete. */
  lemma UndoAt(s: Store, c: Change, t: Store, no: Refusals)
    ensures Send(t, no, Undo(s, c)).Some? <==> !no(Undo(s, c)) && At(t, Key(c)).Some?
    ensures Send(t, no, Undo(s, c)).Some? ==>
              forall r :: At(Send(t, no, Undo(s, c)).value, r) == if r == Key(c) then At(s, r) else At(t, r)
  {}

  lemma {:induction false} ReplayLeaves(s: Store, no: Refusals, cs: seq<Change>, k: nat)
    requires k <= |cs| && Replay(After(s, cs), no, Undos(s, cs)[..k]).1
    ensures forall r :: At(Replay(After(s, cs), no, Undos(s, cs)[..k]).0, r) == Left(s, cs, k, r)
  {
    if 0 < k {
      var us := Undos(s, cs);
      assert us[..k][..k - 1] == us[..k - 1];
      ReplayLeaves(s, no, cs, k - 1);
      UndoAt(After(s, cs[..k - 1]), cs[k - 1], Replay(After(s, cs), no, us[..k - 1]).0, no);
    }
  }

  /** What is there stays there. */
  lemma {:induction false} AfterKeeps(s: Store, cs: seq<Change>, r: Resource)
    ensures At(s, r).Some? || (exists k :: 0 <= k < |cs| && Key(cs[k]) == r) ==> At(After(s, cs), r).Some?
    ensures (forall k :: 0 <= k < |cs| ==> Key(cs[k]) != r) ==> At(After(s, cs), r) == At(s, r)
  {
    if cs != [] {
      var init, c := cs[..|cs|-1], cs[|cs|-1];
      AfterKeeps(s, init, r);
      WrittenAt(After(s, init), c, r);
      if k :| 0 <= k < |cs| && Key(cs[k]) == r {
        assert k < |init| ==> Key(init[k]) == r;
      }
    }
  }

  /** After its last write a thing has the value written. */
  lemma {:induction false} AfterLastWrite(s: Store, cs: seq<Change>, i: nat)
    requires i < |cs| && forall k :: i < k < |cs| ==> Key(cs[k]) != Key(cs[i])
    ensures At(After(s, cs), Key(cs[i])) == Some(New(cs[i]))
    decreases |cs|
  {
    var init := cs[..|cs|-1];
    WrittenAt(After(s, init), cs[|cs|-1], Key(cs[i]));
    if i < |init| {
      AfterLastWrite(s, init, i);
    }
  }

  /** Left goes by the latest write. */
  lemma {:induction false} LeftByLatest(s: Store, cs: seq<Change>, k: nat, j: nat)
    requires j < k <= |cs| && forall m :: j < m < k ==> Key(cs[m]) != Key(cs[j])
    ensures Left(s, cs, k, Key(cs[j])) == At(After(s, cs[..j]), Key(cs[j]))
  {
    if j < k - 1 {
      LeftByLatest(s, cs, k - 1, j);
    }
  }

  lemma {:induction false} LeftUnwritten(s: Store, cs: seq<Change>, k: nat, r: Resource)
    requires k <= |cs| && forall m :: 0 <= m < k ==> Key(cs[m]) != r
    ensures Left(s, cs, k, r) == At(After(s, cs), r)
  {
    if 0 < k {
      LeftUnwritten(s, cs, k - 1, r);
    }
  }

  /** The latest of the first k steps that writes to r, if any. */
  lemma {:induction false} Latest(cs: seq<Change>, k: nat, r: Resource) returns (j: int)
    requires k <= |cs|
    ensures -1 <= j < k
    ensures 0 <= j ==> Key(cs[j]) == r
    ensures forall m :: j < m < k ==> Key(cs[m]) != r
  {
    j := k - 1;
    if 0 < k && Key(cs[k - 1]) != r {
      j := Latest(cs, k - 1, r);
    }
  }

  /** If the reverters all succeed, a thing written twice ends with the value of the last write
      but one. */
  lemma LeftAfterTwo(s: Store, cs: seq<Change>, i: nat, j: nat)
    requires LastTwo(cs, i, j)
    ensures Left(s, cs, |cs|, Key(cs[j])) == Some(New(cs[i]))
  {
    LeftByLatest(s, cs, |cs|, j);
    AfterLastWrite(s, cs[..j], i);
  }

  lemma LeftWhenHarmless(s: Store, cs: seq<Change>, r: Resource)
    requires Harmless(s, cs)
    ensures Left(s, cs, |cs|, r) == At(s, r)
  {
    var j := Latest(cs, |cs|, r);
    if j == -1 {
      LeftUnwritten(s, cs, |cs|, r);
      AfterKeeps(s, cs, r);
    } else {
      var i := Latest(cs, j, r);
      if i == -1 {
        LeftByLatest(s, cs, |cs|, j);
        AfterKeeps(s, cs[..j], r);
      } else {
        assert LastTwo(cs, i, j);
        LeftAfterTwo(s, cs, i, j);
      }
    }
  }

  /** When reverter k has its turn, there is something for it to act on. */
  lemma SomethingLeft(s: Store, cs: seq<Change>, k: nat)
    requires k < |cs|
    requires (exists m :: 0 <= m < k && Key(cs[m]) == Key(cs[k])) ==> At(s, Key(cs[k])).Some?
    ensures Left(s, cs, k, Key(cs[k])).Some?
  {
    var r := Key(cs[k]);
    var j := Latest(cs, k, r);
    if j == -1 {
      LeftUnwritten(s, cs, k, r);
      AfterKeeps(s, cs, r);
    } else {
      LeftByLatest(s, cs, k, j);
      AfterKeeps(s, cs[..j], r);
    }
  }

  /** A thing written more than once is there from the start. */
  ghost predicate RepeatsExist(s: Store, cs: seq<Change>) {
    forall i, j :: 0 <= i < j < |cs| && Key(cs[i]) == Key(cs[j]) ==> At(s, Key(cs[j])).Some?
  }

  lemma {:induction false} AllSucceed(s: Store, no: Refusals, cs: seq<Change>, k: nat)
    requires k <= |cs| && RepeatsExist(s, cs) && NoneRefused(no, Undos(s, cs))
    ensures Replay(After(s, cs), no, Undos(s, cs)[..k]).1
  {
    if 0 < k {
      var us := Undos(s, cs);
      assert us[..k][..k - 1] == us[..k - 1];
      AllSucceed(s, no, cs, k - 1);
      ReplayLeaves(s, no, cs, k - 1);
      SomethingLeft(s, cs, k - 1);
      UndoAt(After(s, cs[..k - 1]), cs[k - 1], Replay(After(s, cs), no, us[..k - 1]).0, no);
    }
  }

  lemma {:induction false} NothingRefused(s: Store, no: Refusals, rs: seq<Request>)
    requires Replay(s, no, rs).1
    ensures NoneRefused(no, rs)
  {
    if rs != [] {
      NothingRefused(s, no, rs[..|rs|-1]);
      forall k | 0 <= k < |rs| ensures !no(rs[k]) {
        assert k < |rs| - 1 ==> rs[k] == rs[..|rs|-1][k];
      }
    }
  }

  lemma HarmlessRepeatsExist(s: Store, cs: seq<Change>)
    requires Harmless(s, cs)
    ensures RepeatsExist(s, cs)
  {
    forall i, j | 0 <= i < j < |cs| && Key(cs[i]) == Key(cs[j]) ensures At(s, Key(cs[j])).Some? {
      var j' := Latest(cs, |cs|, Key(cs[j]));
      var i' := Latest(cs, j', Key(cs[j]));
      assert LastTwo(cs, i', j');
    }
  }

  lemma ForwardRestores(s: Store, no: Refusals, cs: seq<Change>)
    requires NoneRefused(no, Undos(s, cs)) && Harmless(s, cs)
    ensures Replay(After(s, cs), no, Undos(s, cs)) == (s, true)
  {
    var us := Undos(s, cs);
    assert us[..|cs|] == us;
    HarmlessRepeatsExist(s, cs);
    AllSucceed(s, no, cs, |cs|);
    ReplayLeaves(s, no, cs, |cs|);
    var t := Replay(After(s, cs), no, us).0;
    forall r ensures At(s, r) == At(t, r) {
      LeftWhenHarmless(s, cs, r);
    }
    SameStore(s, t);
  }

  lemma RestoredIsHarmless(s: Store, no: Refusals, cs: seq<Change>)
    requires Replay(After(s, cs), no, Undos(s, cs)) == (s, true)
    ensures Harmless(s, cs)
  {
    var us := Undos(s, cs);
    assert us[..|cs|] == us;
    ReplayLeaves(s, no, cs, |cs|);
    forall i: nat, j: nat | LastTwo(cs, i, j) ensures At(s, Key(cs[j])) == Some(New(cs[i])) {
      LeftAfterTwo(s, cs, i, j);
    }
  }

  /** Exactly when do the reverters, run in the order of the steps, all succeed and restore the
      store? */
  lemma ForwardRestoresExactly(s: Store, no: Refusals, cs: seq<Change>)
    ensures Replay(After(s, cs), no, Undos(s, cs)) == (s, true) <==>
            NoneRefused(no, Undos(s, cs)) && Harmless(s, cs)
  {
    var us := Undos(s, cs);
    if NoneRefused(no, us) && Harmless(s, cs) {
      ForwardRestores(s, no, cs);
    }
    if Replay(After(s, cs), no, us) == (s, true) {
      NothingRefused(After(s, cs), no, us);
      RestoredIsHarmless(s, no, cs);
    }
  }

  lemma DistinctIsHarmless(s: Store, cs: seq<Change>)
    requires AllDistinct(cs)
    ensures Harmless(s, cs)
  {}

  lemma FailedRestores(s: Store, no: Refusals, cs: seq<Change>, k: nat, t: Store)
    requires FailedAt(s, no, cs, k, t)
    ensures AllDistinct(cs) && NoneRefused(no, Undos(s, cs)) ==> t == s
  {
    if AllDistinct(cs) && NoneRefused(no, Undos(s, cs)) {
      UndosPrefix(s, cs, k);
      DistinctIsHarmless(s, cs[..k]);
      ForwardRestores(s, no, cs[..k]);
    }
  }

  lemma AfterIsAsked(s: Store, config: Config, profiles: seq<(string, Body)>)
    ensures Asked(s, config, profiles, After(s, Changes(config, profiles)))
  {
    var cs := Changes(config, profiles);
    var t := After(s, cs);
    assert cs[0] == SetConfig(config);
    assert forall k :: 1 <= k < |cs| ==> Key(cs[k]) == TheProfile(profiles[k - 1].0);
    AfterLastWrite(s, cs, 0);
    forall i | 0 <= i < |profiles| && (forall j :: i < j < |profiles| ==> profiles[j].0 != profiles[i].0)
      ensures profiles[i].0 in t.profiles && t.profiles[profiles[i].0] == profiles[i].1
    {
      AfterLastWrite(s, cs, i + 1);
    }
    forall n | forall i :: 0 <= i < |profiles| ==> profiles[i].0 != n
      ensures (n in t.profiles <==> n in s.profiles) && (n in s.profiles ==> t.profiles[n] == s.profiles[n])
    {
      AfterKeeps(s, cs, TheProfile(n));
    }
  }

  // ----- For every store ---------------------------------------------------------------------------------

  function Longer(b: Body): Body { b.(description := b.description + "x") }

  ghost predicate RestoresEveryStore(cs: seq<Change>) {
    forall s, no :: NoneRefused(no, Undos(s, cs)) ==> Replay(After(s, cs), no, Undos(s, cs)) == (s, true)
  }

  /** A store in which every profile exists and thing r has another value than v. */
  function Unlike(cs: seq<Change>, v: Value): Store {
    var config: Config := if v.ConfigValue? && v.config == map[] then map["" := ""] else map[];
    var body := if v.ProfileValue? then Longer(v.body) else Body(map[], "", map[]);
    Store(config, map k | 0 <= k < |cs| && cs[k].SetProfile? :: cs[k].name := body)
  }

  lemma UnlikeAt(cs: seq<Change>, v: Value, k: nat)
    requires k < |cs|
    ensures At(Unlike(cs, v), Key(cs[k])).Some? && At(Unlike(cs, v), Key(cs[k])) != Some(v)
  {
    if cs[k].SetConfig? {
      assert "" in map["" := ""];
    } else if v.ProfileValue? {
      assert |Longer(v.body).description| != |v.body.description|;
    }
  }

  /** In the order of the steps, the reverters restore every store if and only if no two steps
      write to the same thing. */
  lemma ForwardOrderIsSafeExactly(cs: seq<Change>)
    ensures RestoresEveryStore(cs) <==> AllDistinct(cs)
  {
    if AllDistinct(cs) {
      forall s, no | NoneRefused(no, Undos(s, cs)) ensures Replay(After(s, cs), no, Undos(s, cs)) == (s, true) {
        DistinctIsHarmless(s, cs);
        ForwardRestores(s, no, cs);
      }
    } else {
      var s, _ := ForwardOrderFails(cs);
      assert NoneRefused(_ => false, Undos(s, cs));
    }
  }

  /** Otherwise there is a store on which all reverters succeed, and the result is another store. */
  lemma ForwardOrderFails(cs: seq<Change>) returns (s: Store, t: Store)
    requires !AllDistinct(cs)
    ensures Replay(After(s, cs), _ => false, Undos(s, cs)) == (t, true) && t != s
  {
    var no: Refusals := _ => false;
    var a, b :| 0 <= a < b < |cs| && Key(cs[a]) == Key(cs[b]);
    var j := Latest(cs, |cs|, Key(cs[b]));
    var i := Latest(cs, j, Key(cs[b]));
    assert LastTwo(cs, i, j);
    s := Unlike(cs, New(cs[i]));
    forall k | 0 <= k < |cs| ensures At(s, Key(cs[k])).Some? {
      UnlikeAt(cs, New(cs[i]), k);
    }
    UnlikeAt(cs, New(cs[i]), j);
    AllSucceed(s, no, cs, |cs|);
    assert Undos(s, cs)[..|cs|] == Undos(s, cs);
    ForwardRestoresExactly(s, no, cs);
    t := Replay(After(s, cs), no, Undos(s, cs)).0;
  }

  /** Profiles of distinct names make distinct steps. */
  lemma DistinctNames(config: Config, profiles: seq<(string, Body)>)
    ensures AllDistinct(Changes(config, profiles)) <==>
            forall i, j :: 0 <= i < j < |profiles| ==> profiles[i].0 != profiles[j].0
  {
    var cs := Changes(config, profiles);
    assert forall i :: 0 <= i < |profiles| ==> Key(cs[i + 1]) == TheProfile(profiles[i].0);
    if forall i, j :: 0 <= i < j < |profiles| ==> profiles[i].0 != profiles[j].0 {
      forall i, j | 0 <= i < j < |cs| ensures Key(cs[i]) != Key(cs[j]) {
        assert Key(cs[j]) == TheProfile(profiles[j - 1].0);
        if 0 < i {
          assert Key(cs[i]) == TheProfile(profiles[i - 1].0);
        }
      }
    }
    if i, j :| 0 <= i < j < |profiles| && profiles[i].0 == profiles[j].0 {
      assert Key(cs[i + 1]) == Key(cs[j + 1]);
    }
  }

  // ----- The other order -----------------------------------------------------------------------------------

  function Reversed(rs: seq<Request>): (r: seq<Request>) {
    if rs == [] then [] else [rs[|rs|-1]] + Reversed(rs[..|rs|-1])
  }

  lemma {:induction false} ReplayConcat(s: Store, no: Refusals, r: Request, rs: seq<Request>)
    requires Send(s, no, r).Some?
    ensures Replay(s, no, [r] + rs) == Replay(Send(s, no, r).value, no, rs)
    decreases |rs|
  {
    var all := [r] + rs;
    if rs == [] {
      assert all[..0] == [];
    } else {
      assert all[..|all|-1] == [r] + rs[..|rs|-1];
      ReplayConcat(s, no, r, rs[..|rs|-1]);
    }
  }

  /** Run from the last to the first, the reverters restore every store, repeated names or not. */
  lemma {:induction false} BackwardRestores(s: Store, no: Refusals, cs: seq<Change>)
    requires NoneRefused(no, Undos(s, cs))
    ensures Replay(After(s, cs), no, Reversed(Undos(s, cs))) == (s, true)
    decreases |cs|
  {
    if cs != [] {
      var n := |cs| - 1;
      var init, us := cs[..n], Undos(s, cs);
      forall k | 0 <= k < n ensures Undos(s, init)[k] == us[k] {
        assert init[..k] == cs[..k];
      }
      assert us[..n] == Undos(s, init);
      var before, t := After(s, init), After(s, cs);
      WrittenAt(before, cs[n], Key(cs[n]));
      UndoAt(before, cs[n], t, no);
      forall r ensures At(Send(t, no, us[n]).value, r) == At(before, r) {
        WrittenAt(before, cs[n], r);
      }
      SameStore(Send(t, no, us[n]).value, before);
      ReplayConcat(t, no, us[n], Reversed(us[..n]));
      BackwardRestores(s, no, init);
    }
  }
}
