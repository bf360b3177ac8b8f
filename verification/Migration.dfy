// The migration protocol (lxd/migrate.go) as a state machine: the source's Do, its dump
// process with the action script, the sink's Do with its restore goroutine, the control
// channel between them, and the client that moves the container.
//
// Every step is one stretch of code between two points where another party can interfere.  A
// step carries its nondeterministic outcome: whether a call succeeds, and whether a message
// that is sent still reaches the queue.
module Migration {
  import opened GoStrings
  import opened Machines

  // ----- State ---------------------------------------------------------------------------------

  datatype FsType = Rsync | Btrfs | Zfs

  datatype Message = Header(fs: FsType, criu: bool) | Control(success: bool)

  /** Where the source's Do stands. */
  datatype SourcePc =
    | WaitConnected      // for all websockets
    | SendHeader         // storage start, id map, header
    | RecvHeader         // for the sink's reply
    | SendWhileRunning   // the bulk of the file system
    | WaitDump           // for the action script or the end of the dump
    | DumpNow            // a dump without an action script
    | SendImages         // checkpoint images, on their own websocket
    | SendAfterDump      // the rest of the file system
    | RecvResult         // for the sink's verdict
    | AwaitDump(verdict: bool)  // verdict handed to the action script, waiting for the dump
    | SourceDone(ok: bool)

  /** The dump process: Blocked while its action script waits for the verdict. */
  datatype Dump = NotDumped | Dumping | Blocked | DumpEnded(ok: bool)

  datatype Copy = Running | Frozen | Stopped

  /** Where the sink's Do stands. */
  datatype SinkPc =
    | ConnectControl | ConnectFs | ConnectCriu
    | SinkRecvHeader | SinkSendHeader
    | Select             // for the restore goroutine or the source
    | SinkDone(ok: bool)

  /** The sink's restore goroutine; Report blocks until the select takes its result. */
  datatype Restorer = NoRestorer | RecvImages | WaitFs | Restore | Report(ok: bool) | Reported

  datatype Transfer = NoTransfer | Transferring | Transferred(ok: bool)

  /** scriptBreaks: the action script may fail on its own, whatever the verdict. */
  datatype Config = Config(live: bool, actionScript: bool, scriptBreaks: bool, sourceFs: FsType, sinkFs: FsType)

  /** What there is of the source's container.  Its memory and files advance together. */
  datatype Data = Data(
    version: nat,           // how far the container has run
    taken: nat,             // the version when it was stopped for the dump
    bulk: bool,             // the first pass over the files was written in full
    images: Option<nat>,    // version of the checkpoint images, written in full
    files: Option<nat>)     // version of the files after the last pass, written in full

  datatype Source = Source(
    pc: SourcePc,
    fs: FsType,             // driver in use
    criu: bool,             // the reply named a checkpoint transport
    dump: Dump,
    ready: bool,            // the action script called in: dumpDone was fed
    broke: bool,            // the action script failed without a failure verdict
    verdict: Option<bool>,  // the sink's, as received; if live, restoreSuccess was fed with it
    copy: Copy,
    sentImages: bool,       // the dump is over for Do, images are sent
    data: Data,
    deleted: bool)          // by the client, at the end of a move

  datatype Sink = Sink(
    pc: SinkPc,
    connected: bool,        // every websocket was opened
    fs: FsType,
    transfer: Transfer,
    restorer: Restorer,
    memory: Option<nat>,    // version of the images received in full
    files: Option<nat>,     // version of the files received in full
    restored: bool,         // CRIU restored the container, which runs from then on, deleted or not
    listening: bool,        // the control channel goroutine has not read its one message
    deleted: bool)          // container.Delete() was called

  datatype State = State(src: Source, snk: Sink, toSink: seq<Message>, toSource: seq<Message>, down: bool)

  function Init(c: Config): State {
    State(Source(WaitConnected, c.sourceFs, false, NotDumped, false, false, None, if c.live then Running else Stopped,
                 false, Data(0, 0, false, None, None), false),
          Sink(ConnectControl, false, c.sinkFs, NoTransfer, NoRestorer, None, None, false, false, false),
          [], [], false)
  }

  /** The sink's copy has all that the source had to write, which was written in full, and was
      restored if live. */
  predicate Complete(c: Config, s: State) {
    && !s.snk.deleted
    && s.src.data.bulk && s.src.data.files.Some? && s.snk.files == s.src.data.files
    && (c.live ==> s.snk.restored && s.src.data.images.Some? && s.snk.memory == s.src.data.images)
  }

  /** And all of it is what the source's container last was. */
  predicate UpToDate(c: Config, s: State) {
    && Complete(c, s)
    && s.snk.files == Some(s.src.data.version)
    && (c.live ==> s.snk.memory == Some(s.src.data.version))
  }

  predicate BothRunning(s: State) { s.src.copy == Running && !s.src.deleted && s.snk.restored }

  // ----- Steps -----------------------------------------------------------------------------------

  datatype Step =
    // the network
    | Break
    // the source
    | SrcConnected
    | SrcGiveUp                       // storage start or id map fails: nothing is sent
    | SrcHeader(sent: bool, fsOk: bool, delivered: bool)
    | SrcReply
    | SrcReplyFails(delivered: bool)
    | SrcBulk(ok: bool, delivered: bool)
    | SrcDumpFailed(delivered: bool)
    | SrcDumpReady
    | SrcDumpNow(ok: bool, delivered: bool)
    | SrcImages(ok: bool, delivered: bool)
    | SrcRest(ok: bool, delivered: bool)
    | SrcVerdict
    | SrcVerdictLost
    | SrcDumpReturns
    // what the source's storage driver and rsync have written in full
    | WritesBulk
    | WritesImages
    | WritesRest
    // the source's container
    | SrcRuns
    // the dump process
    | DumpFails
    | DumpBlocks
    | ScriptPasses
    | ScriptFails
    // the sink
    | SnkControl(ok: bool)
    | SnkFs(ok: bool, delivered: bool)
    | SnkCriu(ok: bool, delivered: bool)
    | SnkHeader
    | SnkHeaderFails(delivered: bool)
    | SnkReply(ok: bool, delivered: bool)
    | SnkResult(delivered: bool)
    | SnkHearsFailure
    | SnkHearsSuccess(templateOk: bool)
    | SnkHearsNothing
    // its restore goroutine
    | FsEnds(ok: bool)
    | ImagesEnd(ok: bool)
    | FsAwaited
    | RestoreEnds(ok: bool)
    // the client
    | ClientDeletesSource

  /** Sending, and what may become of it. */
  function Sent(q: seq<Message>, m: Message, delivered: bool): seq<Message> {
    if delivered then q + [m] else q
  }

  predicate HeadIs(q: seq<Message>, header: bool) {
    q != [] && q[0].Header? == header
  }

  predicate SourceEnabled(c: Config, s: State, step: Step) {
    match step
    case SrcConnected => s.src.pc == WaitConnected && s.snk.connected
    case SrcGiveUp => s.src.pc == SendHeader
    case SrcHeader(_, _, _) => s.src.pc == SendHeader
    case SrcReply => s.src.pc == RecvHeader && HeadIs(s.toSource, true)
    case SrcReplyFails(_) => s.src.pc == RecvHeader && (s.down || HeadIs(s.toSource, false))
    case SrcBulk(ok, _) => s.src.pc == SendWhileRunning && (ok ==> s.src.data.bulk)
    case SrcDumpFailed(_) => s.src.pc == WaitDump && s.src.dump == DumpEnded(false)
    case SrcDumpReady => s.src.pc == WaitDump && s.src.ready
    case SrcDumpNow(_, _) => s.src.pc == DumpNow
    case SrcImages(ok, _) => s.src.pc == SendImages && (ok ==> s.src.data.images.Some?)
    case SrcRest(ok, _) => s.src.pc == SendAfterDump && (ok ==> s.src.data.files.Some?)
    case SrcVerdict => s.src.pc == RecvResult && HeadIs(s.toSource, false)
    case SrcVerdictLost => s.src.pc == RecvResult && s.down
    case SrcDumpReturns => s.src.pc.AwaitDump? && s.src.dump.DumpEnded?
    case DumpFails => s.src.dump == Dumping
    case DumpBlocks => s.src.dump == Dumping
    case ScriptPasses => s.src.dump == Blocked && s.src.verdict == Some(true)
    case ScriptFails => s.src.dump == Blocked && (s.src.verdict == Some(false) || c.scriptBreaks)
    case WritesBulk => s.src.pc == SendWhileRunning && !s.src.data.bulk
    case WritesImages => s.src.pc == SendImages && s.src.data.images.None?
    case WritesRest => s.src.pc == SendAfterDump && s.src.data.files.None?
    case SrcRuns => s.src.copy == Running && !s.src.deleted
    case _ => false
  }

  predicate SinkEnabled(c: Config, s: State, step: Step) {
    match step
    case SnkControl(_) => s.snk.pc == ConnectControl
    case SnkFs(_, _) => s.snk.pc == ConnectFs
    case SnkCriu(_, _) => s.snk.pc == ConnectCriu
    case SnkHeader => s.snk.pc == SinkRecvHeader && HeadIs(s.toSink, true)
    case SnkHeaderFails(_) => s.snk.pc == SinkRecvHeader && (s.down || HeadIs(s.toSink, false))
    case SnkReply(_, _) => s.snk.pc == SinkSendHeader
    case SnkResult(_) => s.snk.pc == Select && s.snk.restorer.Report?
    case SnkHearsFailure => s.snk.pc == Select && s.snk.listening && HeadIs(s.toSink, false) && !s.toSink[0].success
    case SnkHearsSuccess(_) => s.snk.pc == Select && s.snk.listening && HeadIs(s.toSink, false) && s.toSink[0].success
    case SnkHearsNothing => s.snk.pc == Select && s.snk.listening && s.down
    case FsEnds(ok) => s.snk.transfer == Transferring && (ok ==> s.src.data.files.Some?)
    case ImagesEnd(ok) => s.snk.restorer == RecvImages && (ok ==> s.src.data.images.Some?)
    case FsAwaited => s.snk.restorer == WaitFs && s.snk.transfer.Transferred?
    case RestoreEnds(_) => s.snk.restorer == Restore
    case ClientDeletesSource => s.snk.pc == SinkDone(true)
    case _ => false
  }

  predicate Enabled(c: Config, s: State, step: Step) {
    step == Break || SourceEnabled(c, s, step) || SinkEnabled(c, s, step)
  }

  /** Every failure path of the source: report, close the control channel, return. */
  function SourceAborts(s: State, delivered: bool): State {
    s.(src := s.src.(pc := SourceDone(false)), toSink := Sent(s.toSink, Control(false), delivered), down := true)
  }

  /** The failure paths of the sink that report: delete, report, close, return. */
  function SinkAborts(s: State, delivered: bool): State {
    SinkQuits(s.(toSource := Sent(s.toSource, Control(false), delivered)))
  }

  /** The failure paths that do not report. */
  function SinkQuits(s: State): State {
    s.(snk := s.snk.(pc := SinkDone(false), deleted := true), down := true)
  }

  function Taken(d: Data): Data { d.(taken := d.version) }

  function Writes(s: State, d: Data): State { s.(src := s.src.(data := d)) }

  function DoSource(c: Config, s: State, step: Step): State
    requires SourceEnabled(c, s, step)
  {
    match step
    case SrcConnected => s.(src := s.src.(pc := SendHeader))
    case SrcGiveUp => s.(src := s.src.(pc := SourceDone(false)))
    case SrcHeader(sent, fsOk, delivered) =>
      if !sent then SourceAborts(s, delivered)
      else
        var s1 := s.(toSink := s.toSink + [Header(c.sourceFs, c.live)]);
        if !fsOk then SourceAborts(s1, delivered) else s1.(src := s.src.(pc := RecvHeader))
    case SrcReply =>
      s.(toSource := s.toSource[1..],
         src := s.src.(pc := SendWhileRunning, criu := s.toSource[0].criu,
                       fs := if s.toSource[0].fs != c.sourceFs then Rsync else c.sourceFs))
    case SrcReplyFails(delivered) => SourceAborts(s, delivered)
    case SrcBulk(ok, delivered) =>
      if !ok || (c.live && !s.src.criu) then SourceAborts(s, delivered)
      else if !c.live then s.(src := s.src.(pc := RecvResult))
      else if c.actionScript then s.(src := s.src.(pc := WaitDump, dump := Dumping))
      else s.(src := s.src.(pc := DumpNow))
    case SrcDumpFailed(delivered) => SourceAborts(s, delivered)
    case SrcDumpReady => s.(src := s.src.(pc := SendImages, sentImages := true))
    case SrcDumpNow(ok, delivered) =>
      if !ok then SourceAborts(s, delivered)
      else s.(src := s.src.(pc := SendImages, sentImages := true, copy := Stopped, data := Taken(s.src.data)))
    case SrcImages(ok, delivered) =>
      if !ok then SourceAborts(s, delivered) else s.(src := s.src.(pc := SendAfterDump))
    case SrcRest(ok, delivered) =>
      if !ok then SourceAborts(s, delivered) else s.(src := s.src.(pc := RecvResult))
    case SrcVerdict =>
      var success := s.toSource[0].success;
      var s1 := s.(toSource := s.toSource[1..]);
      if c.live then s1.(src := s.src.(pc := AwaitDump(success), verdict := Some(success)))
      else s1.(src := s.src.(pc := SourceDone(success), verdict := Some(success)))
    case SrcVerdictLost => s.(src := s.src.(pc := SourceDone(false)), down := true)
    case SrcDumpReturns => s.(src := s.src.(pc := SourceDone(s.src.pc.verdict)))
    case DumpFails => s.(src := s.src.(dump := DumpEnded(false)))
    case DumpBlocks => s.(src := s.src.(dump := Blocked, ready := true, copy := Frozen, data := Taken(s.src.data)))
    case ScriptPasses => s.(src := s.src.(dump := DumpEnded(true), copy := Stopped))
    case ScriptFails =>
      s.(src := s.src.(dump := DumpEnded(false), copy := Running, broke := s.src.verdict != Some(false)))
    case WritesBulk =>
      Writes(s, s.src.data.(bulk := true, files := if c.live then None else Some(s.src.data.version)))
    case WritesImages => Writes(s, s.src.data.(images := Some(s.src.data.taken)))
    case WritesRest => Writes(s, s.src.data.(files := Some(s.src.data.version)))
    case SrcRuns => Writes(s, s.src.data.(version := s.src.data.version + 1))
  }

  function DoSink(c: Config, s: State, step: Step): State
    requires SinkEnabled(c, s, step)
  {
    match step
    case SnkControl(ok) =>
      if !ok then SinkQuits(s).(down := s.down) else s.(snk := s.snk.(pc := ConnectFs))
    case SnkFs(ok, delivered) =>
      if !ok then SinkAborts(s, delivered)
      else s.(snk := s.snk.(pc := if c.live then ConnectCriu else SinkRecvHeader, connected := !c.live))
    case SnkCriu(ok, delivered) =>
      if !ok then SinkAborts(s, delivered) else s.(snk := s.snk.(pc := SinkRecvHeader, connected := true))
    case SnkHeader =>
      s.(toSink := s.toSink[1..],
         snk := s.snk.(pc := SinkSendHeader, fs := if s.toSink[0].fs != c.sinkFs then Rsync else c.sinkFs))
    case SnkHeaderFails(delivered) => SinkAborts(s, delivered)
    case SnkReply(ok, delivered) =>
      if !ok then SinkAborts(s, delivered)
      else s.(toSource := s.toSource + [Header(s.snk.fs, c.live)],
              snk := s.snk.(pc := Select, transfer := Transferring, listening := true,
                            restorer := if c.live then RecvImages else WaitFs))
    case SnkResult(delivered) =>
      var ok := s.snk.restorer.ok;
      var s1 := s.(snk := s.snk.(restorer := Reported), toSource := Sent(s.toSource, Control(ok), delivered));
      if ok then s1.(snk := s1.snk.(pc := SinkDone(true)), down := true) else SinkQuits(s1)
    case SnkHearsFailure => SinkQuits(s.(toSink := s.toSink[1..]))
    case SnkHearsSuccess(templateOk) =>
      var s1 := s.(toSink := s.toSink[1..], snk := s.snk.(listening := false));
      if templateOk then s1 else SinkQuits(s1)
    case SnkHearsNothing => SinkQuits(s)
    case FsEnds(ok) =>
      s.(snk := s.snk.(transfer := Transferred(ok), files := if ok then s.src.data.files else None))
    case ImagesEnd(ok) =>
      s.(snk := if ok then s.snk.(restorer := WaitFs,
              memory := s.src.data.images) else s.snk.(restorer := Report(false)))
    case FsAwaited =>
      var ok := s.snk.transfer.ok;
      s.(snk := s.snk.(restorer := if !ok then Report(false) else if c.live then Restore else Report(true)))
    case RestoreEnds(ok) =>
      s.(snk := s.snk.(restorer := Report(ok), restored := ok))
    case ClientDeletesSource => s.(src := s.src.(deleted := true))
  }

  function Do(c: Config, s: State, step: Step): State
    requires Enabled(c, s, step)
  {
    if step == Break then s.(down := true)
    else if SourceEnabled(c, s, step) then DoSource(c, s, step)
    else DoSink(c, s, step)
  }

  function Next(c: Config): (State, Step, State) -> bool {
    (s: State, step: Step, s': State) => Enabled(c, s, step) && s' == Do(c, s, step)
  }

  ghost predicate Reachable(c: Config, s: State) { Later(Next(c), Init(c), s) }

  // ----- What every step keeps ---------------------------------------------------------------------

  predicate BeforeReply(pc: SinkPc) {
    pc.ConnectControl? || pc.ConnectFs? || pc.ConnectCriu? || pc.SinkRecvHeader? || pc.SinkSendHeader?
  }

  predicate AfterReply(pc: SinkPc) { pc.Select? || pc == SinkDone(true) }

  predicate BeforeHeader(pc: SourcePc) { pc.WaitConnected? || pc.SendHeader? }

  predicate BeforeDump(pc: SourcePc) {
    BeforeHeader(pc) || pc.RecvHeader? || pc.SendWhileRunning? || pc.DumpNow?
  }

  predicate AfterDump(pc: SourcePc) { pc.SendImages? || pc.SendAfterDump? }

  predicate PastHeader(pc: SourcePc) {
    || pc.SendWhileRunning? || pc.WaitDump? || pc.DumpNow? || AfterDump(pc) || pc.RecvResult? || pc.AwaitDump?
    || pc == SourceDone(true)
  }

  /** Everything was written: the source waits for the verdict or has it. */
  predicate AllWritten(pc: SourcePc) { pc.RecvResult? || pc.AwaitDump? || pc == SourceDone(true) }

  /** The restore goroutine and its transfer. */
  predicate RestoreInv(c: Config, s: State) {
    && (BeforeReply(s.snk.pc) ==> s.snk.restorer.NoRestorer? && s.snk.transfer.NoTransfer?)
    && (!s.snk.restorer.Reported? && s.snk.restorer != Report(true) ==> !s.snk.restored)
    && (s.snk.restorer.Restore? || s.snk.restorer == Report(true) ==> s.snk.transfer == Transferred(true))
    && (s.snk.restorer == Report(true) && c.live ==> s.snk.restored)
    && (s.snk.restorer.Restore? || s.snk.restored ==> c.live)
    && (c.live && (s.snk.restorer.WaitFs? || s.snk.restorer.Restore? || s.snk.restored) ==> s.snk.memory.Some?)
  }

  /** What the sink received was written, and is what was written. */
  predicate ReceivedInv(s: State) {
    && (s.snk.transfer == Transferred(true) ==> s.snk.files.Some?)
    && (s.snk.files.Some? ==> s.snk.files == s.src.data.files)
    && (s.snk.memory.Some? ==> s.snk.memory == s.src.data.images)
  }

  /** The sink's result: success means a complete copy, an error means a deleted one. */
  predicate ResultInv(c: Config, s: State) {
    && (s.snk.pc == SinkDone(false) <==> s.snk.deleted)
    && (s.snk.pc == SinkDone(true) ==>
          s.snk.restorer.Reported? && s.snk.transfer == Transferred(true) && (c.live ==> s.snk.restored))
    && (s.snk.restorer.Reported? ==> s.snk.pc.SinkDone?)
    && (s.snk.pc.Select? ==> !s.snk.restorer.NoRestorer? && s.snk.listening)
    && (s.src.deleted ==> s.snk.pc == SinkDone(true))
  }

  /** The sink failed and will not restore any more, or never did. */
  predicate SinkFailed(s: State) {
    && s.snk.pc == SinkDone(false) && !s.snk.restored
    && (s.snk.restorer.NoRestorer? || s.snk.restorer.Reported?)
  }

  predicate VerdictFits(s: State, success: bool) {
    if success then s.snk.pc == SinkDone(true) else SinkFailed(s)
  }

  predicate UnderWayInv(s: State) {
    forall i :: 0 <= i < |s.toSource| && s.toSource[i].Control? ==> VerdictFits(s, s.toSource[i].success)
  }

  predicate HandedOverInv(c: Config, s: State) {
    && (s.src.verdict.Some? ==> VerdictFits(s, s.src.verdict.value) && (s.src.pc.AwaitDump? || s.src.pc.SourceDone?))
    && (s.src.pc.AwaitDump? ==> s.src.verdict == Some(s.src.pc.verdict))
    && (s.src.pc == SourceDone(true) ==> s.snk.pc == SinkDone(true))
    && (s.src.pc == SourceDone(true) ==> s.src.verdict == Some(true))
    && (s.src.pc == SourceDone(false) && s.src.verdict.Some? ==> s.src.verdict == Some(false))
  }

  /** The sink sends one header, first. */
  predicate ToSourceInv(c: Config, s: State) {
    && (forall i :: 0 <= i < |s.toSource| && s.toSource[i].Header? ==>
          i == 0 && (BeforeHeader(s.src.pc) || s.src.pc.RecvHeader? || s.src.pc == SourceDone(false))
          && !s.snk.restorer.NoRestorer? && s.toSource[i] == Header(s.snk.fs, c.live))
    && (BeforeReply(s.snk.pc) ==> s.toSource == [] && !PastHeader(s.src.pc))
  }

  predicate HeaderToSinkInv(c: Config, s: State) {
    forall i :: 0 <= i < |s.toSink| && s.toSink[i].Header? ==>
      i == 0 && !s.snk.pc.SinkSendHeader? && !AfterReply(s.snk.pc) && s.toSink[i].fs == c.sourceFs
  }

  /** The source sends one header, first, and after it only failures. */
  predicate ToSinkInv(c: Config, s: State) {
    && HeaderToSinkInv(c, s)
    && (forall i :: 0 <= i < |s.toSink| && s.toSink[i].Control? ==> !s.toSink[i].success)
    && (BeforeHeader(s.src.pc) ==> s.toSink == [])
    && (s.snk.pc.SinkSendHeader? || AfterReply(s.snk.pc) ==> !BeforeHeader(s.src.pc))
  }

  /** After the headers both sides use the same transport. */
  predicate FsInv(c: Config, s: State) {
    && (s.snk.pc.SinkSendHeader? || AfterReply(s.snk.pc) || !s.snk.restorer.NoRestorer? ==>
          s.snk.fs == if c.sourceFs != c.sinkFs then Rsync else c.sinkFs)
    && (PastHeader(s.src.pc) ==>
          s.src.fs == (if c.sourceFs != c.sinkFs then Rsync else c.sourceFs) && s.src.criu == c.live)
    && (AfterReply(s.snk.pc) || PastHeader(s.src.pc) ==> !s.snk.restorer.NoRestorer?)
  }

  /** Where the dump stands. */
  predicate DumpInv(c: Config, s: State) {
    var src := s.src;
    && (BeforeDump(src.pc) ==> src.dump.NotDumped?)
    && (src.dump != NotDumped ==> c.live && c.actionScript)
    && (src.pc.WaitDump? ==> src.dump != NotDumped)
    && (src.pc.DumpNow? ==> c.live && !c.actionScript)
    && (AfterDump(src.pc) || src.pc.AwaitDump? ==> c.live)
    && (c.live && (AfterDump(src.pc) || src.pc.RecvResult? || src.pc.AwaitDump?) ==> src.sentImages)
    && (BeforeDump(src.pc) || src.pc.WaitDump? ==> !src.sentImages)
    && (src.sentImages ==> c.live && (c.actionScript ==> src.ready))
    && (src.ready ==> src.dump.Blocked? || src.dump.DumpEnded?)
    && (src.dump.Blocked? || src.dump == DumpEnded(true) ==> src.ready)
    && (src.dump == DumpEnded(true) ==> src.verdict == Some(true))
    && (src.dump == DumpEnded(false) && src.ready ==> src.broke || src.verdict == Some(false))
    && (src.broke ==> c.scriptBreaks && src.dump == DumpEnded(false) && src.ready)
    && (c.live && src.verdict.Some? && src.pc.SourceDone? ==> src.dump.DumpEnded?)
  }

  /** The source's copy stops running when the dump is taken, and resumes when the script fails. */
  predicate CopyInv(c: Config, s: State) {
    && (!c.live ==> s.src.copy.Stopped?)
    && (c.live && s.src.dump.NotDumped? ==> if s.src.sentImages then s.src.copy.Stopped? else s.src.copy.Running?)
    && (s.src.dump.Dumping? || s.src.dump == DumpEnded(false) ==> s.src.copy.Running?)
    && (s.src.dump.Blocked? ==> s.src.copy.Frozen?)
    && (s.src.dump == DumpEnded(true) ==> s.src.copy.Stopped?)
  }

  /** What was written, and of which version. */
  predicate DataInv(c: Config, s: State) {
    var d := s.src.data;
    && d.taken <= d.version
    && (!c.live ==> d.version == 0)
    && (s.src.sentImages || s.src.ready ==> d.version == d.taken || s.src.copy.Running?)
    && (d.images.Some? ==> d.images.value == d.taken && s.src.sentImages)
    && (d.files.Some? ==> d.bulk && d.taken <= d.files.value <= d.version)
    && (d.files.Some? && c.live ==> d.images.Some? && (d.files.value == d.taken || s.src.broke))
    && (!c.live && d.bulk ==> d.files.Some?)
    && (s.src.pc.WaitDump? || s.src.pc.DumpNow? || AfterDump(s.src.pc) ==> d.bulk)
    && (s.src.pc.SendAfterDump? ==> d.images.Some?)
    && (AllWritten(s.src.pc) ==> d.files.Some?)
  }

  predicate Inv(c: Config, s: State) {
    && RestoreInv(c, s) && ReceivedInv(s) && ResultInv(c, s) && UnderWayInv(s) && HandedOverInv(c, s)
    && ToSourceInv(c, s) && ToSinkInv(c, s) && FsInv(c, s) && DumpInv(c, s) && CopyInv(c, s) && DataInv(c, s)
  }

  // The steps, a few at a time.

  lemma AbortKeepsInv(c: Config, s: State, delivered: bool)
    requires Inv(c, s) && s.src.verdict.None? && !s.src.pc.SourceDone?
    ensures Inv(c, SourceAborts(s, delivered))
  {
  }

  function HeaderSent(c: Config, s: State): State {
    s.(toSink := s.toSink + [Header(c.sourceFs, c.live)], src := s.src.(pc := RecvHeader))
  }

  lemma HeaderSentKeepsInv(c: Config, s: State)
    requires Inv(c, s) && s.src.pc.SendHeader?
    ensures Inv(c, HeaderSent(c, s))
  {
  }

  lemma ConnectedKeepsInv(c: Config, s: State, step: Step)
    requires Inv(c, s) && SourceEnabled(c, s, step) && (step.SrcConnected? || step.SrcGiveUp?)
    ensures Inv(c, DoSource(c, s, step))
  {
  }

  lemma HeaderKeepsInv(c: Config, s: State, step: Step)
    requires Inv(c, s) && SourceEnabled(c, s, step) && step.SrcHeader?
    ensures Inv(c, DoSource(c, s, step))
  {
    if step.sent {
      var s1 := HeaderSent(c, s);
      HeaderSentKeepsInv(c, s);
      AbortKeepsInv(c, s1, step.delivered);
    } else {
      AbortKeepsInv(c, s, step.delivered);
    }
  }

  lemma ReplyKeepsInv(c: Config, s: State, step: Step)
    requires Inv(c, s) && SourceEnabled(c, s, step) && (step.SrcReply? || step.SrcReplyFails?)
    ensures Inv(c, DoSource(c, s, step))
  {
    if step.SrcReplyFails? {
      AbortKeepsInv(c, s, step.delivered);
    }
  }

  lemma BulkSentKeepsInv(c: Config, s: State, delivered: bool)
    requires Inv(c, s) && SourceEnabled(c, s, SrcBulk(true, delivered)) && (c.live ==> s.src.criu)
    ensures Inv(c, DoSource(c, s, SrcBulk(true, delivered)))
  {
  }

  lemma BulkKeepsInv(c: Config, s: State, step: Step)
    requires Inv(c, s) && SourceEnabled(c, s, step) && step.SrcBulk?
    ensures Inv(c, DoSource(c, s, step))
  {
    if !step.ok || (c.live && !s.src.criu) {
      AbortKeepsInv(c, s, step.delivered);
    } else {
      BulkSentKeepsInv(c, s, step.delivered);
    }
  }

  lemma ImagesKeepsInv(c: Config, s: State, step: Step)
    requires Inv(c, s) && SourceEnabled(c, s, step) && step.SrcImages?
    ensures Inv(c, DoSource(c, s, step))
  {
    if !step.ok {
      AbortKeepsInv(c, s, step.delivered);
    }
  }

  lemma RestKeepsInv(c: Config, s: State, step: Step)
    requires Inv(c, s) && SourceEnabled(c, s, step) && step.SrcRest?
    ensures Inv(c, DoSource(c, s, step))
  {
    if !step.ok {
      AbortKeepsInv(c, s, step.delivered);
    }
  }

  lemma SeizingKeepsInv(c: Config, s: State, step: Step)
    requires Inv(c, s) && SourceEnabled(c, s, step) && (step.SrcDumpFailed? || step.SrcDumpReady? || step.SrcDumpNow?)
    ensures Inv(c, DoSource(c, s, step))
  {
    if !step.SrcDumpReady? {
      AbortKeepsInv(c, s, step.delivered);
    }
  }

  lemma VerdictKeepsInv(c: Config, s: State, step: Step)
    requires Inv(c, s) && SourceEnabled(c, s, step) && step.SrcVerdict?
    ensures Inv(c, DoSource(c, s, step))
  {
  }

  lemma VerdictLostKeepsInv(c: Config, s: State, step: Step)
    requires Inv(c, s) && SourceEnabled(c, s, step) && step.SrcVerdictLost?
    ensures Inv(c, DoSource(c, s, step))
  {
  }

  lemma ReturnKeepsInv(c: Config, s: State, step: Step)
    requires Inv(c, s) && SourceEnabled(c, s, step) && (step.SrcDumpReturns? || step.ScriptPasses? || step.ScriptFails?)
    ensures Inv(c, DoSource(c, s, step))
  {
  }

  lemma DumpKeepsInv(c: Config, s: State, step: Step)
    requires Inv(c, s) && SourceEnabled(c, s, step) && (step.DumpFails? || step.DumpBlocks?)
    ensures Inv(c, DoSource(c, s, step))
  {
  }

  lemma WritingKeepsInv(c: Config, s: State, step: Step)
    requires Inv(c, s) && SourceEnabled(c, s, step) && (step.WritesBulk? || step.WritesImages?)
    ensures Inv(c, DoSource(c, s, step))
  {
  }

  lemma RunningKeepsInv(c: Config, s: State, step: Step)
    requires Inv(c, s) && SourceEnabled(c, s, step) && (step.WritesRest? || step.SrcRuns?)
    ensures Inv(c, DoSource(c, s, step))
  {
  }

  lemma SuccessKeepsInv(c: Config, s: State, delivered: bool)
    requires Inv(c, s) && s.snk.pc.Select? && s.snk.restorer == Report(true)
    ensures Inv(c, DoSink(c, s, SnkResult(delivered)))
  {
  }

  lemma FailureKeepsInv(c: Config, s: State, delivered: bool)
    requires Inv(c, s) && s.snk.pc.Select? && s.snk.restorer == Report(false)
    ensures Inv(c, DoSink(c, s, SnkResult(delivered)))
  {
  }

  lemma ConnectingKeepsInv(c: Config, s: State, step: Step)
    requires Inv(c, s) && SinkEnabled(c, s, step) && step.SnkControl?
    ensures Inv(c, DoSink(c, s, step))
  {
  }

  lemma FsConnKeepsInv(c: Config, s: State, step: Step)
    requires Inv(c, s) && SinkEnabled(c, s, step) && step.SnkFs?
    ensures Inv(c, DoSink(c, s, step))
  {
  }

  lemma CriuConnKeepsInv(c: Config, s: State, step: Step)
    requires Inv(c, s) && SinkEnabled(c, s, step) && step.SnkCriu?
    ensures Inv(c, DoSink(c, s, step))
  {
  }

  lemma SinkHeaderFailsKeepsInv(c: Config, s: State, step: Step)
    requires Inv(c, s) && SinkEnabled(c, s, step) && step.SnkHeaderFails?
    ensures Inv(c, DoSink(c, s, step))
  {
  }

  lemma SinkHeaderKeepsInv(c: Config, s: State, step: Step)
    requires Inv(c, s) && SinkEnabled(c, s, step) && step.SnkHeader?
    ensures Inv(c, DoSink(c, s, step))
  {
  }

  lemma SinkReplyKeepsInv(c: Config, s: State, step: Step)
    requires Inv(c, s) && SinkEnabled(c, s, step) && step.SnkReply?
    ensures Inv(c, DoSink(c, s, step))
  {
  }

  lemma ResultKeepsInv(c: Config, s: State, step: Step)
    requires Inv(c, s) && SinkEnabled(c, s, step) && step.SnkResult?
    ensures Inv(c, DoSink(c, s, step))
  {
    if s.snk.restorer.ok {
      SuccessKeepsInv(c, s, step.delivered);
    } else {
      FailureKeepsInv(c, s, step.delivered);
    }
  }

  lemma HearingKeepsInv(c: Config, s: State, step: Step)
    requires Inv(c, s) && SinkEnabled(c, s, step)
        && (step.SnkHearsFailure? || step.SnkHearsSuccess? || step.SnkHearsNothing?)
    ensures Inv(c, DoSink(c, s, step))
  {
  }

  lemma FilesEndKeepsInv(c: Config, s: State, step: Step)
    requires Inv(c, s) && SinkEnabled(c, s, step) && step.FsEnds?
    ensures Inv(c, DoSink(c, s, step))
  {
  }

  lemma ImagesEndKeepsInv(c: Config, s: State, step: Step)
    requires Inv(c, s) && SinkEnabled(c, s, step) && step.ImagesEnd?
    ensures Inv(c, DoSink(c, s, step))
  {
  }

  lemma RestoringKeepsInv(c: Config, s: State, step: Step)
    requires Inv(c, s) && SinkEnabled(c, s, step) && (step.FsAwaited? || step.RestoreEnds? || step.ClientDeletesSource?)
    ensures Inv(c, DoSink(c, s, step))
  {
  }

  predicate Sends(step: Step) {
    || step.SrcConnected? || step.SrcGiveUp? || step.SrcHeader? || step.SrcReply? || step.SrcReplyFails?
    || step.SrcBulk? || step.SrcImages? || step.SrcRest?
  }

  lemma SourceSendsKeepsInv(c: Config, s: State, step: Step)
    requires Inv(c, s) && SourceEnabled(c, s, step) && Sends(step)
    ensures Inv(c, DoSource(c, s, step))
  {
    match step {
    case SrcConnected | SrcGiveUp => ConnectedKeepsInv(c, s, step);
    case SrcHeader(_, _, _) => HeaderKeepsInv(c, s, step);
    case SrcReply | SrcReplyFails(_) => ReplyKeepsInv(c, s, step);
    case SrcBulk(_, _) => BulkKeepsInv(c, s, step);
    case SrcImages(_, _) => ImagesKeepsInv(c, s, step);
    case SrcRest(_, _) => RestKeepsInv(c, s, step);
    }
  }

  lemma SourceKeepsInv(c: Config, s: State, step: Step)
    requires Inv(c, s) && SourceEnabled(c, s, step)
    ensures Inv(c, DoSource(c, s, step))
  {
    if Sends(step) {
      SourceSendsKeepsInv(c, s, step);
      return;
    }
    match step {
    case SrcDumpFailed(_) | SrcDumpReady | SrcDumpNow(_, _) => SeizingKeepsInv(c, s, step);
    case SrcVerdict => VerdictKeepsInv(c, s, step);
    case SrcVerdictLost => VerdictLostKeepsInv(c, s, step);
    case SrcDumpReturns | ScriptPasses | ScriptFails => ReturnKeepsInv(c, s, step);
    case DumpFails | DumpBlocks => DumpKeepsInv(c, s, step);
    case WritesBulk | WritesImages => WritingKeepsInv(c, s, step);
    case WritesRest | SrcRuns => RunningKeepsInv(c, s, step);
    case _ =>
    }
  }

  lemma SinkKeepsInv(c: Config, s: State, step: Step)
    requires Inv(c, s) && SinkEnabled(c, s, step)
    ensures Inv(c, DoSink(c, s, step))
  {
    match step {
    case SnkControl(_) => ConnectingKeepsInv(c, s, step);
    case SnkFs(_, _) => FsConnKeepsInv(c, s, step);
    case SnkCriu(_, _) => CriuConnKeepsInv(c, s, step);
    case SnkHeaderFails(_) => SinkHeaderFailsKeepsInv(c, s, step);
    case SnkHeader => SinkHeaderKeepsInv(c, s, step);
    case SnkReply(_, _) => SinkReplyKeepsInv(c, s, step);
    case SnkResult(_) => ResultKeepsInv(c, s, step);
    case SnkHearsFailure | SnkHearsSuccess(_) | SnkHearsNothing => HearingKeepsInv(c, s, step);
    case FsEnds(_) => FilesEndKeepsInv(c, s, step);
    case ImagesEnd(_) => ImagesEndKeepsInv(c, s, step);
    case FsAwaited | RestoreEnds(_) | ClientDeletesSource => RestoringKeepsInv(c, s, step);
    case _ =>
    }
  }

  lemma BreakKeepsInv(c: Config, s: State)
    requires Inv(c, s)
    ensures Inv(c, s.(down := true))
  {
  }

  lemma StepKeepsInv(c: Config, s: State, step: Step)
    requires Inv(c, s) && Enabled(c, s, step)
    ensures Inv(c, Do(c, s, step))
  {
    if step == Break {
      BreakKeepsInv(c, s);
    } else if SourceEnabled(c, s, step) {
      SourceKeepsInv(c, s, step);
    } else {
      SinkKeepsInv(c, s, step);
    }
  }

  lemma LaterKeepsInv(c: Config, a: State, b: State)
    requires Inv(c, a) && Later(Next(c), a, b)
    ensures Inv(c, b)
  {
    var inside := iset s | Inv(c, s);
    forall s, step, s' | s in inside && Next(c)(s, step, s') ensures s' in inside {
      StepKeepsInv(c, s, step);
    }
    assert a in inside && Closed(Next(c), inside);
  }

  lemma ReachableInv(c: Config, s: State)
    requires Reachable(c, s)
    ensures Inv(c, s)
  {
    LaterKeepsInv(c, Init(c), s);
  }

  // ----- What holds over every run --------------------------------------------------------------------

  /** The sink's Do returns an error exactly when it has deleted its container, and success only
      after the source wrote everything in full and the sink received all of it. */
  lemma SinkResult(c: Config, s: State)
    requires Reachable(c, s)
    ensures s.snk.pc == SinkDone(false) <==> s.snk.deleted
    ensures s.snk.pc == SinkDone(true) ==> Complete(c, s)
  {
    ReachableInv(c, s);
  }

  /** The source's Do returns success only if the sink's did. */
  lemma SourceSuccess(c: Config, s: State)
    requires Reachable(c, s) && s.src.pc == SourceDone(true)
    ensures s.snk.pc == SinkDone(true) && Complete(c, s)
  {
    ReachableInv(c, s);
  }

  /** A verdict received is the truth about the sink, and decides how the source's Do returns: at
      once, or after the dump if live. */
  lemma VerdictDecides(c: Config, s: State)
    requires Reachable(c, s) && s.src.verdict.Some?
    ensures s.src.verdict == Some(true) <==> s.snk.pc == SinkDone(true)
    ensures s.src.verdict == Some(false) ==> s.snk.pc == SinkDone(false) && s.snk.deleted
    ensures !c.live ==> s.src.pc == SourceDone(s.src.verdict.value)
    ensures c.live ==> s.src.pc == AwaitDump(s.src.verdict.value) || s.src.pc == SourceDone(s.src.verdict.value)
  {
    ReachableInv(c, s);
  }

  /** A source that waits for the verdict takes the first message there is as it. */
  lemma VerdictIsTaken(c: Config, s: State) returns (s': State)
    requires Reachable(c, s) && s.src.pc == RecvResult && s.toSource != []
    ensures Next(c)(s, SrcVerdict, s')
    ensures s'.src.verdict == Some(s.toSource[0] == Control(true)) && s'.toSource == s.toSource[1..]
  {
    ReachableInv(c, s);
    s' := Do(c, s, SrcVerdict);
  }

  /** Any message that reaches a sink in its select ends it: it deletes its container and returns
      an error. */
  lemma FailureEndsSink(c: Config, s: State) returns (s': State)
    requires Reachable(c, s) && s.snk.pc == Select && s.toSink != []
    ensures s.toSink[0] == Control(false) && Next(c)(s, SnkHearsFailure, s')
    ensures s'.snk.pc == SinkDone(false) && s'.snk.deleted && s'.down && s'.toSink == s.toSink[1..]
  {
    ReachableInv(c, s);
    s' := Do(c, s, SnkHearsFailure);
  }

  /** The source ends with an error: it says so, if the message gets through, and closes the
      connection. */
  predicate SourceSaysNo(toSink: seq<Message>, d: bool, s': State) {
    s'.src.pc == SourceDone(false) && s'.down && s'.toSink == toSink + if d then [Control(false)] else []
  }

  /** A source that fails between its header and the verdict says so; the header is sent even if
      the storage driver failed. */
  lemma SourceReportsFailure(c: Config, s: State, d: bool)
    ensures SourceEnabled(c, s, SrcHeader(false, false, d)) ==>
              SourceSaysNo(s.toSink, d, DoSource(c, s, SrcHeader(false, false, d)))
    ensures SourceEnabled(c, s, SrcHeader(true, false, d)) ==>
              SourceSaysNo(s.toSink + [Header(c.sourceFs, c.live)], d, DoSource(c, s, SrcHeader(true, false, d)))
    ensures SourceEnabled(c, s, SrcReplyFails(d)) ==> SourceSaysNo(s.toSink, d, DoSource(c, s, SrcReplyFails(d)))
    ensures SourceEnabled(c, s, SrcBulk(false, d)) ==> SourceSaysNo(s.toSink, d, DoSource(c, s, SrcBulk(false, d)))
    ensures SourceEnabled(c, s, SrcDumpFailed(d)) ==> SourceSaysNo(s.toSink, d, DoSource(c, s, SrcDumpFailed(d)))
    ensures SourceEnabled(c, s, SrcDumpNow(false, d)) ==>
              SourceSaysNo(s.toSink, d, DoSource(c, s, SrcDumpNow(false, d)))
    ensures SourceEnabled(c, s, SrcImages(false, d)) ==> SourceSaysNo(s.toSink, d, DoSource(c, s, SrcImages(false, d)))
    ensures SourceEnabled(c, s, SrcRest(false, d)) ==> SourceSaysNo(s.toSink, d, DoSource(c, s, SrcRest(false, d)))
  {
  }

  /** A source that fails before its header says nothing and leaves the connection open. */
  lemma SourceGivesUpSilently(c: Config, s: State, s': State)
    requires Next(c)(s, SrcGiveUp, s')
    ensures s'.src.pc == SourceDone(false) && s'.toSink == s.toSink && s'.down == s.down && s'.snk == s.snk
  {
  }

  /** The sink ends with an error: it deletes its container, says so, if the message gets through,
      and closes the connection. */
  predicate SinkSaysNo(s: State, d: bool, s': State) {
    && s'.snk.pc == SinkDone(false) && s'.snk.deleted && s'.down
    && s'.toSource == s.toSource + if d then [Control(false)] else []
  }

  /** Without a control connection the sink deletes its container and says nothing. */
  lemma SinkFailsSilently(c: Config, s: State)
    requires SinkEnabled(c, s, SnkControl(false))
    ensures var s' := DoSink(c, s, SnkControl(false));
            && s'.snk.pc == SinkDone(false) && s'.snk.deleted
            && s'.toSource == s.toSource && s'.down == s.down && s'.src == s.src
  {
  }

  /** A sink that fails before its restore goroutine runs says so, once the control connection is
      open. */
  lemma SinkReportsFailure(c: Config, s: State, d: bool)
    ensures SinkEnabled(c, s, SnkFs(false, d)) ==> SinkSaysNo(s, d, DoSink(c, s, SnkFs(false, d)))
    ensures SinkEnabled(c, s, SnkCriu(false, d)) ==> SinkSaysNo(s, d, DoSink(c, s, SnkCriu(false, d)))
    ensures SinkEnabled(c, s, SnkHeaderFails(d)) ==> SinkSaysNo(s, d, DoSink(c, s, SnkHeaderFails(d)))
    ensures SinkEnabled(c, s, SnkReply(false, d)) ==> SinkSaysNo(s, d, DoSink(c, s, SnkReply(false, d)))
  {
  }

  /** The sink reports the result of its restore goroutine and returns it. */
  lemma SinkReportsResult(c: Config, s: State, delivered: bool, s': State)
    requires Reachable(c, s) && Next(c)(s, SnkResult(delivered), s')
    ensures s.snk.restorer == Report(true) || s.snk.restorer == Report(false)
    ensures s'.snk.pc == SinkDone(s.snk.restorer == Report(true)) && s'.down
    ensures s'.toSource == if delivered then s.toSource + [Control(s.snk.restorer == Report(true))] else s.toSource
  {
    assert s.snk.restorer == Report(s.snk.restorer.ok);
  }

  /** A copy that succeeded is what the source's container last was, unless the container ran
      on after it was stopped for the dump; and only a broken script makes it run on. */
  lemma CopyIsUpToDate(c: Config, s: State)
    requires Reachable(c, s) && s.snk.pc == SinkDone(true)
    ensures UpToDate(c, s) <==> s.src.data.version == s.src.data.taken
    ensures !s.src.broke ==> UpToDate(c, s)
  {
    ReachableInv(c, s);
  }

  /** A move deletes the source after the copy succeeded, so a complete copy is always left. */
  lemma MoveKeepsACopy(c: Config, s: State)
    requires Reachable(c, s)
    ensures s.src.deleted ==> Complete(c, s)
    ensures s.src.deleted && !s.src.broke ==> UpToDate(c, s)
  {
    ReachableInv(c, s);
    if s.src.deleted {
      CopyIsUpToDate(c, s);
    }
  }

  /** Both copies run at the same time exactly while a broken script keeps the source running. */
  lemma BothRunningExactly(c: Config, s: State)
    requires Reachable(c, s)
    ensures BothRunning(s) <==> s.src.broke && !s.src.deleted && s.snk.restored
  {
    ReachableInv(c, s);
  }

  /** After a failure verdict the script exits with an error, the source runs on, and its Do
      returns an error. */
  lemma FailureResumesSource(c: Config, s: State) returns (s': State)
    requires Reachable(c, s) && c.live && c.actionScript && s.src.verdict == Some(false)
    ensures Later(Next(c), s, s') && s'.src.pc == SourceDone(false) && s'.src.copy == Running
  {
    ReachableInv(c, s);
    s' := s;
    Stay(Next(c), s);
    if s.src.dump == Blocked {
      s' := Do(c, s, ScriptFails);
      Follow(Next(c), s, s, ScriptFails, s');
    }
    if s'.src.pc.AwaitDump? {
      var t := Do(c, s', SrcDumpReturns);
      Follow(Next(c), s, s', SrcDumpReturns, t);
      s' := t;
    }
  }

  /** Nothing in the model keeps the source's calls from failing or its messages from getting
      lost. */
  lemma SourceMayFail(c: Config, s: State, d: bool)
    ensures s.src.pc == SendHeader ==> SourceEnabled(c, s, SrcGiveUp)
    ensures s.src.pc == SendHeader ==> SourceEnabled(c, s, SrcHeader(false, false, d))
    ensures s.src.pc == SendHeader ==> SourceEnabled(c, s, SrcHeader(true, false, d))
    ensures s.src.pc == SendWhileRunning ==> SourceEnabled(c, s, SrcBulk(false, d))
    ensures s.src.pc == DumpNow ==> SourceEnabled(c, s, SrcDumpNow(false, d))
    ensures s.src.pc == SendImages ==> SourceEnabled(c, s, SrcImages(false, d))
    ensures s.src.pc == SendAfterDump ==> SourceEnabled(c, s, SrcRest(false, d))
    ensures s.src.dump == Dumping ==> SourceEnabled(c, s, DumpFails)
  {
  }

  /** Nor the sink's. */
  lemma SinkMayFail(c: Config, s: State, d: bool)
    ensures s.snk.pc == ConnectControl ==> SinkEnabled(c, s, SnkControl(false))
    ensures s.snk.pc == ConnectFs ==> SinkEnabled(c, s, SnkFs(false, d))
    ensures s.snk.pc == ConnectCriu ==> SinkEnabled(c, s, SnkCriu(false, d))
    ensures s.snk.pc == SinkSendHeader ==> SinkEnabled(c, s, SnkReply(false, d))
  {
  }

  lemma RestoreMayFail(c: Config, s: State)
    ensures s.snk.transfer == Transferring ==> SinkEnabled(c, s, FsEnds(false))
    ensures s.snk.restorer == RecvImages ==> SinkEnabled(c, s, ImagesEnd(false))
    ensures s.snk.restorer == Restore ==> SinkEnabled(c, s, RestoreEnds(false))
  {
  }

  /** Nor the connection from breaking, and both sides notice it wherever they wait for a
      message. */
  lemma ConnectionMayBreak(c: Config, s: State, d: bool)
    ensures Next(c)(s, Break, s.(down := true))
    ensures s.down && s.src.pc == RecvHeader ==> SourceEnabled(c, s, SrcReplyFails(d))
    ensures s.down && s.src.pc == RecvResult ==> SourceEnabled(c, s, SrcVerdictLost)
    ensures s.down && s.snk.pc == SinkRecvHeader ==> SinkEnabled(c, s, SnkHeaderFails(d))
    ensures s.down && s.snk.pc == Select && s.snk.listening ==> SinkEnabled(c, s, SnkHearsNothing)
  {
  }

  /** A verdict where a header is expected is a failure, */
  lemma FailureInsteadOfHeader(c: Config, s: State, d: bool)
    ensures s.src.pc == RecvHeader && s.toSource != [] && s.toSource[0].Control? ==>
              SourceEnabled(c, s, SrcReplyFails(d)) && DoSource(c, s, SrcReplyFails(d)).src.pc == SourceDone(false)
    ensures s.snk.pc == SinkRecvHeader && s.toSink != [] && s.toSink[0].Control? ==>
              SinkEnabled(c, s, SnkHeaderFails(d)) && DoSink(c, s, SnkHeaderFails(d)).snk.pc == SinkDone(false)
  {
  }

  /** and what was written in full can be received in full. */
  lemma WrittenMayArrive(c: Config, s: State)
    ensures s.snk.restorer == RecvImages && s.src.data.images.Some? ==>
              SinkEnabled(c, s, ImagesEnd(true)) && DoSink(c, s, ImagesEnd(true)).snk.memory == s.src.data.images
    ensures s.snk.transfer == Transferring && s.src.data.files.Some? ==>
              SinkEnabled(c, s, FsEnds(true)) && DoSink(c, s, FsEnds(true)).snk.files == s.src.data.files
  {
  }

  /** With the action script, the source's copy is only killed once the sink has restored the
      container, finished successfully, and told so. */
  lemma KilledOnlyAfterRestore(c: Config, s: State)
    requires Reachable(c, s) && c.live && c.actionScript && s.src.copy == Stopped
    ensures s.src.verdict == Some(true)
    ensures s.snk.restored && s.snk.pc == SinkDone(true) && Complete(c, s)
  {
    ReachableInv(c, s);
  }

  /** A source resumed after the dump means that the sink never restored the container and never
      will, or that the script broke. */
  lemma ResumedOnlyAfterFailure(c: Config, s: State)
    requires Reachable(c, s) && c.live && s.src.sentImages && s.src.copy == Running
    ensures s.src.broke || (s.src.verdict == Some(false) && SinkFailed(s))
  {
    ReachableInv(c, s);
  }

  /** Once the file system transfer runs, both sides use the same transport: their own if they
      agree, rsync if not. */
  lemma SameTransport(c: Config, s: State)
    requires Reachable(c, s) && PastHeader(s.src.pc)
    ensures s.src.fs == s.snk.fs == if c.sourceFs == c.sinkFs then c.sourceFs else Rsync
  {
    ReachableInv(c, s);
  }

  /** The branch of the sink's select for a success message from the source is never taken, and
      neither side ever reads a header where it expects a verdict. */
  lemma NoUnexpectedMessage(c: Config, s: State, templateOk: bool)
    requires Reachable(c, s)
    ensures !Enabled(c, s, SnkHearsSuccess(templateOk))
    ensures s.src.pc == RecvResult && s.toSource != [] ==> s.toSource[0].Control?
    ensures s.snk.pc == Select && s.toSink != [] ==> s.toSink[0].Control?
  {
    ReachableInv(c, s);
  }

  /** How a source with an action script ends: killed on success, frozen when it abandoned the
      dump, and running otherwise. */
  lemma SourceEndings(c: Config, s: State)
    requires Reachable(c, s) && c.live && c.actionScript && s.src.pc.SourceDone?
    ensures s.src.pc.ok ==> s.snk.restored
    ensures s.src.copy == Stopped <==> s.src.pc.ok && !s.src.broke
    ensures s.src.copy == Frozen <==> Abandoned(s)
  {
    ReachableInv(c, s);
  }

  // ----- Where a run can get stuck ------------------------------------------------------------------------

  /** The source stopped waiting without handing over a verdict: its copy is frozen. */
  predicate Abandoned(s: State) {
    s.src.pc == SourceDone(false) && s.src.dump == Blocked && s.src.verdict.None?
  }

  lemma AbandonedIsOver(c: Config, s: State, step: Step)
    requires CopyInv(c, s) && Abandoned(s) && !c.scriptBreaks
    ensures !SourceEnabled(c, s, step)
  {
  }

  lemma SinkLeavesSource(c: Config, s: State, step: Step)
    requires SinkEnabled(c, s, step)
    ensures DoSink(c, s, step).src == s.src.(deleted := DoSink(c, s, step).src.deleted)
  {
  }

  lemma AbandonedStep(c: Config, s: State, step: Step)
    requires CopyInv(c, s) && Abandoned(s) && Enabled(c, s, step) && !c.scriptBreaks
    ensures Abandoned(Do(c, s, step))
  {
    AbandonedIsOver(c, s, step);
    if step != Break {
      SinkLeavesSource(c, s, step);
    }
  }

  lemma StaysAbandoned(c: Config, s: State, s': State)
    requires Reachable(c, s) && Abandoned(s) && Later(Next(c), s, s') && !c.scriptBreaks
    ensures Abandoned(s') && s'.src.copy == Frozen
  {
    ReachableInv(c, s);
    var inside := iset x | Inv(c, x) && Abandoned(x);
    forall x, step, x' | x in inside && Next(c)(x, step, x') ensures x' in inside {
      AbandonedStep(c, x, step);
      StepKeepsInv(c, x, step);
    }
    assert s in inside && Closed(Next(c), inside);
    assert s' in inside;
  }

  /** From then on it stays frozen, whatever else happens: exactly if the script cannot break. */
  lemma AbandonedForGood(c: Config, s: State)
    requires Reachable(c, s) && Abandoned(s)
    ensures (forall s' :: Later(Next(c), s, s') ==> s'.src.copy == Frozen) <==> !c.scriptBreaks
  {
    if c.scriptBreaks {
      var s' := Do(c, s, ScriptFails);
      assert Enabled(c, s, ScriptFails);
      Stay(Next(c), s);
      Follow(Next(c), s, s, ScriptFails, s');
      assert s'.src.copy == Running;
    } else {
      forall s' | Later(Next(c), s, s') ensures s'.src.copy == Frozen {
        StaysAbandoned(c, s, s');
      }
    }
  }

  /** It happens in every configuration with the script, when the connection breaks at the wrong
      time. */
  lemma AbandonedReachable(c: Config) returns (s: State)
    requires c.live && c.actionScript
    ensures Reachable(c, s) && Abandoned(s)
  {
    var fs, fs';
    s, fs, fs' := LiveTransfers(c);
    s := Take(c, s, Break);
    s := Take(c, s, SrcVerdictLost);
  }

  /** Without the action script the source of a live migration never returns success: it waits
      for the end of a dump that it did not start. */
  lemma PlainDumpNeverSucceeds(c: Config, s: State)
    requires Reachable(c, s) && c.live && !c.actionScript
    ensures s.src.pc != SourceDone(true)
    ensures !Enabled(c, s, SrcDumpReturns)
  {
    ReachableInv(c, s);
  }

  /** And it comes to wait like that after a migration that worked. */
  lemma PlainDumpHangs(c: Config) returns (s: State)
    requires c.live && !c.actionScript
    ensures Reachable(c, s) && s.src.pc == AwaitDump(true) && s.snk.restored && UpToDate(c, s)
  {
    var fs, fs';
    s, fs, fs' := LiveHandsOver(c);
  }

  // ----- Single runs ---------------------------------------------------------------------------------------

  lemma Take(c: Config, s: State, step: Step) returns (s': State)
    requires Reachable(c, s) && Enabled(c, s, step)
    ensures s' == Do(c, s, step) && Reachable(c, s')
  {
    s' := Do(c, s, step);
    Follow(Next(c), Init(c), s, step, s');
  }

  lemma LiveConnects(c: Config) returns (s: State)
    requires c.live
    ensures Reachable(c, s)
    ensures s == Init(c).(src := Init(c).src.(pc := SendHeader),
                          snk := Init(c).snk.(pc := SinkRecvHeader, connected := true))
  {
    s := Init(c);
    s := Take(c, s, SnkControl(true));
    s := Take(c, s, SnkFs(true, true));
    s := Take(c, s, SnkCriu(true, true));
    s := Take(c, s, SrcConnected);
  }

  /** The sink after its reply. */
  function Replied(c: Config, fs: FsType): Sink {
    Init(c).snk.(pc := Select, connected := true, fs := fs, transfer := Transferring, restorer := RecvImages,
                 listening := true)
  }

  lemma LiveHeaders(c: Config) returns (s: State, fs': FsType)
    requires c.live
    ensures Reachable(c, s)
    ensures s == State(Init(c).src.(pc := RecvHeader), Replied(c, fs'), [], [Header(fs', true)], false)
  {
    s := LiveConnects(c);
    s := Take(c, s, SrcHeader(true, true, true));
    s := Take(c, s, SnkHeader);
    s := Take(c, s, SnkReply(true, true));
    fs' := s.snk.fs;
    assert s.toSource == [Header(fs', true)] && s.toSink == [];
  }

  /** The source when all is ready for the dump. */
  function Poised(c: Config, fs: FsType): Source {
    Init(c).src.(pc := if c.actionScript then WaitDump else DumpNow, fs := fs, criu := true,
                 dump := if c.actionScript then Dumping else NotDumped, data := Data(0, 0, true, None, None))
  }

  lemma LiveNegotiates(c: Config) returns (s: State, fs: FsType, fs': FsType)
    requires c.live
    ensures Reachable(c, s)
    ensures s == State(Poised(c, fs), Replied(c, fs'), [], [], false)
  {
    s, fs' := LiveHeaders(c);
    assert HeadIs(s.toSource, true);
    s := Take(c, s, SrcReply);
    s := Take(c, s, WritesBulk);
    s := Take(c, s, SrcBulk(true, true));
    fs := s.src.fs;
    assert s.toSource == [];
  }

  /** The source when everything was written. */
  function Waiting(c: Config, fs: FsType): Source {
    Poised(c, fs).(pc := RecvResult, dump := if c.actionScript then Blocked else NotDumped, ready := c.actionScript,
                   copy := if c.actionScript then Frozen else Stopped, sentImages := true,
                   data := Data(0, 0, true, Some(0), Some(0)))
  }

  lemma LiveDumps(c: Config) returns (s: State, fs: FsType, fs': FsType)
    requires c.live
    ensures Reachable(c, s)
    ensures s == State(Waiting(c, fs).(pc := SendImages, data := Data(0, 0, true, None, None)), Replied(c,
            fs'), [], [], false)
  {
    s, fs, fs' := LiveNegotiates(c);
    if c.actionScript {
      s := Take(c, s, DumpBlocks);
      s := Take(c, s, SrcDumpReady);
    } else {
      s := Take(c, s, SrcDumpNow(true, true));
    }
  }

  lemma LiveImages(c: Config) returns (s: State, fs: FsType, fs': FsType)
    requires c.live
    ensures Reachable(c, s)
    ensures s == State(Waiting(c, fs).(pc := SendAfterDump, data := Data(0, 0, true, Some(0), None)),
                       Replied(c, fs'), [], [], false)
  {
    s, fs, fs' := LiveDumps(c);
    s := Take(c, s, WritesImages);
    s := Take(c, s, SrcImages(true, true));
  }

  lemma LiveTransfers(c: Config) returns (s: State, fs: FsType, fs': FsType)
    requires c.live
    ensures Reachable(c, s)
    ensures s == State(Waiting(c, fs), Replied(c, fs'), [], [], false)
  {
    s, fs, fs' := LiveImages(c);
    s := Take(c, s, WritesRest);
    s := Take(c, s, SrcRest(true, true));
  }

  /** The sink when it has received everything and reported success. */
  function Restored(c: Config, fs: FsType): Sink {
    Replied(c, fs).(pc := SinkDone(true), transfer := Transferred(true), restorer := Reported,
                    memory := Some(0), files := Some(0), restored := true)
  }

  lemma SinkReceives(c: Config, s: State, fs: FsType, m: nat, f: nat) returns (s': State)
    requires c.live && Reachable(c, s) && s.snk == Replied(c, fs)
    requires s.src.data.images == Some(m) && s.src.data.files == Some(f)
    ensures Reachable(c, s')
    ensures s' == s.(snk := Replied(c, fs).(restorer := WaitFs, transfer := Transferred(true),
                                            memory := Some(m), files := Some(f)))
  {
    s' := Take(c, s, ImagesEnd(true));
    s' := Take(c, s', FsEnds(true));
  }

  lemma SinkRestores(c: Config, s: State, fs: FsType) returns (s': State)
    requires c.live && Reachable(c, s) && s.snk == Replied(c, fs)
    requires s.src.data.images == s.src.data.files == Some(0)
    ensures Reachable(c, s')
    ensures s' == s.(snk := Restored(c, fs).(pc := Select, restorer := Report(true)))
  {
    s' := SinkReceives(c, s, fs, 0, 0);
    s' := Take(c, s', FsAwaited);
    s' := Take(c, s', RestoreEnds(true));
  }

  lemma LiveRestores(c: Config) returns (s: State, fs: FsType, fs': FsType)
    requires c.live
    ensures Reachable(c, s)
    ensures s == State(Waiting(c, fs), Restored(c, fs'), [], [Control(true)], true)
  {
    s, fs, fs' := LiveTransfers(c);
    s := SinkRestores(c, s, fs');
    s := Take(c, s, SnkResult(true));
  }

  lemma LiveHandsOver(c: Config) returns (s: State, fs: FsType, fs': FsType)
    requires c.live
    ensures Reachable(c, s)
    ensures s == State(Waiting(c, fs).(pc := AwaitDump(true), verdict := Some(true)), Restored(c, fs'), [], [], true)
  {
    s, fs, fs' := LiveRestores(c);
    s := Take(c, s, SrcVerdict);
    assert s.toSource == [];
  }

  lemma LiveFinishes(c: Config) returns (s: State)
    requires c.live && c.actionScript
    ensures Reachable(c, s)
    ensures s.src.pc == SourceDone(true) && s.src.copy == Stopped && s.snk.restored && s.src.deleted && !s.src.broke
  {
    var fs, fs';
    s, fs, fs' := LiveHandsOver(c);
    s := Take(c, s, ScriptPasses);
    s := Take(c, s, SrcDumpReturns);
    s := Take(c, s, ClientDeletesSource);
  }

  /** A live move with the action script can go through to the end: source killed, sink
      running, source deleted by the client, nothing lost. */
  lemma LiveMoveCanSucceed(c: Config) returns (steps: seq<Step>, s: State)
    requires c.live && c.actionScript
    ensures Runs(Next(c), Init(c), steps, s) && s.src.pc == SourceDone(true) && s.src.copy == Stopped
    ensures s.snk.restored && UpToDate(c, s) && s.src.deleted
  {
    s := LiveFinishes(c);
    LaterByRuns(Next(c), Init(c), s);
    steps :| Runs(Next(c), Init(c), steps, s);
    MoveKeepsACopy(c, s);
  }

  lemma SourceRunsOn(c: Config) returns (s: State, fs: FsType, fs': FsType)
    requires c.live && c.actionScript && c.scriptBreaks
    ensures Reachable(c, s)
    ensures s == State(Waiting(c, fs).(pc := SendAfterDump, dump := DumpEnded(false), copy := Running, broke := true,
                                       data := Data(1, 0, true, Some(0), Some(1))), Replied(c, fs'), [], [], false)
  {
    s, fs, fs' := LiveImages(c);
    s := Take(c, s, ScriptFails);
    s := Take(c, s, SrcRuns);
    s := Take(c, s, WritesRest);
  }

  lemma ReceivesTorn(c: Config) returns (s: State)
    requires c.live && c.actionScript && c.scriptBreaks
    ensures Reachable(c, s) && s.snk.pc == Select && s.snk.restorer == Report(true)
    ensures s.snk.memory == Some(0) && s.snk.files == Some(1)
  {
    var fs, fs';
    s, fs, fs' := SourceRunsOn(c);
    s := SinkReceives(c, s, fs', 0, 1);
    s := Take(c, s, FsAwaited);
    s := Take(c, s, RestoreEnds(true));
  }

  /** A script that breaks before the last pass over the files can even tear the copy: the sink
      reports success on memory of one version and files of another. */
  lemma TornCopy(c: Config) returns (s: State)
    requires c.live && c.actionScript && c.scriptBreaks
    ensures Reachable(c, s) && s.snk.pc == SinkDone(true) && s.snk.memory != s.snk.files
  {
    s := ReceivesTorn(c);
    s := Take(c, s, SnkResult(true));
  }

  lemma StoppedOpens(c: Config) returns (s: State)
    requires !c.live
    ensures Reachable(c, s)
    ensures s == State(Init(c).src.(pc := RecvHeader), Init(c).snk.(pc := SinkRecvHeader, connected := true),
                       [Header(c.sourceFs, false)], [], false)
  {
    s := Init(c);
    s := Take(c, s, SnkControl(true));
    s := Take(c, s, SnkFs(true, true));
    s := Take(c, s, SrcConnected);
    s := Take(c, s, SrcHeader(true, true, true));
    assert s.toSink == [Header(c.sourceFs, false)];
  }

  lemma StoppedConnects(c: Config) returns (s: State, fs': FsType)
    requires !c.live
    ensures Reachable(c, s)
    ensures s == State(Init(c).src.(pc := RecvHeader), Replied(c, fs').(restorer := WaitFs),
                       [], [Header(fs', false)], false)
  {
    s := StoppedOpens(c);
    s := Take(c, s, SnkHeader);
    s := Take(c, s, SnkReply(true, true));
    fs' := s.snk.fs;
    assert s.toSource == [Header(fs', false)] && s.toSink == [];
  }

  lemma StoppedTransfers(c: Config) returns (s: State, fs: FsType, fs': FsType)
    requires !c.live
    ensures Reachable(c, s)
    ensures s == State(Init(c).src.(pc := RecvResult, fs := fs, data := Data(0, 0, true, None, Some(0))),
                       Replied(c, fs').(restorer := WaitFs), [], [], false)
  {
    s, fs' := StoppedConnects(c);
    assert HeadIs(s.toSource, true);
    s := Take(c, s, SrcReply);
    s := Take(c, s, WritesBulk);
    s := Take(c, s, SrcBulk(true, true));
    fs := s.src.fs;
    assert s.toSource == [];
  }

  lemma StoppedReceives(c: Config) returns (s: State, fs: FsType, fs': FsType)
    requires !c.live
    ensures Reachable(c, s)
    ensures s == State(Init(c).src.(pc := RecvResult, fs := fs, data := Data(0, 0, true, None, Some(0))),
                       Restored(c, fs').(memory := None, restored := false), [], [Control(true)], true)
  {
    s, fs, fs' := StoppedTransfers(c);
    s := Take(c, s, FsEnds(true));
    s := Take(c, s, FsAwaited);
    s := Take(c, s, SnkResult(true));
  }

  /** A move of a stopped container can go through to the end too. */
  lemma StoppedMoveCanSucceed(c: Config) returns (s: State)
    requires !c.live
    ensures Reachable(c, s) && s.src.pc == SourceDone(true) && UpToDate(c, s) && s.src.deleted
  {
    var fs, fs';
    s, fs, fs' := StoppedReceives(c);
    s := Take(c, s, SrcVerdict);
    s := Take(c, s, ClientDeletesSource);
  }

  /** The script breaks while the sink is about to restore. */
  lemma BothRun(c: Config) returns (s: State, fs: FsType, fs': FsType)
    requires c.live && c.actionScript && c.scriptBreaks
    ensures Reachable(c, s) && BothRunning(s)
    ensures s == State(Waiting(c, fs).(dump := DumpEnded(false), copy := Running, broke := true),
                       Restored(c, fs').(pc := Select, restorer := Report(true)), [], [], false)
  {
    s, fs, fs' := LiveTransfers(c);
    s := Take(c, s, ScriptFails);
    s := SinkRestores(c, s, fs');
  }

  /** The source's container runs on, and then the client deletes it. */
  lemma MoveLoses(c: Config) returns (s: State)
    requires c.live && c.actionScript && c.scriptBreaks
    ensures Reachable(c, s) && s.src.deleted && !UpToDate(c, s)
  {
    var fs, fs';
    s, fs, fs' := BothRun(c);
    s := Take(c, s, SrcRuns);
    s := Take(c, s, SnkResult(true));
    s := Take(c, s, ClientDeletesSource);
  }

  // ----- When the promises hold -----------------------------------------------------------------------------

  /** The action script may exit with an error of its own in this migration. */
  predicate Fragile(c: Config) { c.live && c.actionScript && c.scriptBreaks }

  lemma OnlyFragileBreaks(c: Config, s: State)
    requires Reachable(c, s) && s.src.broke
    ensures Fragile(c)
  {
    ReachableInv(c, s);
  }

  /** The two copies never run at the same time, in any run: exactly if the script cannot break. */
  lemma NeverBothRunning(c: Config)
    ensures (forall s :: Reachable(c, s) ==> !BothRunning(s)) <==> !Fragile(c)
  {
    if Fragile(c) {
      var s, _, _ := BothRun(c);
    } else {
      forall s | Reachable(c, s) ensures !BothRunning(s) {
        BothRunningExactly(c, s);
        if s.src.broke {
          OnlyFragileBreaks(c, s);
        }
      }
    }
  }

  /** A move never loses anything that the container did, in any run: exactly if the script
      cannot break. */
  lemma MoveLosesNothing(c: Config)
    ensures (forall s :: Reachable(c, s) && s.src.deleted ==> UpToDate(c, s)) <==> !Fragile(c)
  {
    if Fragile(c) {
      var s := MoveLoses(c);
    } else {
      forall s | Reachable(c, s) && s.src.deleted ensures UpToDate(c, s) {
        MoveKeepsACopy(c, s);
        if s.src.broke {
          OnlyFragileBreaks(c, s);
        }
      }
    }
  }
}
