/**
 The messages the interface switches on, spread onto the flat record that crosses the boundary and
 put back together from one.
 */
module WireMessages {
  import opened Wrappers
  import opened Bytes
  import opened ArenaText

  type Int64 = n: int | -0x8000_0000_0000_0000 <= n < 0x8000_0000_0000_0000
  type Int32 = n: int | -0x8000_0000 <= n < 0x8000_0000
  type UInt64 = n: int | 0 <= n < 0x1_0000_0000_0000_0000
  type UInt32 = Word
  type UInt16 = n: int | 0 <= n < 0x1_0000
  type UInt8 = Byte
  type Uuid = u: seq<Byte> | |u| == 16 witness NIL
  type Utf8 = seq<Byte>

  const NIL: seq<Byte> := [0, 0, 0, 0, 0, 0, 0, 0, 0, 0, 0, 0, 0, 0, 0, 0]

  datatype CommandStatus = Running | Idle(exitCode: Option<Int32>, durationMS: UInt32)

  datatype GitStatus = GitStatus(
    repoRoot: Utf8, branch: Utf8, ahead: Int32, behind: Int32, stashCount: Int32,
    staged: UInt32, modified: UInt32, untracked: UInt32, conflicted: UInt32, changedCount: UInt32)

  datatype Message =
    | Output(seqNumber: Int64, bytes: seq<Byte>)
    | Exit(code: Int32)
    | Input(bytes: seq<Byte>)
    | Hello(protocolVersion: UInt16, sessionID: Uuid, lastReceivedSeq: Int64)
    | Resize(cols: UInt16, rows: UInt16, pxWidth: UInt16, pxHeight: UInt16)
    | Ack(seqNumber: Int64)
    | Bye
    | Ping(timestampMS: UInt64)
    | RequestBlockOutput(index: UInt32)
    | MetadataRequest(requestID: UInt32, verb: UInt8, payload: seq<Byte>)
    | WorkspaceRequest(requestSeq: UInt32, verb: UInt8, payload: seq<Byte>)
    | HelloAck(sessionID: Uuid, resumeFromSeq: Int64, returningClient: bool)
    | Title(text: Utf8)
    | Bell
    | Command(status: CommandStatus)
    | Pong(timestampMS: UInt64)
    | Notification(title: Utf8, body: Utf8)
    | ForegroundProcess(text: Utf8)
    | ClaudeStatus(state: UInt8, kind: UInt8, text: Utf8)
    | CommandBlock(index: UInt32, exitCode: Option<Int32>, durationMS: Option<UInt32>, complete: bool,
                   outputLen: UInt32, text: Utf8, promptOrdinal: UInt32)
    | BlockOutput(index: UInt32, output: seq<Byte>)
    | MetadataResponse(requestID: UInt32, status8: UInt8, payload: seq<Byte>)
    | InputEcho(enabled: bool)
    | Progress(state: UInt8, percent: UInt8)
    | Cwd(text: Utf8)
    | ProjectKey(text: Utf8)
    | ProjectGitStatus(git: GitStatus)
    | AgentSessionIntent(text: Utf8)
    | WorkspaceEvent(kind: UInt8, epoch: Uuid, baseStateNum: Int64, newStateNum: Int64, payload: seq<Byte>)

  function MessageType(m: Message): UInt8 {
    match m
    case Output(_, _) => 1
    case Exit(_) => 2
    case Input(_) => 3
    case Hello(_, _, _) => 10
    case Resize(_, _, _, _) => 11
    case Ack(_) => 12
    case Bye => 13
    case Ping(_) => 14
    case RequestBlockOutput(_) => 15
    case MetadataRequest(_, _, _) => 16
    case WorkspaceRequest(_, _, _) => 17
    case HelloAck(_, _, _) => 20
    case Title(_) => 21
    case Bell => 22
    case Command(_) => 23
    case Pong(_) => 24
    case Notification(_, _) => 25
    case ForegroundProcess(_) => 26
    case ClaudeStatus(_, _, _) => 27
    case CommandBlock(_, _, _, _, _, _, _) => 28
    case BlockOutput(_, _) => 29
    case MetadataResponse(_, _, _) => 30
    case InputEcho(_) => 31
    case Progress(_, _) => 32
    case Cwd(_) => 33
    case ProjectKey(_) => 34
    case ProjectGitStatus(_) => 35
    case AgentSessionIntent(_) => 36
    case WorkspaceEvent(_, _, _, _, _) => 37
  }

  /** The record that crosses: one field for whatever any message has, all zero until it is set. */
  datatype Flat = Flat(
    messageType: UInt8,
    seqNumber: Int64, lastReceivedSeq: Int64, resumeFromSeq: Int64, baseStateNum: Int64, newStateNum: Int64,
    timestampMS: UInt64,
    exitCode: Int32, hasExitCode: bool, ahead: Int32, behind: Int32, stashCount: Int32,
    index: UInt32, durationMS: UInt32, hasDurationMS: bool, outputLen: UInt32, promptOrdinal: UInt32,
    requestID: UInt32, requestSeq: UInt32,
    staged: UInt32, modified: UInt32, untracked: UInt32, conflicted: UInt32, changedCount: UInt32,
    textA: Pair, textB: Pair,
    protocolVersion: UInt16, cols: UInt16, rows: UInt16, pxWidth: UInt16, pxHeight: UInt16,
    commandStatus: UInt8, verb: UInt8, status: UInt8, state: UInt8, kind: UInt8, percent: UInt8,
    returningClient: bool, complete: bool, enabled: bool,
    sessionID: Uuid, epoch: Uuid)

  const ZERO: Flat := Flat(
    0, 0, 0, 0, 0, 0, 0, 0, false, 0, 0, 0, 0, 0, false, 0, 0, 0, 0, 0, 0, 0, 0, 0,
    Pair(0, 0), Pair(0, 0), 0, 0, 0, 0, 0, 0, 0, 0, 0, 0, 0, false, false, false, NIL, NIL)

  function When<T>(has: bool, value: T): Option<T> {
    if has then Some(value) else None
  }

  function Or<T>(value: Option<T>, otherwise: T): T {
    match value
    case Some(v) => v
    case None => otherwise
  }

  // ---- Rebuilding ----

  /** The message a record stands for; none for a type this build does not know. `repair` decodes text. */
  function Build(flat: Flat, arena: seq<Byte>, blob: seq<Byte>, repair: seq<Byte> -> seq<Byte>): Option<Message> {
    var first := Text(arena, flat.textA.offset, flat.textA.length, repair);
    var second := Text(arena, flat.textB.offset, flat.textB.length, repair);
    match flat.messageType
    case 1 => Some(Output(flat.seqNumber, blob))
    case 2 => Some(Exit(flat.exitCode))
    case 3 => Some(Input(blob))
    case 10 => Some(Hello(flat.protocolVersion, flat.sessionID, flat.lastReceivedSeq))
    case 11 => Some(Resize(flat.cols, flat.rows, flat.pxWidth, flat.pxHeight))
    case 12 => Some(Ack(flat.seqNumber))
    case 13 => Some(Bye)
    case 14 => Some(Ping(flat.timestampMS))
    case 15 => Some(RequestBlockOutput(flat.index))
    case 16 => Some(MetadataRequest(flat.requestID, flat.verb, blob))
    case 17 => Some(WorkspaceRequest(flat.requestSeq, flat.verb, blob))
    case 20 => Some(HelloAck(flat.sessionID, flat.resumeFromSeq, flat.returningClient))
    case 21 => Some(Title(first))
    case 22 => Some(Bell)
    case 23 =>
      Some(Command(if flat.commandStatus == 0 then Running else Idle(When(flat.hasExitCode, flat.exitCode), flat.durationMS)))
    case 24 => Some(Pong(flat.timestampMS))
    case 25 => Some(Notification(first, second))
    case 26 => Some(ForegroundProcess(first))
    case 27 => Some(ClaudeStatus(flat.state, flat.kind, first))
    case 28 =>
      Some(CommandBlock(flat.index, When(flat.hasExitCode, flat.exitCode), When(flat.hasDurationMS, flat.durationMS),
                        flat.complete, flat.outputLen, first, flat.promptOrdinal))
    case 29 => Some(BlockOutput(flat.index, blob))
    case 30 => Some(MetadataResponse(flat.requestID, flat.status, blob))
    case 31 => Some(InputEcho(flat.enabled))
    case 32 => Some(Progress(flat.state, flat.percent))
    case 33 => Some(Cwd(first))
    case 34 => Some(ProjectKey(first))
    case 35 =>
      Some(ProjectGitStatus(GitStatus(first, second, flat.ahead, flat.behind, flat.stashCount, flat.staged, flat.modified,
                                      flat.untracked, flat.conflicted, flat.changedCount)))
    case 36 => Some(AgentSessionIntent(first))
    case 37 => Some(WorkspaceEvent(flat.kind, flat.epoch, flat.baseStateNum, flat.newStateNum, blob))
    case _ => None
  }

  predicate Claimed(messageType: UInt8) {
    1 <= messageType <= 3 || 10 <= messageType <= 17 || 20 <= messageType <= 37
  }

  /** A record is read as a message of its own type, and refused exactly when no message has that type. */
  lemma BuildKeepsType(flat: Flat, arena: seq<Byte>, blob: seq<Byte>, repair: seq<Byte> -> seq<Byte>)
    ensures Build(flat, arena, blob, repair).Some? <==> Claimed(flat.messageType)
    ensures Build(flat, arena, blob, repair).Some? ==> MessageType(Build(flat, arena, blob, repair).value) == flat.messageType
  {
    hide Text;
  }

  // ---- The record, kind by kind ----

  /** The fields of the record that a message's kind fills, and its number on the wire. Texts and the run aside. */
  ghost predicate Recorded(m: Message, flat: Flat) {
    match m
    case Output(seqNumber, _) => flat.messageType == 1 && flat.seqNumber == seqNumber
    case Exit(code) => flat.messageType == 2 && flat.exitCode == code && flat.hasExitCode
    case Input(_) => flat.messageType == 3
    case Hello(version, sessionID, lastReceivedSeq) =>
      flat.messageType == 10 && flat.protocolVersion == version && flat.sessionID == sessionID && flat.lastReceivedSeq == lastReceivedSeq
    case Resize(cols, rows, pxWidth, pxHeight) =>
      flat.messageType == 11 && flat.cols == cols && flat.rows == rows && flat.pxWidth == pxWidth && flat.pxHeight == pxHeight
    case Ack(seqNumber) => flat.messageType == 12 && flat.seqNumber == seqNumber
    case Bye => flat.messageType == 13
    case Ping(timestampMS) => flat.messageType == 14 && flat.timestampMS == timestampMS
    case RequestBlockOutput(index) => flat.messageType == 15 && flat.index == index
    case MetadataRequest(requestID, verb, _) => flat.messageType == 16 && flat.requestID == requestID && flat.verb == verb
    case WorkspaceRequest(requestSeq, verb, _) => flat.messageType == 17 && flat.requestSeq == requestSeq && flat.verb == verb
    case HelloAck(sessionID, resumeFromSeq, returning) =>
      flat.messageType == 20 && flat.sessionID == sessionID && flat.resumeFromSeq == resumeFromSeq && flat.returningClient == returning
    case Title(_) => flat.messageType == 21
    case Bell => flat.messageType == 22
    case Command(Running) => flat.messageType == 23 && flat.commandStatus == 0
    case Command(Idle(exitCode, durationMS)) =>
      && flat.messageType == 23 && flat.commandStatus == 1 && flat.durationMS == durationMS && flat.hasDurationMS
      && flat.hasExitCode == exitCode.Some? && flat.exitCode == (if exitCode.Some? then exitCode.value else 0)
    case Pong(timestampMS) => flat.messageType == 24 && flat.timestampMS == timestampMS
    case Notification(_, _) => flat.messageType == 25
    case ForegroundProcess(_) => flat.messageType == 26
    case ClaudeStatus(state, kind, _) => flat.messageType == 27 && flat.state == state && flat.kind == kind
    case CommandBlock(index, exitCode, durationMS, complete, outputLen, _, promptOrdinal) =>
      && flat.messageType == 28 && flat.index == index && flat.complete == complete && flat.outputLen == outputLen
      && flat.promptOrdinal == promptOrdinal
      && flat.hasExitCode == exitCode.Some? && flat.exitCode == (if exitCode.Some? then exitCode.value else 0)
      && flat.hasDurationMS == durationMS.Some? && flat.durationMS == (if durationMS.Some? then durationMS.value else 0)
    case BlockOutput(index, _) => flat.messageType == 29 && flat.index == index
    case MetadataResponse(requestID, status, _) => flat.messageType == 30 && flat.requestID == requestID && flat.status == status
    case InputEcho(enabled) => flat.messageType == 31 && flat.enabled == enabled
    case Progress(state, percent) => flat.messageType == 32 && flat.state == state && flat.percent == percent
    case Cwd(_) => flat.messageType == 33
    case ProjectKey(_) => flat.messageType == 34
    case ProjectGitStatus(git) =>
      && flat.messageType == 35 && flat.ahead == git.ahead && flat.behind == git.behind && flat.stashCount == git.stashCount
      && flat.staged == git.staged && flat.modified == git.modified && flat.untracked == git.untracked
      && flat.conflicted == git.conflicted && flat.changedCount == git.changedCount
    case AgentSessionIntent(_) => flat.messageType == 36
    case WorkspaceEvent(kind, epoch, baseStateNum, newStateNum, _) =>
      flat.messageType == 37 && flat.kind == kind && flat.epoch == epoch && flat.baseStateNum == baseStateNum && flat.newStateNum == newStateNum
  }

  /** The opaque run a message ends in. */
  ghost predicate RunIs(m: Message, blob: seq<Byte>) {
    match m
    case Output(_, bytes) => blob == bytes
    case Input(bytes) => blob == bytes
    case MetadataRequest(_, _, payload) => blob == payload
    case WorkspaceRequest(_, _, payload) => blob == payload
    case BlockOutput(_, output) => blob == output
    case MetadataResponse(_, _, payload) => blob == payload
    case WorkspaceEvent(_, _, _, _, payload) => blob == payload
    case _ => blob == []
  }

  /** The texts a message writes into the arena, in their order, and the pairs that name them. */
  ghost predicate Written(m: Message, was: seq<Byte>, now: seq<Byte>, flat: Flat) {
    match m
    case Title(text) => now == was + text && flat.textA == Named(was, text)
    case ForegroundProcess(text) => now == was + text && flat.textA == Named(was, text)
    case ClaudeStatus(_, _, text) => now == was + text && flat.textA == Named(was, text)
    case CommandBlock(_, _, _, _, _, text, _) => now == was + text && flat.textA == Named(was, text)
    case Cwd(text) => now == was + text && flat.textA == Named(was, text)
    case ProjectKey(text) => now == was + text && flat.textA == Named(was, text)
    case AgentSessionIntent(text) => now == was + text && flat.textA == Named(was, text)
    case Notification(title, body) =>
      now == was + title + body && flat.textA == Named(was, title) && flat.textB == Named(was + title, body)
    case ProjectGitStatus(git) =>
      now == was + git.repoRoot + git.branch && flat.textA == Named(was, git.repoRoot) && flat.textB == Named(was + git.repoRoot, git.branch)
    case _ => now == was
  }

  // ---- Flattening ----

  /** The texts of a message, in the order they are written. */
  function Texts(m: Message): seq<Utf8> {
    match m
    case Title(text) => [text]
    case ForegroundProcess(text) => [text]
    case ClaudeStatus(_, _, text) => [text]
    case CommandBlock(_, _, _, _, _, text, _) => [text]
    case Cwd(text) => [text]
    case ProjectKey(text) => [text]
    case AgentSessionIntent(text) => [text]
    case Notification(title, body) => [title, body]
    case ProjectGitStatus(git) => [git.repoRoot, git.branch]
    case _ => []
  }

  /** Every text is well formed, starts where an offset can say, and has a length a pair can hold. */
  predicate Fits(m: Message, start: nat, repair: seq<Byte> -> seq<Byte>) {
    var texts := Texts(m);
    && repair([]) == []
    && (forall i :: 0 <= i < |texts| ==> |texts[i]| < WORD_LIMIT && repair(texts[i]) == texts[i])
    && (texts != [] ==> start < WORD_LIMIT)
    && (|texts| == 2 ==> start + |texts[0]| < WORD_LIMIT)
  }

  method InternFirst(text: Utf8, arena: Arena, flat: Flat) returns (next: Flat)
    requires arena.Valid()
    modifies arena
    ensures arena.Valid() && arena.data == old(arena.data) + text
    ensures next == flat.(textA := Named(old(arena.data), text))
  {
    var pair := arena.Intern(text);
    next := flat.(textA := pair);
  }

  method InternSecond(text: Utf8, arena: Arena, flat: Flat) returns (next: Flat)
    requires arena.Valid()
    modifies arena
    ensures arena.Valid() && arena.data == old(arena.data) + text
    ensures next == flat.(textB := Named(old(arena.data), text))
  {
    var pair := arena.Intern(text);
    next := flat.(textB := pair);
  }

  /** What a pair reads, with the rest of the arena after it. */
  lemma TextBack(arena: seq<Byte>, text: Utf8, more: seq<Byte>, repair: seq<Byte> -> seq<Byte>)
    requires |arena| < WORD_LIMIT && |text| < WORD_LIMIT && repair(text) == text
    ensures var pair := Named(arena, text);
            Text(arena + text + more, pair.offset, pair.length, repair) == text
  {
    InternReadsBack(arena, text, more);
  }

  /** One text, as every message with one is written. */
  lemma OneTextBack(was: seq<Byte>, m: Message, repair: seq<Byte> -> seq<Byte>, textA: Pair, text: Utf8)
    requires Texts(m) == [text] && textA == Named(was, text) && Fits(m, |was|, repair)
    ensures Text(was + text, textA.offset, textA.length, repair) == text
  {
    assert |Texts(m)| == 1 && Texts(m)[0] == text;
    TextBack(was, text, [], repair);
    assert was + text + [] == was + text;
  }

  lemma TwoTextsBack(was: seq<Byte>, m: Message, repair: seq<Byte> -> seq<Byte>, a: Pair, b: Pair, first: Utf8, second: Utf8)
    requires Texts(m) == [first, second] && a == Named(was, first) && b == Named(was + first, second) && Fits(m, |was|, repair)
    ensures Text(was + first + second, a.offset, a.length, repair) == first
    ensures Text(was + first + second, b.offset, b.length, repair) == second
  {
    assert |Texts(m)| == 2 && Texts(m)[0] == first && Texts(m)[1] == second;
    TextBack(was, first, second, repair);
    TextBack(was + first, second, [], repair);
    assert was + first + second + [] == was + first + second;
  }

  predicate CarriesRun(m: Message) {
    m.Output? || m.Input? || m.BlockOutput? || m.MetadataRequest? || m.MetadataResponse? || m.WorkspaceRequest? || m.WorkspaceEvent?
  }

  method FlattenRun(m: Message) returns (flat: Flat, blob: seq<Byte>)
    requires CarriesRun(m)
    ensures flat.messageType == MessageType(m) && Recorded(m, flat) && RunIs(m, blob)
    ensures forall arena: seq<Byte>, repair: seq<Byte> -> seq<Byte> :: Build(flat, arena, blob, repair) == Some(m)
  {
    hide Text;
    flat := ZERO.(messageType := MessageType(m));
    match m
    case Output(seqNumber, bytes) =>
      flat := flat.(seqNumber := seqNumber);
      blob := bytes;
    case Input(bytes) =>
      blob := bytes;
    case BlockOutput(index, output) =>
      flat := flat.(index := index);
      blob := output;
    case MetadataRequest(requestID, verb, payload) =>
      flat := flat.(requestID := requestID, verb := verb);
      blob := payload;
    case MetadataResponse(requestID, status, payload) =>
      flat := flat.(requestID := requestID, status := status);
      blob := payload;
    case WorkspaceRequest(requestSeq, verb, payload) =>
      flat := flat.(requestSeq := requestSeq, verb := verb);
      blob := payload;
    case WorkspaceEvent(kind, epoch, baseStateNum, newStateNum, payload) =>
      flat := flat.(kind := kind, epoch := epoch, baseStateNum := baseStateNum, newStateNum := newStateNum);
      blob := payload;
  }

  method FlattenFields(m: Message) returns (flat: Flat)
    requires !CarriesRun(m) && Texts(m) == []
    ensures flat.messageType == MessageType(m) && Recorded(m, flat)
    ensures forall arena: seq<Byte>, blob: seq<Byte>, repair: seq<Byte> -> seq<Byte> :: Build(flat, arena, blob, repair) == Some(m)
  {
    hide Text;
    flat := ZERO.(messageType := MessageType(m));
    match m
    case Exit(code) =>
      flat := flat.(exitCode := code, hasExitCode := true);
    case Hello(protocolVersion, sessionID, lastReceivedSeq) =>
      flat := flat.(protocolVersion := protocolVersion, sessionID := sessionID, lastReceivedSeq := lastReceivedSeq);
    case Resize(cols, rows, pxWidth, pxHeight) =>
      flat := flat.(cols := cols, rows := rows, pxWidth := pxWidth, pxHeight := pxHeight);
    case Ack(seqNumber) =>
      flat := flat.(seqNumber := seqNumber);
    case Bye =>
    case Bell =>
    case Ping(timestampMS) =>
      flat := flat.(timestampMS := timestampMS);
    case Pong(timestampMS) =>
      flat := flat.(timestampMS := timestampMS);
    case RequestBlockOutput(index) =>
      flat := flat.(index := index);
    case HelloAck(sessionID, resumeFromSeq, returningClient) =>
      flat := flat.(sessionID := sessionID, resumeFromSeq := resumeFromSeq, returningClient := returningClient);
    case Command(Running) =>
      flat := flat.(commandStatus := 0);
    case Command(Idle(exitCode, durationMS)) =>
      flat := flat.(commandStatus := 1, hasExitCode := exitCode.Some?, exitCode := Or(exitCode, 0),
                    durationMS := durationMS, hasDurationMS := true);
    case InputEcho(enabled) =>
      flat := flat.(enabled := enabled);
    case Progress(state, percent) =>
      flat := flat.(state := state, percent := percent);
  }

  predicate BareText(m: Message) {
    m.Title? || m.Cwd? || m.ProjectKey? || m.AgentSessionIntent? || m.ForegroundProcess?
  }

  method FlattenBareText(m: Message, arena: Arena, ghost repair: seq<Byte> -> seq<Byte>) returns (flat: Flat)
    requires BareText(m) && arena.Valid()
    modifies arena
    ensures arena.Valid() && old(arena.data) <= arena.data && Written(m, old(arena.data), arena.data, flat)
    ensures flat.messageType == MessageType(m) && Recorded(m, flat)
    ensures Fits(m, |old(arena.data)|, repair) ==> Build(flat, arena.data, [], repair) == Some(m)
  {
    hide Text, Named, Fits, Arena.Valid;
    ghost var was := arena.data;
    ghost var fits := Fits(m, |was|, repair);
    flat := ZERO.(messageType := MessageType(m));
    match m
    case Title(text) =>
      flat := InternFirst(text, arena, flat);
      if fits {
        OneTextBack(was, m, repair, flat.textA, text);
      }
    case Cwd(text) =>
      flat := InternFirst(text, arena, flat);
      if fits {
        OneTextBack(was, m, repair, flat.textA, text);
      }
    case ProjectKey(text) =>
      flat := InternFirst(text, arena, flat);
      if fits {
        OneTextBack(was, m, repair, flat.textA, text);
      }
    case AgentSessionIntent(text) =>
      flat := InternFirst(text, arena, flat);
      if fits {
        OneTextBack(was, m, repair, flat.textA, text);
      }
    case ForegroundProcess(text) =>
      flat := InternFirst(text, arena, flat);
      if fits {
        OneTextBack(was, m, repair, flat.textA, text);
      }
  }

  method FlattenOneText(m: Message, arena: Arena, ghost repair: seq<Byte> -> seq<Byte>) returns (flat: Flat)
    requires (m.ClaudeStatus? || m.CommandBlock?) && arena.Valid()
    modifies arena
    ensures arena.Valid() && old(arena.data) <= arena.data && Written(m, old(arena.data), arena.data, flat)
    ensures flat.messageType == MessageType(m) && Recorded(m, flat)
    ensures Fits(m, |old(arena.data)|, repair) ==> Build(flat, arena.data, [], repair) == Some(m)
  {
    hide Text, Named, Fits, Arena.Valid;
    ghost var was := arena.data;
    ghost var fits := Fits(m, |was|, repair);
    flat := ZERO.(messageType := MessageType(m));
    match m
    case ClaudeStatus(state, kind, caption) =>
      flat := flat.(state := state, kind := kind);
      flat := InternFirst(caption, arena, flat);
      if fits {
        OneTextBack(was, m, repair, flat.textA, caption);
      }
    case CommandBlock(index, exitCode, durationMS, complete, outputLen, commandText, promptOrdinal) =>
      flat := flat.(index := index, hasExitCode := exitCode.Some?, exitCode := Or(exitCode, 0),
                    hasDurationMS := durationMS.Some?, durationMS := Or(durationMS, 0),
                    complete := complete, outputLen := outputLen, promptOrdinal := promptOrdinal);
      flat := InternFirst(commandText, arena, flat);
      if fits {
        OneTextBack(was, m, repair, flat.textA, commandText);
      }
  }

  method FlattenTwoTexts(m: Message, arena: Arena, ghost repair: seq<Byte> -> seq<Byte>) returns (flat: Flat)
    requires (m.Notification? || m.ProjectGitStatus?) && arena.Valid()
    modifies arena
    ensures arena.Valid() && old(arena.data) <= arena.data && Written(m, old(arena.data), arena.data, flat)
    ensures flat.messageType == MessageType(m) && Recorded(m, flat)
    ensures Fits(m, |old(arena.data)|, repair) ==> Build(flat, arena.data, [], repair) == Some(m)
  {
    hide Text, Named, Fits, Arena.Valid;
    ghost var was := arena.data;
    ghost var fits := Fits(m, |was|, repair);
    flat := ZERO.(messageType := MessageType(m));
    match m
    case Notification(title, body) =>
      flat := InternFirst(title, arena, flat);
      flat := InternSecond(body, arena, flat);
      if fits {
        TwoTextsBack(was, m, repair, flat.textA, flat.textB, title, body);
      }
    case ProjectGitStatus(git) =>
      flat := InternFirst(git.repoRoot, arena, flat);
      flat := InternSecond(git.branch, arena, flat);
      flat := flat.(ahead := git.ahead, behind := git.behind, stashCount := git.stashCount, staged := git.staged,
                    modified := git.modified, untracked := git.untracked, conflicted := git.conflicted,
                    changedCount := git.changedCount);
      if fits {
        TwoTextsBack(was, m, repair, flat.textA, flat.textB, git.repoRoot, git.branch);
      }
  }

  method FlattenTexts(m: Message, arena: Arena, ghost repair: seq<Byte> -> seq<Byte>) returns (flat: Flat)
    requires Texts(m) != [] && arena.Valid()
    modifies arena
    ensures arena.Valid() && old(arena.data) <= arena.data && Written(m, old(arena.data), arena.data, flat)
    ensures flat.messageType == MessageType(m) && Recorded(m, flat)
    ensures Fits(m, |old(arena.data)|, repair) ==> Build(flat, arena.data, [], repair) == Some(m)
  {
    hide Build, Fits, Arena.Valid, Written, Recorded;
    if BareText(m) {
      flat := FlattenBareText(m, arena, repair);
    } else if m.ClaudeStatus? || m.CommandBlock? {
      flat := FlattenOneText(m, arena, repair);
    } else {
      flat := FlattenTwoTexts(m, arena, repair);
    }
  }

  /** Spreads a message over a record, the arena and the opaque run; what is built from them is the message again. */
  method Flatten(m: Message, arena: Arena, ghost repair: seq<Byte> -> seq<Byte>) returns (flat: Flat, blob: seq<Byte>)
    requires arena.Valid()
    modifies arena
    ensures arena.Valid() && old(arena.data) <= arena.data && Written(m, old(arena.data), arena.data, flat)
    ensures flat.messageType == MessageType(m) && Recorded(m, flat) && RunIs(m, blob)
    ensures Fits(m, |old(arena.data)|, repair) ==> Build(flat, arena.data, blob, repair) == Some(m)
  {
    hide Build, Fits, Recorded, Named;
    blob := [];
    if CarriesRun(m) {
      flat, blob := FlattenRun(m);
    } else if Texts(m) == [] {
      flat := FlattenFields(m);
    } else {
      flat := FlattenTexts(m, arena, repair);
    }
  }
}
