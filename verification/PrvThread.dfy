/**
 * Translation of one thread: the records of the merged stream become Dimemas records.
 *
 * `OnEvent`, `OnComm` and `EndBatch` say what one call does to the state; the methods of `Translator` do it to
 * fields.  Event types are the numbers of the trace; what an MPI call or a collective is, is left to tables.
 */
module PrvThread {
  import opened PrvSplit

  // ----- records and tables

  const TWO_TO_64: int := 0x1_0000_0000_0000_0000

  /** Times are unsigned 64-bit numbers. */
  type Time = t: int | 0 <= t < TWO_TO_64

  /** Their subtraction, which wraps around. */
  function Elapsed(start: Time, end: Time): Time {
    if start <= end then end - start else end - start + TWO_TO_64
  }

  const MPI_PTOP: int := 50000001
  const MPI_COLLECTIVE: int := 50000002
  const MPI_OTHER: int := 50000003
  const MPI_RMA: int := 50000004
  const OP_SENDSIZE: int := 50100001
  const OP_RECVSIZE: int := 50100002
  const OP_ROOT: int := 50100003
  const OP_COMM: int := 50100004
  const USER_FUNCTION: int := 60000019
  const USER_CALL: int := 60000020
  const USER_BLOCK: int := 60000021
  const FLUSHING: int := 40000003
  const PROBE_COUNTER: int := 50000300
  const PROBE_TIME_COUNTER: int := 50000301
  const TEST_COUNTER: int := 50000080
  const WAIT_CALL: int := 5
  const INIT_CALL: int := 31

  predicate IsMpi(t: int) { t == MPI_PTOP || t == MPI_COLLECTIVE || t == MPI_OTHER || t == MPI_RMA }

  predicate IsUser(t: int) { t == USER_FUNCTION || t == USER_CALL || t == USER_BLOCK }

  /** Pseudo receive events, which are taken out and written back later. */
  predicate IsPseudo(t: int) { 9 <= t <= 16 }

  datatype Record =
    | Event(time: Time, eventType: int, value: int)
    | Comm(time: Time, kind: Kind, partner: int, size: int, tag: int, commId: int)

  predicate IsMpiBegin(r: Record) { r.Event? && IsMpi(r.eventType) && r.value != 0 }

  predicate IsMpiEnd(r: Record) { r.Event? && IsMpi(r.eventType) && r.value == 0 }

  /** The MPI calls that the translation of communications tells apart. */
  datatype Call =
    | RecvCall | SendCall | ImmediateSendCall | ReadySendCall | ImmediateRecvCall
    | WaitCall | WaitManyCall | SendRecvCall | StartCall | OtherCall

  /** Identity of the thread, options, and the constant tables of MPI calls and collectives. */
  datatype Setup = Setup(task: int, thread: int, initBarrier: bool, simulated: bool,
                         callOf: int -> Call, operationOf: int -> int)

  datatype GlobalOp = GlobalOp(
    task: int, thread: int, operation: int, comm: int, root: bool, sendSize: int, recvSize: int)

  /** Collectives above number 16 are the asynchronous ones. */
  predicate IsAsync(g: GlobalOp) { 16 < g.operation }

  datatype CommOp = NxRecv | NxIrecv | NxSend | NxBlockingSend | NxImmediateSend | NxImmediateReadySend | NxWait

  datatype Block = Block(eventType: int, value: int)

  /** Records of the output file. */
  datatype Out =
    | Burst(duration: Time)
    | BlockBegin(eventType: int, value: int)
    | BlockEnd(eventType: int)
    | UserEvent(eventType: int, value: int)
    | PointToPoint(op: CommOp, partner: int, size: int, tag: int, commId: int)
    | Collective(g: GlobalOp)
    | CollectiveWait(g: GlobalOp)
    | InitBarrier
    | Noop

  datatype State = State(
    out: seq<Out>,
    mpiStack: seq<Block>, userStack: seq<Block>, lastBlockEnd: Time,
    printed: bool, waitWithComm: bool,
    pending: bool, partial: GlobalOp, fields: nat, inFlight: seq<GlobalOp>,
    pseudo: int, outside: bool, wrong: bool, nonDeterministic: bool, barrierWritten: bool)

  function Emit(s: State, records: seq<Out>): State { s.(out := s.out + records) }

  /** GenerateBurst: the time since the last block end, in trace units. */
  function WithBurst(s: State, time: Time): State { Emit(s, [Burst(Elapsed(s.lastBlockEnd, time))]) }

  // ----- events

  predicate IsField(t: int) { t == OP_SENDSIZE || t == OP_RECVSIZE || t == OP_ROOT || t == OP_COMM }

  function WithField(g: GlobalOp, eventType: int, value: int): GlobalOp {
    if eventType == OP_SENDSIZE then g.(sendSize := value)
    else if eventType == OP_RECVSIZE then g.(recvSize := value)
    else if eventType == OP_ROOT then if value == 1 then g.(root := true) else g
    else if eventType == OP_COMM then g.(comm := value)
    else g
  }

  /** Event2GlobalOp: the fields of a collective arrive as events. */
  function CollectField(s: State, eventType: int, value: int): State {
    if s.pending && IsField(eventType) then
      s.(partial := WithField(s.partial, eventType, value), fields := s.fields + 1)
    else s
  }

  function StartCollective(c: Setup, s: State, eventType: int, value: int): State {
    if eventType == MPI_COLLECTIVE && value != 0 then
      s.(pending := true, fields := 1,
         partial := GlobalOp(c.task, c.thread, c.operationOf(value), 0, false, 0, 0))
    else s
  }

  function WithCollective(c: Setup, s: State, eventType: int, value: int): State {
    StartCollective(c, CollectField(s, eventType, value), eventType, value)
  }

  /** Events that do not cut a burst in two. */
  predicate KeepsBurst(t: int) { t == FLUSHING || t == PROBE_COUNTER || t == PROBE_TIME_COUNTER }

  function GenericEvent(s: State, time: Time, eventType: int, value: int): State {
    var breaks := (s.lastBlockEnd != time || (s.lastBlockEnd == 0 && time == 0))
                  && s.mpiStack == [] && !KeepsBurst(eventType);
    var s1 := if breaks then WithBurst(s, time).(lastBlockEnd := time) else s;
    Emit(s1, [UserEvent(eventType, value)])
  }

  /** A burst up to `time`, if any time has passed. */
  function UpTo(s: State, time: Time): State { if s.lastBlockEnd < time then WithBurst(s, time) else s }

  function OpenMpi(s: State, eventType: int, value: int): State {
    Emit(s, [BlockBegin(eventType, value)]).(
      mpiStack := s.mpiStack + [Block(eventType, value)], printed := false,
      waitWithComm := if value == WAIT_CALL then false else s.waitWithComm)
  }

  // Before the end of a block: a barrier for MPI_Init, a wait for the oldest asynchronous collective, a no-operation.

  function AfterBarrier(c: Setup, s: State, value: int): State {
    if value == INIT_CALL && c.initBarrier then Emit(s, [InitBarrier]).(printed := true, barrierWritten := true) else s
  }

  function AfterWait(s: State, value: int): State {
    if value == WAIT_CALL && !s.waitWithComm && s.inFlight != [] then
      Emit(s, [CollectiveWait(s.inFlight[0])]).(inFlight := s.inFlight[1..])
    else s
  }

  function AfterNoop(s: State): State { if s.printed then s else Emit(s, [Noop]) }

  function BeforeEnd(c: Setup, s: State): State
    requires s.mpiStack != []
  {
    var value := s.mpiStack[|s.mpiStack| - 1].value;
    AfterNoop(AfterWait(AfterBarrier(c, s, value), value))
  }

  function PopMpi(s: State, time: Time, eventType: int): State
    requires s.mpiStack != []
  {
    Emit(s, [BlockEnd(eventType)]).(mpiStack := s.mpiStack[..|s.mpiStack| - 1], lastBlockEnd := time)
  }

  function CloseMpi(c: Setup, s: State, time: Time, eventType: int): State
    requires s.mpiStack != []
  {
    PopMpi(BeforeEnd(c, s), time, eventType)
  }

  function OpenUser(s: State, time: Time, eventType: int, value: int): State {
    Emit(s, [BlockBegin(eventType, value)]).(
      lastBlockEnd := time, userStack := s.userStack + [Block(eventType, value)])
  }

  function CloseUser(s: State, time: Time, eventType: int): State
    requires s.userStack != []
  {
    Emit(s, [BlockEnd(eventType)]).(lastBlockEnd := time, userStack := s.userStack[..|s.userStack| - 1])
  }

  function MpiEvent(c: Setup, s: State, time: Time, eventType: int, value: int): State {
    if value != 0 then OpenMpi(UpTo(s, time), eventType, value)
    else if s.mpiStack == [] then s
    else CloseMpi(c, s, time, eventType)
  }

  function UserBlockEvent(s: State, time: Time, eventType: int, value: int): State {
    if value != 0 then OpenUser(UpTo(s, time), time, eventType, value)
    else if s.userStack == [] then s
    else CloseUser(UpTo(s, time), time, eventType)
  }

  function BlockOrGeneric(c: Setup, s: State, time: Time, eventType: int, value: int): State {
    if IsMpi(eventType) then MpiEvent(c, s, time, eventType, value)
    else if IsUser(eventType) then UserBlockEvent(s, time, eventType, value)
    else GenericEvent(s, time, eventType, value)
  }

  /** ToDimemas for an event. */
  function OnEvent(c: Setup, s: State, e: Record): State
    requires e.Event?
  {
    if IsPseudo(e.eventType) then s.(pseudo := s.pseudo + 1)
    else
      BlockOrGeneric(c, WithCollective(c, s, e.eventType, e.value), e.time, e.eventType, e.value)
  }

  // ----- communications

  /** What a communication endpoint means inside a call. */
  datatype Action = Skip | Wrong | Print(op: CommOp, primitive: bool)

  function ActionOf(call: Call, kind: Kind): Action {
    match call
    case RecvCall =>
      (match kind case LogicalRecv => Print(NxRecv, true) case PhysicalRecv => Skip case _ => Wrong)
    case SendCall =>
      (match kind
       case LogicalSend => Print(NxBlockingSend, true)
       case PhysicalRecv => Print(NxWait, false)
       case _ => Wrong)
    case ImmediateSendCall =>
      (match kind
       case LogicalSend => Print(NxImmediateSend, true)
       case PhysicalRecv => Print(NxWait, false)
       case _ => Wrong)
    case ReadySendCall =>
      (match kind
       case LogicalSend => Print(NxImmediateReadySend, true)
       case PhysicalRecv => Print(NxWait, false)
       case _ => Wrong)
    case ImmediateRecvCall =>
      (match kind case LogicalRecv => Print(NxIrecv, true) case PhysicalRecv => Skip case _ => Wrong)
    case WaitCall =>
      (match kind case PhysicalRecv => Print(NxWait, true) case LogicalRecv => Skip case _ => Wrong)
    case WaitManyCall =>
      (match kind case PhysicalRecv => Print(NxWait, true) case LogicalRecv => Skip case _ => Wrong)
    case SendRecvCall =>
      (match kind
       case LogicalRecv => Print(NxIrecv, true)
       case LogicalSend => Print(NxSend, true)
       case PhysicalRecv => Print(NxWait, true)
       case PhysicalSend => Skip)
    case StartCall =>
      (match kind
       case LogicalSend => Print(NxBlockingSend, true)
       case LogicalRecv => Print(NxIrecv, true)
       case _ => Skip)
    case OtherCall => Skip
  }

  function KindNumber(k: Kind): int {
    match k case LogicalSend => 0 case PhysicalSend => 1 case LogicalRecv => 2 case PhysicalRecv => 3
  }

  function Partner(c: Setup, r: Record): int
    requires r.Comm?
  {
    if c.simulated then r.partner else r.partner - 1
  }

  /** PrintPseudoCommunicationEndpoint: written back for endpoints that came from pseudo events. */
  function PseudoEvents(s: State, partner: int, r: Record): seq<Out>
    requires r.Comm?
  {
    if 0 < s.pseudo then
      [UserEvent(9, KindNumber(r.kind)), UserEvent(10, partner), UserEvent(12, r.size), UserEvent(13, r.tag),
       UserEvent(14, r.commId)]
    else []
  }

  function PrintComm(c: Setup, s: State, call: Call, op: CommOp, primitive: bool, r: Record): State
    requires r.Comm?
  {
    Emit(s, PseudoEvents(s, Partner(c, r), r) + [PointToPoint(op, Partner(c, r), r.size, r.tag, r.commId)]).(
      pseudo := if 0 < s.pseudo then s.pseudo - 1 else s.pseudo,
      printed := s.printed || primitive,
      waitWithComm := s.waitWithComm || call.WaitCall?,
      nonDeterministic := s.nonDeterministic || call.WaitManyCall?)
  }

  function Act(c: Setup, s: State, call: Call, r: Record): State
    requires r.Comm?
  {
    match ActionOf(call, r.kind)
    case Skip => s
    case Wrong => s.(wrong := true)
    case Print(op, primitive) => PrintComm(c, s, call, op, primitive, r)
  }

  /** ToDimemas for a communication endpoint. */
  function OnComm(c: Setup, s: State, r: Record): State
    requires r.Comm?
  {
    if s.mpiStack == [] then s.(outside := true) else Act(c, s, c.callOf(s.mpiStack[|s.mpiStack| - 1].value), r)
  }

  function OnRecord(c: Setup, s: State, r: Record): State {
    if r.Event? then OnEvent(c, s, r) else OnComm(c, s, r)
  }

  function OnRecords(c: Setup, s: State, rs: seq<Record>): State {
    if rs == [] then s else OnRecord(c, OnRecords(c, s, rs[..|rs| - 1]), rs[|rs| - 1])
  }

  lemma OneMoreRecord(c: Setup, s: State, rs: seq<Record>, i: nat)
    requires i < |rs|
    ensures OnRecords(c, s, rs[..i + 1]) == OnRecord(c, OnRecords(c, s, rs[..i]), rs[i])
  {
    assert rs[..i + 1][..i] == rs[..i];
  }

  /** FinalizeGlobalOp: a collective is written once one of its fields has been seen. */
  function EndBatch(s: State): State {
    if s.pending && 2 <= s.fields then
      Emit(s, [Collective(s.partial)]).(
        inFlight := if IsAsync(s.partial) then s.inFlight + [s.partial] else s.inFlight,
        pending := false, fields := 0)
    else s.(pending := false)
  }

  /** The batches of records that share a time, in the order they were translated. */
  function OnBatches(c: Setup, s: State, batches: seq<seq<Record>>): State {
    if batches == [] then s
    else EndBatch(OnRecords(c, OnBatches(c, s, batches[..|batches| - 1]), batches[|batches| - 1]))
  }

  lemma OneMoreBatch(c: Setup, s: State, batches: seq<seq<Record>>, batch: seq<Record>)
    ensures OnBatches(c, s, batches + [batch]) == EndBatch(OnRecords(c, OnBatches(c, s, batches), batch))
  {
    assert (batches + [batch])[..|batches|] == batches;
  }

  /** What the constructor of a host thread writes: the first thread of a task starts with an empty burst. */
  function FirstRecords(c: Setup, emptyTask: bool, firstIdle: bool, initialTime: Time): seq<Out> {
    (if c.thread == 1 then [Burst(0)] else [])
    + (if !emptyTask && firstIdle && c.thread == 1 then [BlockBegin(0, 1), Burst(initialTime), BlockEnd(0)] else [])
  }

  /** The constructor. */
  function NewState(c: Setup, emptyTask: bool, firstIdle: bool, initialTime: Time): State {
    State(FirstRecords(c, emptyTask, firstIdle, initialTime), [], [],
          if !emptyTask && (!firstIdle || c.thread == 1) then initialTime else 0,
          false, false, false, GlobalOp(0, 0, 0, 0, false, 0, 0), 0, [], 0,
          false, false, false, false)
  }
}
