/** The proxy's request/response matching as a transition system: any number of client threads share
    the pending map, the id counter and the handshake, and one reader matches replies to calls. */
module JsonRpc {
  import opened Text

  /** A call is for the handshake or for a tools request. */
  datatype Kind = Handshake | Tools

  datatype Response = Response(id: int, isError: bool)

  /** How far one execution of `call` is. Its channel exists from registration on. */
  datatype CallStep = Allocated | Registered | Written | Received(r: Response) | Failed

  /** Where a client thread is. */
  datatype Phase =
    | Arriving                                     // wants the handshake lock
    | Calling(kind: Kind)                          // about to take an id
    | InCall(kind: Kind, id: int, step: CallStep)
    | Notifying                                    // the handshake was answered
    | Ready                                        // the handshake is known to be done
    | Gave(id: int, r: Response)                   // its tools call returned this reply
    | GaveUp                                       // returned an error, or only wanted the handshake

  datatype Event = WroteRequest(id: int, kind: Kind) | GotHandshakeReply(id: int) | WroteInitialized

  datatype State = State(
    threads: map<nat, Phase>,
    nextId: int,
    pending: map<int, nat>,              // id -> the thread whose call registered it
    channels: map<int, Response>,        // the filled one-place buffers
    reader: Option<Response>,            // looked up a pending call, about to send
    answered: set<int>,                  // ids the upstream has replied to
    lock: Option<nat>,                   // the holder of initMu
    initialized: bool,
    log: seq<Event>)

  datatype Action =
    | Arrive(t: nat)
    | Enter(t: nat)                      // takes initMu and looks at initialized
    | TakeId(t: nat)
    | Marshal(t: nat)                    // the parameters cannot be marshalled
    | Register(t: nat)
    | Write(t: nat)
    | WriteFails(t: nat)
    | Receive(t: nat)
    | Cancel(t: nat)
    | Return(t: nat)                     // the deferred delete, and what the caller does next
    | Notify(t: nat)
    | NotifyFails(t: nat)
    | Proceed(t: nat)                    // from the handshake to the tools call
    | Leave(t: nat)                      // only wanted the handshake
    | Read(r: Response)                  // the reader takes a line and looks its id up
    | Send                               // the reader sends into the channel it found

  function Move(s: State, t: nat, p: Phase): State {
    s.(threads := s.threads[t := p])
  }

  predicate At(s: State, t: nat, p: Phase) {
    t in s.threads && s.threads[t] == p
  }

  predicate InStep(s: State, t: nat, step: CallStep) {
    t in s.threads && s.threads[t].InCall? && s.threads[t].step == step
  }

  function Advance(s: State, t: nat, step: CallStep): State
    requires t in s.threads && s.threads[t].InCall?
  {
    Move(s, t, s.threads[t].(step := step))
  }

  /** What a thread does after its call has returned. */
  function AfterCall(s: State, t: nat, kind: Kind, id: int, step: CallStep): State {
    match (kind, step)
    case (Handshake, Received(r)) =>
      if r.isError then Move(s, t, GaveUp).(lock := None)
      else Move(s, t, Notifying).(log := s.log + [GotHandshakeReply(id)])
    case (Handshake, _) => Move(s, t, GaveUp).(lock := None)
    case (Tools, Received(r)) => Move(s, t, Gave(id, r))
    case (Tools, _) => Move(s, t, GaveUp)
  }

  /** One step; None when the action is not enabled. The reader would block on a filled channel. */
  function Next(s: State, a: Action): Option<State> {
    match a
    case Arrive(t) => if t in s.threads then None else Some(Move(s, t, Arriving))
    case Enter(t) =>
      if !At(s, t, Arriving) || s.lock.Some? then None
      else if s.initialized then Some(Move(s, t, Ready))
      else Some(Move(s, t, Calling(Handshake)).(lock := Some(t)))
    case TakeId(t) =>
      if t !in s.threads || !s.threads[t].Calling? then None
      else Some(Move(s, t, InCall(s.threads[t].kind, s.nextId + 1, Allocated)).(nextId := s.nextId + 1))
    case Marshal(t) =>
      if !InStep(s, t, Allocated) then None
      else Some(AfterCall(s, t, s.threads[t].kind, s.threads[t].id, Failed))
    case Register(t) =>
      if !InStep(s, t, Allocated) then None
      else Some(Advance(s, t, Registered).(pending := s.pending[s.threads[t].id := t]))
    case Write(t) =>
      if !InStep(s, t, Registered) then None
      else Some(Advance(s, t, Written).(log := s.log + [WroteRequest(s.threads[t].id, s.threads[t].kind)]))
    case WriteFails(t) => if !InStep(s, t, Registered) then None else Some(Advance(s, t, Failed))
    case Receive(t) =>
      if !InStep(s, t, Written) || s.threads[t].id !in s.channels then None
      else
        var id := s.threads[t].id;
        Some(Advance(s, t, Received(s.channels[id])).(channels := s.channels - {id}))
    case Cancel(t) => if !InStep(s, t, Written) then None else Some(Advance(s, t, Failed))
    case Return(t) =>
      if t !in s.threads || !s.threads[t].InCall?
         || !(s.threads[t].step.Received? || s.threads[t].step.Failed?) then None
      else
        var p := s.threads[t];
        Some(AfterCall(s.(pending := s.pending - {p.id}), t, p.kind, p.id, p.step))
    case Notify(t) =>
      if !At(s, t, Notifying) then None
      else Some(Move(s, t, Ready).(log := s.log + [WroteInitialized], initialized := true, lock := None))
    case NotifyFails(t) => if !At(s, t, Notifying) then None else Some(Move(s, t, GaveUp).(lock := None))
    case Proceed(t) => if !At(s, t, Ready) then None else Some(Move(s, t, Calling(Tools)))
    case Leave(t) => if !At(s, t, Ready) then None else Some(Move(s, t, GaveUp))
    case Read(r) =>
      if s.reader.Some? || r.id in s.answered then None
      else
        var heard := s.(answered := s.answered + {r.id});
        Some(if r.id in s.pending then heard.(reader := Some(r)) else heard)
    case Send =>
      if s.reader.None? || s.reader.value.id in s.channels then None
      else Some(s.(channels := s.channels[s.reader.value.id := s.reader.value], reader := None))
  }

  const START := State(map[], 0, map[], map[], None, {}, None, false, [])

  /** The state after a sequence of steps; None when one of them was not enabled. */
  function Run(actions: seq<Action>): Option<State> {
    if actions == [] then Some(START)
    else
      var before := Run(actions[..|actions| - 1]);
      if before.None? then None else Next(before.value, actions[|actions| - 1])
  }

  // ----- invariants

  predicate Registers(p: Phase) {
    p.InCall? && p.step != Allocated
  }

  predicate Holds(p: Phase, id: int) {
    (p.InCall? || p.Gave?) && p.id == id
  }

  /** Every call has an id of its own, none above the counter. */
  ghost predicate OwnIds(s: State) {
    && (forall t :: t in s.threads && (s.threads[t].InCall? || s.threads[t].Gave?) ==> s.threads[t].id <= s.nextId)
    && forall t, u :: t in s.threads && u in s.threads && t != u && (s.threads[t].InCall? || s.threads[t].Gave?) ==>
         !Holds(s.threads[u], s.threads[t].id)
  }

  /** The pending map holds exactly the ids of the registered calls. */
  ghost predicate PendingIsInFlight(s: State) {
    && (forall id :: id in s.pending ==>
         s.pending[id] in s.threads && Registers(s.threads[s.pending[id]]) && s.threads[s.pending[id]].id == id)
    && forall t :: t in s.threads && Registers(s.threads[t]) ==>
         s.threads[t].id in s.pending && s.pending[s.threads[t].id] == t
  }

  /** Every reply was heard once and is in one place: with the reader, in its own channel or with the
      call of its id. */
  ghost predicate OnePlace(s: State) {
    && (forall id :: id in s.channels ==> id in s.answered && s.channels[id].id == id)
    && (s.reader.Some? ==> s.reader.value.id in s.answered && s.reader.value.id !in s.channels)
    && forall t :: t in s.threads && Replied(s.threads[t]).Some? ==>
         var r := Replied(s.threads[t]).value;
         && r.id == s.threads[t].id && r.id in s.answered && r.id !in s.channels
         && (s.reader.Some? ==> s.reader.value.id != r.id)
  }

  function Replied(p: Phase): Option<Response> {
    if p.InCall? && p.step.Received? then Some(p.step.r) else if p.Gave? then Some(p.r) else None
  }

  predicate InHandshake(p: Phase) {
    p == Calling(Handshake) || (p.InCall? && p.kind == Handshake) || p == Notifying
  }

  predicate PastHandshake(p: Phase) {
    p == Ready || p == Calling(Tools) || (p.InCall? && p.kind == Tools) || p.Gave?
  }

  predicate Answered(log: seq<Event>) {
    exists i :: 0 <= i < |log| && log[i].GotHandshakeReply?
  }

  /** A successful handshake reply and then the initialized notification. */
  predicate Opened(log: seq<Event>) {
    exists j :: 0 <= j < |log| && log[j] == WroteInitialized && Answered(log[..j])
  }

  ghost predicate HandshakeFirst(s: State) {
    && (forall t :: t in s.threads && InHandshake(s.threads[t]) ==> s.lock == Some(t) && !s.initialized)
    && (forall t :: t in s.threads && s.threads[t] == Notifying ==> Answered(s.log))
    && (forall t :: t in s.threads && PastHandshake(s.threads[t]) ==> s.initialized)
    && (s.initialized ==> Opened(s.log))
    && forall k :: 0 <= k < |s.log| && s.log[k].WroteRequest? && s.log[k].kind == Tools ==> Opened(s.log[..k])
  }

  /** The initialized notification is written at most once. */
  predicate NotifiedOnce(s: State) {
    && (forall k :: 0 <= k < |s.log| && s.log[k] == WroteInitialized ==> s.initialized)
    && forall j, k :: 0 <= j < k < |s.log| ==> !(s.log[j] == WroteInitialized && s.log[k] == WroteInitialized)
  }

  ghost predicate Inv(s: State) {
    OwnIds(s) && PendingIsInFlight(s) && OnePlace(s) && HandshakeFirst(s) && NotifiedOnce(s)
  }

  predicate ByThread(a: Action) {
    !a.Read? && !a.Send?
  }

  function Before(s: State, t: nat): Phase {
    if t in s.threads then s.threads[t] else GaveUp
  }

  predicate HasId(p: Phase) {
    p.InCall? || p.Gave?
  }

  predicate MovesId(s: State, p: Phase, s': State, p': Phase) {
    || (s'.nextId == s.nextId && (HasId(p') ==> HasId(p) && p.id == p'.id))
    || (s'.nextId == s.nextId + 1 && HasId(p') && p'.id == s'.nextId)
  }

  predicate MovesPending(s: State, t: nat, p: Phase, s': State, p': Phase) {
    if Registers(p) then
      if Registers(p') then p'.id == p.id && s'.pending == s.pending else s'.pending == s.pending - {p.id}
    else
      if Registers(p') then HasId(p) && p'.id == p.id && s'.pending == s.pending[p'.id := t]
      else s'.pending == s.pending
  }

  predicate MovesReply(s: State, p: Phase, s': State, p': Phase) {
    && s'.reader == s.reader && s'.answered == s.answered
    && (|| (s'.channels == s.channels && (Replied(p').Some? ==> Replied(p') == Replied(p) && HasId(p) && p'.id == p.id))
        || (p'.InCall? && p'.id in s.channels && Replied(p') == Some(s.channels[p'.id])
            && s'.channels == s.channels - {p'.id}))
  }

  predicate Moves(s: State, t: nat, s': State) {
    && t in s'.threads && s'.threads == s.threads[t := s'.threads[t]]
    && MovesId(s, Before(s, t), s', s'.threads[t])
    && MovesPending(s, t, Before(s, t), s', s'.threads[t])
    && MovesReply(s, Before(s, t), s', s'.threads[t])
  }

  lemma ThreadMovesId(s: State, a: Action)
    requires ByThread(a) && Next(s, a).Some?
    ensures var s' := Next(s, a).value;
            a.t in s'.threads && s'.threads == s.threads[a.t := s'.threads[a.t]]
            && MovesId(s, Before(s, a.t), s', s'.threads[a.t])
  {
  }

  lemma ReturnMovesPending(s: State, a: Action)
    requires a.Return? && Next(s, a).Some?
    ensures var s' := Next(s, a).value;
            a.t in s'.threads && MovesPending(s, a.t, Before(s, a.t), s', s'.threads[a.t])
  {
  }

  lemma ThreadMovesPending(s: State, a: Action)
    requires ByThread(a) && Next(s, a).Some?
    ensures var s' := Next(s, a).value;
            a.t in s'.threads && MovesPending(s, a.t, Before(s, a.t), s', s'.threads[a.t])
  {
    if a.Return? { ReturnMovesPending(s, a); }
  }

  lemma ReturnMovesReply(s: State, a: Action)
    requires a.Return? && Next(s, a).Some?
    ensures var s' := Next(s, a).value;
            a.t in s'.threads && MovesReply(s, Before(s, a.t), s', s'.threads[a.t])
  {
  }

  lemma ThreadMovesReply(s: State, a: Action)
    requires ByThread(a) && Next(s, a).Some?
    ensures var s' := Next(s, a).value;
            a.t in s'.threads && MovesReply(s, Before(s, a.t), s', s'.threads[a.t])
  {
    if a.Return? { ReturnMovesReply(s, a); }
  }

  /** A thread's step changes its own phase, and the shared state to match. */
  lemma ThreadMoves(s: State, a: Action)
    requires ByThread(a) && Next(s, a).Some?
    ensures Moves(s, a.t, Next(s, a).value)
  {
    ThreadMovesId(s, a);
    ThreadMovesPending(s, a);
    ThreadMovesReply(s, a);
  }

  lemma OwnIdsMove(s: State, t: nat, s': State)
    requires OwnIds(s) && Moves(s, t, s')
    ensures OwnIds(s')
  {
  }

  lemma PendingMove(s: State, t: nat, s': State)
    requires OwnIds(s) && PendingIsInFlight(s) && Moves(s, t, s')
    ensures PendingIsInFlight(s')
  {
  }

  lemma OnePlaceMove(s: State, t: nat, s': State)
    requires OwnIds(s) && OnePlace(s) && Moves(s, t, s')
    ensures OnePlace(s')
  {
  }

  lemma ReaderStep(s: State, a: Action)
    requires OwnIds(s) && PendingIsInFlight(s) && OnePlace(s) && !ByThread(a) && Next(s, a).Some?
    ensures OwnIds(Next(s, a).value) && PendingIsInFlight(Next(s, a).value) && OnePlace(Next(s, a).value)
  {
  }

  lemma LogGrows(log: seq<Event>, e: Event)
    ensures Answered(log) ==> Answered(log + [e])
    ensures Opened(log) ==> Opened(log + [e])
    ensures e.GotHandshakeReply? ==> Answered(log + [e])
    ensures e == WroteInitialized && Answered(log) ==> Opened(log + [e])
    ensures forall k :: 0 <= k <= |log| ==> (log + [e])[..k] == log[..k]
  {
    var after := log + [e];
    assert after[..|log|] == log;
    if Answered(log) {
      var i :| 0 <= i < |log| && log[i].GotHandshakeReply?;
      assert after[i].GotHandshakeReply?;
    }
    if Opened(log) {
      var j :| 0 <= j < |log| && log[j] == WroteInitialized && Answered(log[..j]);
      assert after[j] == WroteInitialized && after[..j] == log[..j];
    }
    if e.GotHandshakeReply? { assert after[|log|].GotHandshakeReply?; }
    if e == WroteInitialized { assert after[|log|] == WroteInitialized; }
  }

  predicate MovesLock(s: State, t: nat, p: Phase, s': State, p': Phase) {
    && (InHandshake(p') ==> s'.lock == Some(t) && !s'.initialized && (InHandshake(p) || s.lock.None?))
    && (s'.lock != s.lock ==> InHandshake(p) || s.lock.None?)
    && (s'.initialized != s.initialized ==> s'.initialized && p == Notifying)
    && (PastHandshake(p') ==> s'.initialized)
  }

  function Latest(s: State): Event {
    if s.log == [] then WroteInitialized else s.log[|s.log| - 1]
  }

  predicate MovesLog(s: State, p: Phase, s': State, p': Phase) {
    if s'.log == s.log then p' != Notifying && s'.initialized == s.initialized
    else
      && s'.log != [] && s'.log == s.log + [Latest(s')]
      && (p' == Notifying ==> Latest(s').GotHandshakeReply?)
      && (s'.initialized != s.initialized ==> Latest(s') == WroteInitialized)
      && (Latest(s') == WroteInitialized ==> s'.initialized && p == Notifying)
      && (Latest(s').WroteRequest? && Latest(s').kind == Tools ==> PastHandshake(p))
  }

  lemma ReturnLocks(s: State, a: Action)
    requires HandshakeFirst(s) && a.Return? && Next(s, a).Some?
    ensures var s' := Next(s, a).value;
            && a.t in s'.threads && s'.threads == s.threads[a.t := s'.threads[a.t]]
            && MovesLock(s, a.t, Before(s, a.t), s', s'.threads[a.t])
  {
  }

  lemma ThreadLocks(s: State, a: Action)
    requires HandshakeFirst(s) && ByThread(a) && Next(s, a).Some?
    ensures var s' := Next(s, a).value;
            && a.t in s'.threads && s'.threads == s.threads[a.t := s'.threads[a.t]]
            && MovesLock(s, a.t, Before(s, a.t), s', s'.threads[a.t])
  {
    if a.Return? { ReturnLocks(s, a); }
  }

  lemma ThreadLogs(s: State, a: Action)
    requires ByThread(a) && Next(s, a).Some?
    ensures var s' := Next(s, a).value;
            a.t in s'.threads && MovesLog(s, Before(s, a.t), s', s'.threads[a.t])
  {
  }

  lemma HandshakeMoves(s: State, t: nat, s': State)
    requires HandshakeFirst(s) && t in s'.threads && s'.threads == s.threads[t := s'.threads[t]]
    requires MovesLock(s, t, Before(s, t), s', s'.threads[t]) && MovesLog(s, Before(s, t), s', s'.threads[t])
    ensures HandshakeFirst(s')
  {
    if s'.log != s.log { LogGrows(s.log, Latest(s')); }
  }

  lemma HandshakeStep(s: State, a: Action)
    requires HandshakeFirst(s) && Next(s, a).Some?
    ensures HandshakeFirst(Next(s, a).value)
  {
    if ByThread(a) {
      ThreadLocks(s, a);
      ThreadLogs(s, a);
      HandshakeMoves(s, a.t, Next(s, a).value);
    }
  }

  lemma NotifiedStep(s: State, a: Action)
    requires HandshakeFirst(s) && NotifiedOnce(s) && Next(s, a).Some?
    ensures NotifiedOnce(Next(s, a).value)
  {
    if ByThread(a) {
      ThreadLocks(s, a);
      ThreadLogs(s, a);
    }
  }

  lemma {:induction false} RunKeepsInv(actions: seq<Action>)
    requires Run(actions).Some?
    ensures Inv(Run(actions).value)
  {
    if actions != [] {
      var before, a := Run(actions[..|actions| - 1]).value, actions[|actions| - 1];
      var after := Next(before, a).value;
      RunKeepsInv(actions[..|actions| - 1]);
      if ByThread(a) {
        ThreadMoves(before, a);
        OwnIdsMove(before, a.t, after);
        PendingMove(before, a.t, after);
        OnePlaceMove(before, a.t, after);
      } else {
        ReaderStep(before, a);
      }
      HandshakeStep(before, a);
      NotifiedStep(before, a);
    }
  }

  // ----- what every run promises

  /** A call only ever has the reply to its own id, and no reply goes to two calls. */
  lemma RepliesMatchCalls(actions: seq<Action>, t: nat, u: nat)
    requires Run(actions).Some?
    ensures var s := Run(actions).value;
            && (t in s.threads && Replied(s.threads[t]).Some? ==> Replied(s.threads[t]).value.id == s.threads[t].id)
            && (t in s.threads && u in s.threads && t != u && Replied(s.threads[t]).Some? ==>
                  Replied(s.threads[u]) != Replied(s.threads[t]))
  {
    RunKeepsInv(actions);
  }

  /** The reader never waits for a buffer to empty. */
  lemma ReaderNeverBlocks(actions: seq<Action>)
    requires Run(actions).Some? && Run(actions).value.reader.Some?
    ensures Next(Run(actions).value, Send).Some?
  {
    RunKeepsInv(actions);
    FoundChannelIsEmpty(Run(actions).value);
  }

  lemma FoundChannelIsEmpty(s: State)
    requires OnePlace(s) && s.reader.Some?
    ensures Next(s, Send).Some?
  {
  }

  /** The call of thread t for the reply's id, as long as it has not failed or, for the handshake,
      returned. */
  predicate Waits(p: Phase, id: int) {
    Holds(p, id) && !(p.InCall? && p.step.Failed?)
  }

  /** The reply is with the reader, in the channel of its call or with the call. */
  predicate InPlace(s: State, p: Phase, r: Response) {
    s.reader == Some(r) || (r.id in s.channels && s.channels[r.id] == r) || Replied(p) == Some(r)
  }

  /** What stays true once the reply of a registered call was read. */
  predicate Delivers(s: State, t: nat, r: Response) {
    && t in s.threads && r.id in s.answered && r.id <= s.nextId
    && (Waits(s.threads[t], r.id) ==> (Registers(s.threads[t]) || s.threads[t].Gave?) && InPlace(s, s.threads[t], r))
  }

  lemma ReturnDelivers(s: State, t: nat, r: Response)
    requires Delivers(s, t, r) && Next(s, Return(t)).Some?
    ensures Delivers(Next(s, Return(t)).value, t, r)
  {
  }

  lemma CallStepDelivers(s: State, a: Action, r: Response)
    requires Inv(s) && ByThread(a) && a.t in s.threads && s.threads[a.t].InCall? && !a.Return?
    requires Next(s, a).Some? && Delivers(s, a.t, r)
    ensures Delivers(Next(s, a).value, a.t, r)
  {
  }

  lemma OwnStepDelivers(s: State, a: Action, r: Response)
    requires Inv(s) && ByThread(a) && Next(s, a).Some? && Delivers(s, a.t, r)
    ensures Delivers(Next(s, a).value, a.t, r)
  {
    if a.Return? {
      ReturnDelivers(s, a.t, r);
    } else if s.threads[a.t].InCall? {
      CallStepDelivers(s, a, r);
    }
  }

  lemma OtherStepDelivers(s: State, u: nat, s': State, t: nat, r: Response)
    requires OwnIds(s) && OnePlace(s) && Moves(s, u, s') && u != t && Delivers(s, t, r)
    ensures Delivers(s', t, r)
  {
  }

  lemma ReaderStepDelivers(s: State, a: Action, t: nat, r: Response)
    requires OnePlace(s) && !ByThread(a) && Next(s, a).Some? && Delivers(s, t, r)
    ensures Delivers(Next(s, a).value, t, r)
  {
  }

  lemma StepDelivers(s: State, a: Action, t: nat, r: Response)
    requires Inv(s) && Next(s, a).Some? && Delivers(s, t, r)
    ensures Delivers(Next(s, a).value, t, r)
  {
    if !ByThread(a) {
      ReaderStepDelivers(s, a, t, r);
    } else if a.t == t {
      OwnStepDelivers(s, a, r);
    } else {
      ThreadMoves(s, a);
      OtherStepDelivers(s, a.t, Next(s, a).value, t, r);
    }
  }

  lemma {:induction false} RunDelivers(actions: seq<Action>, k: nat, t: nat, r: Response)
    requires k < |actions| && actions[k] == Read(r) && Run(actions).Some? && Run(actions[..k]).Some?
    requires var s := Run(actions[..k]).value; r.id in s.pending && s.pending[r.id] == t
    ensures Delivers(Run(actions).value, t, r)
  {
    var n := |actions| - 1;
    var before := Run(actions[..n]).value;
    RunKeepsInv(actions[..n]);
    if k < n {
      assert actions[..n][..k] == actions[..k];
      RunDelivers(actions[..n], k, t, r);
      StepDelivers(before, actions[n], t, r);
    }
  }

  /** No reply is lost: once it was read while its call was registered, it is with the reader, in the
      channel or with the call for as long as the call has not failed or moved on. While the call waits,
      the reader can send the reply or the call can receive it. */
  lemma RepliesArrive(actions: seq<Action>, k: nat, t: nat, r: Response)
    requires k < |actions| && actions[k] == Read(r) && Run(actions).Some? && Run(actions[..k]).Some?
    requires var s := Run(actions[..k]).value; r.id in s.pending && s.pending[r.id] == t
    ensures var s := Run(actions).value;
            && t in s.threads
            && (Waits(s.threads[t], r.id) ==> InPlace(s, s.threads[t], r))
            && (s.threads[t].Gave? && s.threads[t].id == r.id ==> s.threads[t].r == r)
            && (Waits(s.threads[t], r.id) && InStep(s, t, Written) ==>
                  Next(s, Send).Some? || Next(s, Receive(t)).Some?)
  {
    RunDelivers(actions, k, t, r);
    RunKeepsInv(actions);
    if Run(actions).value.reader.Some? { FoundChannelIsEmpty(Run(actions).value); }
  }

  // ----- how calls end

  /** What a call that ended at the given step leaves its thread in. */
  predicate EndsIn(kind: Kind, id: int, step: CallStep, p: Phase) {
    if step.Received? then
      if kind == Tools then p == Gave(id, step.r) else p == if step.r.isError then GaveUp else Notifying
    else p == GaveUp
  }

  /** A tools call returns its reply and nothing else; a handshake goes on after a successful reply, and
      otherwise gives the lock back. */
  lemma {:induction false} ReturnEnds(actions: seq<Action>, t: nat)
    requires actions != [] && actions[|actions| - 1] == Return(t) && Run(actions).Some?
    ensures Run(actions[..|actions| - 1]).Some?
    ensures var s, s' := Run(actions[..|actions| - 1]).value, Run(actions).value;
            && t in s.threads && s.threads[t].InCall? && t in s'.threads
            && EndsIn(s.threads[t].kind, s.threads[t].id, s.threads[t].step, s'.threads[t])
            && s'.lock == (if s.threads[t].kind == Handshake && s'.threads[t] == GaveUp then None else s.lock)
            && s'.log == (if s'.threads[t] == Notifying then s.log + [GotHandshakeReply(s.threads[t].id)] else s.log)
  {
  }

  /** The tools call of thread t for the reply's id is on its way to the reply, or has returned it. */
  predicate Returns(s: State, t: nat, r: Response) {
    && t in s.threads
    && (|| s.threads[t] == Gave(r.id, r)
        || (s.threads[t].InCall? && s.threads[t].kind == Tools && s.threads[t].id == r.id
            && s.threads[t].step in {Registered, Written, Received(r)}))
  }

  predicate Stops(a: Action, t: nat) {
    a == Cancel(t) || a == WriteFails(t)
  }

  lemma OwnStepReturns(s: State, a: Action, r: Response)
    requires Inv(s) && ByThread(a) && !Stops(a, a.t) && Next(s, a).Some?
    requires Delivers(s, a.t, r) && Returns(s, a.t, r)
    ensures Returns(Next(s, a).value, a.t, r)
  {
  }

  lemma OtherStepReturns(s: State, a: Action, t: nat, r: Response)
    requires (ByThread(a) ==> a.t != t) && Next(s, a).Some? && Returns(s, t, r)
    ensures Returns(Next(s, a).value, t, r)
  {
    if ByThread(a) { ThreadMovesId(s, a); }
  }

  /** A tools call that is neither cancelled nor fails to write returns the reply that was read for its id,
      or is still on its way there. */
  lemma {:induction false} ToolsCallsReturn(actions: seq<Action>, k: nat, t: nat, r: Response)
    requires k < |actions| && actions[k] == Read(r) && Run(actions).Some? && Run(actions[..k]).Some?
    requires var s := Run(actions[..k]).value;
             && r.id in s.pending && s.pending[r.id] == t && t in s.threads
             && s.threads[t].InCall? && s.threads[t].kind == Tools && s.threads[t].step != Failed
    requires forall j :: k < j < |actions| ==> !Stops(actions[j], t)
    ensures Returns(Run(actions).value, t, r)
  {
    var n := |actions| - 1;
    var before := Run(actions[..n]).value;
    RunKeepsInv(actions[..n]);
    if k < n {
      assert actions[..n][..k] == actions[..k];
      RunDelivers(actions[..n], k, t, r);
      ToolsCallsReturn(actions[..n], k, t, r);
      if ByThread(actions[n]) && actions[n].t == t {
        OwnStepReturns(before, actions[n], r);
      } else {
        OtherStepReturns(before, actions[n], t, r);
      }
    }
  }

  /** Step j made thread t give up. */
  predicate Reason(actions: seq<Action>, j: nat, t: nat) {
    && j < |actions|
    && (|| actions[j] in {Marshal(t), WriteFails(t), Cancel(t), NotifyFails(t), Leave(t)}
        || (actions[j] == Return(t) && Run(actions[..j]).Some?
            && ErrorReply(Run(actions[..j]).value, t)))
  }

  /** The handshake of t was answered with an error. */
  predicate ErrorReply(s: State, t: nat) {
    && t in s.threads && s.threads[t].InCall? && s.threads[t].kind == Handshake
    && s.threads[t].step.Received? && s.threads[t].step.r.isError
  }

  predicate GivesUp(s: State, t: nat) {
    t in s.threads && (s.threads[t] == GaveUp || (s.threads[t].InCall? && s.threads[t].step == Failed))
  }

  lemma StepGivesUp(s: State, a: Action, t: nat)
    requires Next(s, a).Some? && GivesUp(Next(s, a).value, t) && !GivesUp(s, t)
    ensures || a in {Marshal(t), WriteFails(t), Cancel(t), NotifyFails(t), Leave(t)}
            || (a == Return(t) && ErrorReply(s, t))
  {
  }

  /** A thread has given up only for a reason: its call could not be marshalled or written or was cancelled,
      its handshake was answered with an error or not notified, or it wanted no more than the handshake. */
  lemma {:induction false} GivesUpOnlyIf(actions: seq<Action>, t: nat)
    requires Run(actions).Some? && GivesUp(Run(actions).value, t)
    ensures exists j: nat :: Reason(actions, j, t)
  {
    if actions != [] {
      var n := |actions| - 1;
      if GivesUp(Run(actions[..n]).value, t) {
        GivesUpOnlyIf(actions[..n], t);
        var j: nat :| Reason(actions[..n], j, t);
        assert actions[..n][..j] == actions[..j];
        assert Reason(actions, j, t);
      } else {
        StepGivesUp(Run(actions[..n]).value, actions[n], t);
        assert Reason(actions, n, t);
      }
    }
  }

  /** The lock is held by a thread in the handshake. */
  predicate LockInUse(s: State) {
    s.lock.Some? ==> s.lock.value in s.threads && InHandshake(s.threads[s.lock.value])
  }

  lemma LockStep(s: State, a: Action)
    requires LockInUse(s) && HandshakeFirst(s) && Next(s, a).Some?
    ensures LockInUse(Next(s, a).value)
  {
  }

  lemma {:induction false} RunKeepsLock(actions: seq<Action>)
    requires Run(actions).Some?
    ensures LockInUse(Run(actions).value)
  {
    if actions != [] {
      var n := |actions| - 1;
      RunKeepsLock(actions[..n]);
      RunKeepsInv(actions[..n]);
      LockStep(Run(actions[..n]).value, actions[n]);
    }
  }

  /** No thread waits for ever on a lock that nobody uses: an arriving thread can enter unless another is in
      the handshake. */
  lemma ArrivalsEnter(actions: seq<Action>, t: nat)
    requires Run(actions).Some? && At(Run(actions).value, t, Arriving)
    ensures var s := Run(actions).value;
            Next(s, Enter(t)).Some? <==> forall u :: u in s.threads ==> !InHandshake(s.threads[u])
  {
    RunKeepsLock(actions);
    RunKeepsInv(actions);
  }

  /** The pending map holds exactly the ids of registered calls that have not returned; so it is
      empty when all calls have. */
  lemma PendingEmptiesOut(actions: seq<Action>)
    requires Run(actions).Some?
    ensures var s := Run(actions).value;
            && (forall id :: id in s.pending <==>
                  exists t :: t in s.threads && Registers(s.threads[t]) && s.threads[t].id == id)
            && ((forall t :: t in s.threads ==> !s.threads[t].InCall?) ==> s.pending == map[])
  {
    RunKeepsInv(actions);
    var s := Run(actions).value;
    forall id | id in s.pending
      ensures exists t :: t in s.threads && Registers(s.threads[t]) && s.threads[t].id == id
    {
      assert s.pending[id] in s.threads;
    }
  }

  /** No tools request is written before a successful handshake reply and, after it, the one
      initialized notification. */
  lemma ToolsAfterHandshake(actions: seq<Action>, k: nat)
    requires Run(actions).Some? && k < |Run(actions).value.log|
    ensures var log := Run(actions).value.log;
            && (log[k].WroteRequest? && log[k].kind == Tools ==>
                  exists i, j :: 0 <= i < j < k && log[i].GotHandshakeReply? && log[j] == WroteInitialized)
            && (log[k] == WroteInitialized ==> forall j :: 0 <= j < |log| && j != k ==> log[j] != WroteInitialized)
  {
    RunKeepsInv(actions);
    var log := Run(actions).value.log;
    if log[k].WroteRequest? && log[k].kind == Tools {
      var before := log[..k];
      assert Opened(before);
      var j :| 0 <= j < |before| && before[j] == WroteInitialized && Answered(before[..j]);
      var i :| 0 <= i < j && before[..j][i].GotHandshakeReply?;
      assert log[i].GotHandshakeReply? && log[j] == WroteInitialized;
    }
    if log[k] == WroteInitialized {
      forall j | 0 <= j < |log| && j != k ensures log[j] != WroteInitialized {
        assert j < k || k < j;
      }
    }
  }
}
