/** The caching block store (lib/cacheblockstore): puts go to a remote and a local store,
    gets fall back from the local to the remote store and copy what they find. Every
    callback, atomic add and critical section is a step; the stores behind it may answer
    at any time. A store that rejects a call never calls back, one that accepts it calls
    back once. */
module CacheStores {
  import opened Prelude
  import opened FlushGates

  /** What an in-flight request adds to the pending count. */
  datatype Hold = FirstHold | SecondHold | CopyHold

  /** What a step of a request does to the pending count. */
  datatype Effect = Silent | Acquires(hold: Hold) | Releases(hold: Hold)

  /** The holds a step leaves. */
  function After(holds: set<Hold>, e: Effect): set<Hold> {
    match e
    case Silent => holds
    case Acquires(h) => holds + {h}
    case Releases(h) => holds - {h}
  }

  ghost predicate Fits(holds: set<Hold>, e: Effect) {
    match e
    case Silent => true
    case Acquires(h) => h !in holds
    case Releases(h) => h in holds
  }

  // ----- Puts -----

  /** Where the call of PutStoredBlock is: the window is after the remote store accepted
      and before the local put is counted. */
  datatype PutCaller = PutCalled | CallingRemote | Rejected(err: int) | Window | CallingLocal | PutReturned(err: int)

  /** Where a completion callback is: it was not handed out, it is out, the remote one
      has stored its error, it has counted down (perhaps as the last), it has reported to
      the client, it has completed its request. */
  datatype PutCallback = Unset | Armed | Stored | Counted(last: bool) | Reported | Finished

  /** A put: `outcome` is the answer of the remote store, `reported` what the client was
      told. The shared record is gone once `freed`. */
  datatype Put = Put(caller: PutCaller, remote: PutCallback, local: PutCallback, pendingCount: int, remoteErr: int,
                     outcome: int, reported: seq<int>, freed: bool)

  const EINVAL_CODE: int := 22

  const NEW_PUT: Put := Put(PutCalled, Unset, Unset, 2, EINVAL_CODE, 0, [], false)

  datatype PutEvent =
    | CountRemote
    | RemoteAccepts(outcome: int)
    | RemoteRejects(err: int)
    | CompleteRejected
    | CountLocal
    | LocalTakes
    | StoreError
    | RemoteCountsDown
    | RemoteReports
    | RemoteCompletes
    | LocalCountsDown
    | LocalReports
    | LocalCompletes

  function PutStep(p: Put, e: PutEvent): Option<(Put, Effect)> {
    match e
    case CountRemote =>
      if p.caller == PutCalled then Some((p.(caller := CallingRemote), Acquires(FirstHold))) else None
    case RemoteAccepts(outcome) =>
      if p.caller == CallingRemote then Some((p.(caller := Window, remote := Armed, outcome := outcome), Silent))
          else None
    case RemoteRejects(err) =>
      if p.caller == CallingRemote && err != 0 then Some((p.(caller := Rejected(err)), Silent)) else None
    case CompleteRejected =>
      if p.caller.Rejected? then Some((p.(caller := PutReturned(p.caller.err), freed := true), Releases(FirstHold)))
          else None
    case CountLocal =>
      if p.caller == Window then Some((p.(caller := CallingLocal), Acquires(SecondHold))) else None
    case LocalTakes =>
      // accepted by the local store, or called by the caller itself when it was rejected
      if p.caller == CallingLocal then Some((p.(caller := PutReturned(0), local := Armed), Silent)) else None
    case StoreError =>
      if p.remote == Armed && !p.freed then Some((p.(remote := Stored, remoteErr := p.outcome), Silent)) else None
    case RemoteCountsDown =>
      if p.remote == Stored && !p.freed
      then Some((p.(remote := Counted(p.pendingCount == 1), pendingCount := p.pendingCount - 1), Silent)) else None
    case RemoteReports =>
      if p.remote == Counted(true) && !p.freed
      then Some((p.(remote := Reported, reported := p.reported + [p.remoteErr], freed := true), Silent)) else None
    case RemoteCompletes =>
      if p.remote in {Counted(false), Reported} then Some((p.(remote := Finished), Releases(FirstHold))) else None
    case LocalCountsDown =>
      if p.local == Armed && !p.freed
      then Some((p.(local := Counted(p.pendingCount == 1), pendingCount := p.pendingCount - 1), Silent)) else None
    case LocalReports =>
      if p.local == Counted(true) && !p.freed
      then Some((p.(local := Reported, reported := p.reported + [p.remoteErr], freed := true), Silent)) else None
    case LocalCompletes =>
      if p.local in {Counted(false), Reported} then Some((p.(local := Finished), Releases(SecondHold))) else None
  }

  predicate HasCounted(c: PutCallback) {
    c.Counted? || c.Reported? || c.Finished?
  }

  function PutHolds(p: Put): set<Hold> {
    (if p.caller.CallingRemote? || p.caller.Rejected? || p.remote !in {Unset, Finished} then {FirstHold} else {})
    + if p.caller.CallingLocal? || p.local !in {Unset, Finished} then {SecondHold} else {}
  }

  /** The callback that counted down last reports, after both counted and with the
      answer of the remote store. */
  ghost predicate PutOk(p: Put) {
    && p.pendingCount == (if HasCounted(p.remote) then 0 else 1) + (if HasCounted(p.local) then 0 else 1)
    && (p.remote == Unset <==>
        p.caller in {PutCalled, CallingRemote} || p.caller.Rejected? || (p.caller.PutReturned? && p.caller.err != 0))
    && (p.local == Unset <==> p.caller != PutReturned(0))
    && (p.caller.Rejected? ==> p.caller.err != 0)
    && (p.remote !in {Unset, Armed} ==> p.remoteErr == p.outcome)
    && p.local != Stored
    && !(p.remote == Counted(true) && p.local == Counted(true))
    && !(p.remote == Reported && p.local == Reported)
    && ((p.remote == Counted(true) || p.local == Counted(true)) ==> p.pendingCount == 0 && p.reported == [] && !p.freed)
    && ((p.remote == Reported || p.local == Reported) ==> p.pendingCount == 0 && p.reported == [p.outcome])
    && (p.reported == [] || (p.pendingCount == 0 && p.reported == [p.outcome]))
    && (p.pendingCount == 0 ==> p.remote == Counted(true) || p.local == Counted(true) || p.reported == [p.outcome])
    && (p.freed <==> p.reported != [] || (p.caller.PutReturned? && p.caller.err != 0))
  }

  lemma PutStepOk(p: Put, e: PutEvent)
    requires PutOk(p) && PutStep(p, e).Some?
    ensures var (p', effect) := PutStep(p, e).value;
            PutOk(p') && Fits(PutHolds(p), effect) && PutHolds(p') == After(PutHolds(p), effect)
  {
  }

  /** What a step tells of the remote store. */
  lemma PutStepHears(p: Put, e: PutEvent)
    requires PutOk(p) && PutStep(p, e).Some?
    ensures var p' := PutStep(p, e).value.0;
            && (forall o :: Accepted(p', o) <==> Accepted(p, o) || e == RemoteAccepts(o))
            && (forall err :: Refused(p', err) <==> Refused(p, err) || e == RemoteRejects(err))
  {
  }

  /** The remote store accepted the put, and answered this. */
  ghost predicate Accepted(p: Put, outcome: int) {
    p.remote != Unset && p.outcome == outcome
  }

  ghost predicate Refused(p: Put, err: int) {
    p.caller == Rejected(err) || (p.caller == PutReturned(err) && err != 0)
  }

  /** A callback never finds the shared record freed. */
  lemma PutNeverUsesFreed(p: Put)
    requires PutOk(p)
    ensures p.remote in {Armed, Stored, Counted(true)} || p.local in {Armed, Counted(true)} ==> !p.freed
  {
  }

  ghost predicate PutFinished(p: Put) {
    (p.remote == Finished && p.local == Finished) || (p.caller.PutReturned? && p.caller.err != 0)
  }

  /** An accepted put reports exactly once, not before both halves counted down, with the
      answer of the remote store; a rejected put never reports. */
  lemma PutReportsOnce(p: Put)
    requires PutOk(p)
    ensures p.reported != [] ==> p.reported == [p.outcome] && HasCounted(p.remote) && HasCounted(p.local)
    ensures p.remote == Finished && p.local == Finished ==> p.reported == [p.outcome]
    ensures p.caller.PutReturned? && p.caller.err != 0 ==> p.reported == []
  {
  }

  /** A put that was counted is covered by the pending count until it is finished, except
      exactly in the window when the remote half is over. */
  lemma PutCoveredIff(p: Put)
    requires PutOk(p) && p.caller != PutCalled && !PutFinished(p)
    ensures PutHolds(p) == {} <==> p.caller == Window && p.remote == Finished
  {
    if p.caller != Window || p.remote != Finished {
      assert FirstHold in PutHolds(p) || SecondHold in PutHolds(p);
    }
  }

  // ----- Gets -----

  /** What an inner store answers: a block, an error that sends the get on to the remote
      store (ENOENT or EACCES), or another error. */
  datatype Answer = Found | Missing(err: int) | Broken(err: int)

  datatype GetCaller = GetCalled | CallingLocalGet | GetReturned

  /** OnGetStoredBlockGetLocalComplete, also when GetStoredBlock calls it itself. */
  datatype LocalGet = NotYet | LocalAnswered(answer: Answer) | CallingRemoteGet | RemoteRejected(err: int)
                    | CompletingRemote | CompletingLocal | LocalOver

  /** OnGetStoredBlockGetRemoteComplete and StoreBlockCopyToLocalCache. */
  datatype RemoteGet = NotAsked | RemoteAnswered(answer: Answer) | Wrapped | Delivered | CallingCopy | CopyRejected
                     | DroppingCopy | DisposingForCopy | CompletingGet | RemoteOver

  /** OnGetStoredBlockPutLocalComplete. */
  datatype CopyPut = NotCopied | CopyAccepted | DisposingCopy | CompletingCopy | CopyOver

  /** What the client does with the cached block it was given. */
  datatype Client = Unserved | HoldsBlock | DisposingClient | ClientOver

  datatype GetReport = GotBlock | GotCachedBlock | GotError(err: int)

  /** What the remote store did when it was asked: it called back with an answer, or refused. */
  datatype Reply = Replied(answer: Answer) | Declined(err: int)

  /** A get: `refCount` is that of the cached block, `disposals` counts how often the
      original block behind it was disposed, `heard` and `replied` are the answers of the
      local and the remote store. */
  datatype Get = Get(caller: GetCaller, local: LocalGet, remote: RemoteGet, copy: CopyPut, client: Client,
                     refCount: int, disposals: nat, heard: Option<Answer>, replied: Option<Reply>,
                     reported: seq<GetReport>)

  const NEW_GET: Get := Get(GetCalled, NotYet, NotAsked, NotCopied, Unserved, 0, 0, None, None, [])

  datatype GetEvent =
    | CountGet
    | LocalGetAnswers(answer: Answer)
    | ReportLocal
    | CountRemoteGet
    | RemoteGetAccepts(answer: Answer)
    | RemoteGetRejects(err: int)
    | ReportRejected
    | CompleteRejectedGet
    | CompleteLocalGet
    | ReportRemoteError
    | WrapBlock
    | DeliverCached
    | CountCopy
    | CopyAccepts
    | CopyRejects
    | CompleteRejectedCopy
    | DropRejectedCopy
    | DisposeRejectedCopy
    | CompleteRemoteGet
    | DropCopy
    | DisposeCopy
    | CompleteCopy
    | ClientDrops
    | ClientDisposes

  function GetStep(g: Get, e: GetEvent): Option<(Get, Effect)> {
    match e
    case CountGet =>
      if g.caller == GetCalled then Some((g.(caller := CallingLocalGet), Acquires(FirstHold))) else None
    case LocalGetAnswers(answer) =>
      if g.caller == CallingLocalGet
      then Some((g.(caller := GetReturned, local := LocalAnswered(answer), heard := Some(answer)), Silent)) else None
    case ReportLocal =>
      if g.local.LocalAnswered? && !g.local.answer.Missing?
      then Some((g.(local := CompletingLocal,
                    reported := g.reported + [if g.local.answer.Found? then GotBlock
                                              else GotError(g.local.answer.err)]), Silent))
      else None
    case CountRemoteGet =>
      if g.local.LocalAnswered? && g.local.answer.Missing?
      then Some((g.(local := CallingRemoteGet), Acquires(SecondHold))) else None
    case RemoteGetAccepts(answer) =>
      if g.local == CallingRemoteGet
      then Some((g.(local := CompletingLocal, remote := RemoteAnswered(answer), replied := Some(Replied(answer))),
                 Silent))
      else None
    case RemoteGetRejects(err) =>
      if g.local == CallingRemoteGet
      then Some((g.(local := RemoteRejected(err), replied := Some(Declined(err))), Silent)) else None
    case ReportRejected =>
      if g.local.RemoteRejected?
      then Some((g.(local := CompletingRemote, reported := g.reported + [GotError(g.local.err)]), Silent)) else None
    case CompleteRejectedGet =>
      if g.local == CompletingRemote then Some((g.(local := CompletingLocal), Releases(SecondHold))) else None
    case CompleteLocalGet =>
      if g.local == CompletingLocal then Some((g.(local := LocalOver), Releases(FirstHold))) else None
    case ReportRemoteError =>
      if g.remote.RemoteAnswered? && !g.remote.answer.Found?
      then Some((g.(remote := CompletingGet, reported := g.reported + [GotError(g.remote.answer.err)]), Silent))
          else None
    case WrapBlock =>
      if g.remote == RemoteAnswered(Found) then Some((g.(remote := Wrapped, refCount := 2), Silent)) else None
    case DeliverCached =>
      if g.remote == Wrapped
      then Some((g.(remote := Delivered, client := HoldsBlock, reported := g.reported + [GotCachedBlock]), Silent))
          else None
    case CountCopy =>
      if g.remote == Delivered then Some((g.(remote := CallingCopy), Acquires(CopyHold))) else None
    case CopyAccepts =>
      if g.remote == CallingCopy then Some((g.(remote := CompletingGet, copy := CopyAccepted), Silent)) else None
    case CopyRejects =>
      if g.remote == CallingCopy then Some((g.(remote := CopyRejected), Silent)) else None
    case CompleteRejectedCopy =>
      if g.remote == CopyRejected then Some((g.(remote := DroppingCopy), Releases(CopyHold))) else None
    case DropRejectedCopy =>
      if g.remote == DroppingCopy
      then Some((g.(refCount := g.refCount - 1, remote := if g.refCount - 1 > 0 then CompletingGet
                    else DisposingForCopy), Silent))
      else None
    case DisposeRejectedCopy =>
      if g.remote == DisposingForCopy then Some((g.(disposals := g.disposals + 1, remote := CompletingGet), Silent))
          else None
    case CompleteRemoteGet =>
      if g.remote == CompletingGet then Some((g.(remote := RemoteOver), Releases(SecondHold))) else None
    case DropCopy =>
      if g.copy == CopyAccepted
      then Some((g.(refCount := g.refCount - 1, copy := if g.refCount - 1 > 0 then CompletingCopy else DisposingCopy),
                 Silent))
      else None
    case DisposeCopy =>
      if g.copy == DisposingCopy then Some((g.(disposals := g.disposals + 1, copy := CompletingCopy), Silent)) else None
    case CompleteCopy =>
      if g.copy == CompletingCopy then Some((g.(copy := CopyOver), Releases(CopyHold))) else None
    case ClientDrops =>
      if g.client == HoldsBlock
      then Some((g.(refCount := g.refCount - 1, client := if g.refCount - 1 > 0 then ClientOver else DisposingClient),
                 Silent))
      else None
    case ClientDisposes =>
      if g.client == DisposingClient then Some((g.(disposals := g.disposals + 1, client := ClientOver), Silent))
          else None
  }

  function GetHolds(g: Get): set<Hold> {
    (if g.caller == CallingLocalGet || g.local !in {NotYet, LocalOver} then {FirstHold} else {})
    + (if g.local in {CallingRemoteGet, CompletingRemote} || g.local.RemoteRejected?
       || g.remote !in {NotAsked, RemoteOver}
       then {SecondHold} else {})
    + if g.remote in {CallingCopy, CopyRejected} || g.copy !in {NotCopied, CopyOver} then {CopyHold} else {}
  }

  /** The client has, or is about to be given, its reference to the cached block. */
  predicate ClientRefers(g: Get) {
    g.remote == Wrapped || g.client == HoldsBlock
  }

  /** The local copy has its reference to the cached block. */
  predicate CopyRefers(g: Get) {
    g.remote in {Wrapped, Delivered, CallingCopy, CopyRejected, DroppingCopy} || g.copy == CopyAccepted
  }

  /** How many of the three may dispose the original block right now. */
  function Disposers(g: Get): nat {
    (if g.remote == DisposingForCopy then 1 else 0) + (if g.copy == DisposingCopy then 1 else 0)
    + if g.client == DisposingClient then 1 else 0
  }

  /** The client was told something. */
  predicate HasReported(g: Get) {
    && g.local in {CompletingRemote, CompletingLocal, LocalOver}
    && (g.remote == NotAsked || !(g.remote.RemoteAnswered? || g.remote == Wrapped))
  }

  /** How far the callbacks of a get can be relative to each other, and when the client
      was told what. */
  ghost predicate GetOrder(g: Get) {
    && (g.local == NotYet <==> g.caller != GetReturned)
    && (g.remote != NotAsked ==> g.local in {CompletingLocal, LocalOver})
    && (g.copy != NotCopied ==> g.remote in {CompletingGet, RemoteOver})
    && (g.remote in {Delivered, CallingCopy, CopyRejected, DroppingCopy, DisposingForCopy} ==> g.client != Unserved)
    && (g.copy != NotCopied ==> g.client != Unserved)
    && (g.client != Unserved ==> HasReported(g) && g.remote != NotAsked)
    && |g.reported| == (if HasReported(g) then 1 else 0)
    && (HasReported(g) ==> (g.client != Unserved <==> g.reported[0] == GotCachedBlock))
  }

  /** The reference count of the cached block counts its holders; when it drops to zero
      the original block is disposed once. */
  ghost predicate RefsOk(g: Get) {
    && g.refCount == (if ClientRefers(g) then 1 else 0) + (if CopyRefers(g) then 1 else 0)
    && g.disposals + Disposers(g) == if (g.remote == Wrapped || g.client != Unserved) && g.refCount == 0 then 1 else 0
  }

  /** The remote store was asked because the local store has no block; where the callbacks
      are, they have the answers of the stores. */
  ghost predicate AnswersOk(g: Get) {
    && (g.heard == None <==> g.local == NotYet)
    && (g.local.LocalAnswered? ==> g.heard == Some(g.local.answer) && g.replied == None)
    && (g.local == CallingRemoteGet ==> g.heard.value.Missing? && g.replied == None)
    && (g.local.RemoteRejected? ==> g.replied == Some(Declined(g.local.err)))
    && (g.remote.RemoteAnswered? ==> g.replied == Some(Replied(g.remote.answer)))
    && (g.remote == Wrapped ==> g.replied == Some(Replied(Found)))
    && (g.replied.Some? ==> g.heard.Some? && g.heard.value.Missing?)
    && (g.local in {CompletingRemote, CompletingLocal, LocalOver} && g.heard.value.Missing? ==> g.replied.Some?)
    && (g.remote == NotAsked <==> g.replied == None || g.replied.value.Declined?)
    && (g.reported != [] ==> g.heard.Some? && ReportFits(g.reported[0], g.heard.value, g.replied))
  }

  /** The report is the one for these answers. */
  ghost predicate ReportFits(r: GetReport, heard: Answer, replied: Option<Reply>) {
    match heard
    case Found => r == GotBlock
    case Broken(err) => r == GotError(err)
    case Missing(_) =>
      match replied
      case None => false
      case Some(Declined(err)) => r == GotError(err)
      case Some(Replied(answer)) => r == if answer.Found? then GotCachedBlock else GotError(answer.err)
  }

  lemma GetStepAnswers(g: Get, e: GetEvent)
    requires GetOrder(g) && AnswersOk(g) && GetStep(g, e).Some?
    ensures AnswersOk(GetStep(g, e).value.0)
  {
  }

  /** What a step tells of the stores. */
  lemma GetStepHears(g: Get, e: GetEvent)
    requires GetOrder(g) && AnswersOk(g) && GetStep(g, e).Some?
    ensures var g' := GetStep(g, e).value.0;
            && (if e.LocalGetAnswers? then g.heard == None && g'.heard == Some(e.answer) else g'.heard == g.heard)
            && (if e.RemoteGetAccepts? then g.replied == None && g'.replied == Some(Replied(e.answer))
                else if e.RemoteGetRejects? then g.replied == None && g'.replied == Some(Declined(e.err))
                else g'.replied == g.replied)
  {
  }

  /** The get is behind the call that puts a copy into the local store. */
  predicate HasCopied(g: Get) {
    g.replied == Some(Replied(Found))
    && !(g.remote.RemoteAnswered? || g.remote in {Wrapped, Delivered, CallingCopy})
  }

  lemma GetStepCopies(g: Get, e: GetEvent)
    requires GetOrder(g) && AnswersOk(g) && GetStep(g, e).Some?
    ensures HasCopied(GetStep(g, e).value.0) <==> HasCopied(g) || e == CopyAccepts || e == CopyRejects
  {
  }

  lemma GetStepHolds(g: Get, e: GetEvent)
    requires GetOrder(g) && GetStep(g, e).Some?
    ensures var (g', effect) := GetStep(g, e).value;
            Fits(GetHolds(g), effect) && GetHolds(g') == After(GetHolds(g), effect)
  {
  }

  lemma GetStepOrder(g: Get, e: GetEvent)
    requires GetOrder(g) && GetStep(g, e).Some?
    ensures GetOrder(GetStep(g, e).value.0)
  {
  }

  lemma GetStepRefs(g: Get, e: GetEvent)
    requires GetOrder(g) && RefsOk(g) && GetStep(g, e).Some?
    ensures RefsOk(GetStep(g, e).value.0)
  {
  }

  ghost predicate GetFinished(g: Get) {
    g.local == LocalOver && g.remote in {NotAsked, RemoteOver} && g.copy in {NotCopied, CopyOver}
  }

  /** A get reports at most once, and exactly once when it is finished. */
  lemma GetReportsOnce(g: Get)
    requires GetOrder(g)
    ensures |g.reported| <= 1
    ensures GetFinished(g) ==> |g.reported| == 1
  {
  }

  /** The original block is disposed at most once, never while the client or the local
      copy holds the cached block, and for sure when both are done with it. */
  lemma OriginalDisposedOnce(g: Get)
    requires GetOrder(g) && RefsOk(g)
    ensures g.disposals <= 1
    ensures g.disposals == 1 ==> !ClientRefers(g) && !CopyRefers(g)
    ensures GetFinished(g) && g.reported == [GotCachedBlock] && g.client == ClientOver ==> g.disposals == 1
  {
  }

  /** From its first count to the end of the client callback and the local copy, a get
      holds the pending count up. */
  lemma GetAlwaysCovered(g: Get)
    requires GetOrder(g) && g.caller != GetCalled && !GetFinished(g)
    ensures GetHolds(g) != {}
  {
    assert FirstHold in GetHolds(g) || SecondHold in GetHolds(g) || CopyHold in GetHolds(g);
  }

  // ----- The store -----

  datatype Request = APut(put: Put) | AGet(get: Get)

  function Holds(r: Request): set<Hold> {
    match r
    case APut(p) => PutHolds(p)
    case AGet(g) => GetHolds(g)
  }

  ghost predicate RequestOk(r: Request) {
    match r
    case APut(p) => PutOk(p)
    case AGet(g) => GetOrder(g) && RefsOk(g) && AnswersOk(g)
  }

  datatype Store = Store(gate: Gate, requests: map<nat, Request>)

  const EMPTY_STORE: Store := Store(OPEN, map[])

  datatype Event =
    | StartPut(id: nat)
    | StartGet(id: nat)
    | StepPut(id: nat, put: PutEvent)
    | StepGet(id: nat, get: GetEvent)
    | StepGate(gate: GateEvent)

  /** The effect of a request step on the gate. */
  function Apply(g: Gate, e: Effect): Option<Gate> {
    match e
    case Silent => Some(g)
    case Acquires(_) => Some(Acquire(g))
    case Releases(_) => Release(g)
  }

  function StepRequest(r: Request, e: Event): Option<(Request, Effect)> {
    match (r, e)
    case (APut(p), StepPut(_, pe)) =>
      (match PutStep(p, pe) case Some(pair) => Some((APut(pair.0), pair.1)) case None => None)
    case (AGet(g), StepGet(_, ge)) =>
      (match GetStep(g, ge) case Some(pair) => Some((AGet(pair.0), pair.1)) case None => None)
    case _ => None
  }

  /** One step of the store, if it is possible. */
  function Next(s: Store, e: Event): Option<Store> {
    match e
    case StartPut(id) => if id in s.requests then None else Some(s.(requests := s.requests[id := APut(NEW_PUT)]))
    case StartGet(id) => if id in s.requests then None else Some(s.(requests := s.requests[id := AGet(NEW_GET)]))
    case StepGate(ge) =>
      (match GateStep(s.gate, ge) case Some(gate) => Some(s.(gate := gate)) case None => None)
    case _ =>
      if e.id !in s.requests then None
      else
        match StepRequest(s.requests[e.id], e)
        case None => None
        case Some(pair) =>
          match Apply(s.gate, pair.1)
          case None => None
          case Some(gate) => Some(Store(gate, s.requests[e.id := pair.0]))
  }

  /** The state after a run, if every step was possible. */
  function Run(s: Store, es: seq<Event>): Option<Store> {
    if es == [] then Some(s)
    else
      match Run(s, es[..|es| - 1])
      case None => None
      case Some(before) => Next(before, es[|es| - 1])
  }

  /** All holds of all requests. */
  ghost function Tokens(requests: map<nat, Request>): set<(nat, Hold)> {
    set id, h | id in requests && h in Holds(requests[id]) :: (id, h)
  }

  /** Every request is in order, and the pending count is the number of holds. */
  ghost predicate StoreOk(s: Store) {
    && GateOk(s.gate)
    && (forall id :: id in s.requests ==> RequestOk(s.requests[id]))
    && s.gate.pending == |Tokens(s.requests)|
  }

  lemma StepRequestOk(r: Request, e: Event)
    requires RequestOk(r) && StepRequest(r, e).Some?
    ensures var (r', effect) := StepRequest(r, e).value;
            RequestOk(r') && Fits(Holds(r), effect) && Holds(r') == After(Holds(r), effect)
  {
    hide PutStep, GetStep, PutOk, GetOrder, RefsOk, AnswersOk, PutHolds, GetHolds, Fits, After;
    match r
    case APut(p) => PutStepOk(p, e.put);
    case AGet(g) =>
      GetStepHolds(g, e.get);
      GetStepOrder(g, e.get);
      GetStepRefs(g, e.get);
      GetStepAnswers(g, e.get);
  }

  lemma TokensOf(requests: map<nat, Request>, id: nat, r: Request, t: (nat, Hold))
    requires id in requests
    ensures t in Tokens(requests) <==> t.0 in requests && t.1 in Holds(requests[t.0])
    ensures t in Tokens(requests[id := r]) <==> if t.0 == id then t.1 in Holds(r) else t in Tokens(requests)
  {
  }

  lemma TokensChange(requests: map<nat, Request>, id: nat, r: Request, effect: Effect)
    requires id in requests && Fits(Holds(requests[id]), effect) && Holds(r) == After(Holds(requests[id]), effect)
    ensures |Tokens(requests[id := r])| ==
            |Tokens(requests)| + if effect.Acquires? then 1 else if effect.Releases? then -1 else 0
    ensures effect.Releases? ==> |Tokens(requests)| > 0
  {
    hide Holds, Tokens;
    var before, after := Tokens(requests), Tokens(requests[id := r]);
    forall t: (nat, Hold)
      ensures t in before <==> t.0 in requests && t.1 in Holds(requests[t.0])
      ensures t in after <==> if t.0 == id then t.1 in Holds(r) else t in before
    {
      TokensOf(requests, id, r, t);
    }
    match effect
    case Silent => assert after == before;
    case Acquires(h) => assert after == before + {(id, h)};
    case Releases(h) =>
      assert (id, h) in before;
      assert after == before - {(id, h)};
  }

  lemma TokensOfNew(requests: map<nat, Request>, id: nat, r: Request)
    requires id !in requests && Holds(r) == {}
    ensures Tokens(requests[id := r]) == Tokens(requests)
  {
  }

  lemma NextOk(s: Store, e: Event)
    requires StoreOk(s) && Next(s, e).Some?
    ensures StoreOk(Next(s, e).value)
  {
    hide GateOk, RequestOk, Holds, StepRequest, Tokens, GateStep, Fits, After;
    NewRequestsOk();
    match e
    case StartPut(id) => TokensOfNew(s.requests, id, APut(NEW_PUT));
    case StartGet(id) => TokensOfNew(s.requests, id, AGet(NEW_GET));
    case StepGate(ge) => GateStepOk(s.gate, ge);
    case _ =>
      var (r, effect) := StepRequest(s.requests[e.id], e).value;
      StepRequestOk(s.requests[e.id], e);
      TokensChange(s.requests, e.id, r, effect);
      AcquireOk(s.gate);
      if effect.Releases? {
        ReleaseOk(s.gate);
      }
  }

  lemma NewRequestsOk()
    ensures RequestOk(APut(NEW_PUT)) && RequestOk(AGet(NEW_GET))
    ensures Holds(APut(NEW_PUT)) == {} && Holds(AGet(NEW_GET)) == {}
  {
    hide PutOk, GetOrder, RefsOk, AnswersOk, PutHolds, GetHolds;
    NewPutOk();
    NewGetOk();
  }

  lemma NewPutOk()
    ensures PutOk(NEW_PUT) && PutHolds(NEW_PUT) == {}
  {
  }

  lemma NewGetOk()
    ensures GetOrder(NEW_GET) && RefsOk(NEW_GET) && AnswersOk(NEW_GET) && GetHolds(NEW_GET) == {}
  {
  }

  lemma {:induction false} RunKeepsOk(s: Store, es: seq<Event>)
    requires StoreOk(s) && Run(s, es).Some?
    ensures StoreOk(Run(s, es).value)
  {
    hide Next, StoreOk;
    if es != [] {
      RunKeepsOk(s, es[..|es| - 1]);
      NextOk(Run(s, es[..|es| - 1]).value, es[|es| - 1]);
    }
  }

  /** Every run keeps every request in order and the pending count exact. */
  lemma RunOk(es: seq<Event>)
    requires Run(EMPTY_STORE, es).Some?
    ensures StoreOk(Run(EMPTY_STORE, es).value)
  {
    hide StoreOk;
    EmptyOk();
    RunKeepsOk(EMPTY_STORE, es);
  }

  lemma EmptyOk()
    ensures StoreOk(EMPTY_STORE)
  {
    OpenOk();
    assert Tokens(map[]) == {};
  }

  // ----- Over every run -----

  /** In every run, no flush is called twice; with no request pending and the lock free,
      every flush was called or is about to be, and once none is about to be, each was
      called exactly once. */
  lemma EveryFlushOnce(es: seq<Event>)
    requires Run(EMPTY_STORE, es).Some?
    ensures var g := Run(EMPTY_STORE, es).value.gate;
            && (forall k: nat :: Count(g.fired, k) <= if k < g.requested then 1 else 0)
            && (g.lock == Free && g.pending == 0 ==>
                  forall k: nat :: Count(g.taken, k) + Count(g.fired, k) == if k < g.requested then 1 else 0)
            && (g.lock == Free && g.pending == 0 && g.taken == [] ==>
                  forall k: nat :: Count(g.fired, k) == if k < g.requested then 1 else 0)
  {
    hide Run, Count, GateOk;
    RunOk(es);
    var g := Run(EMPTY_STORE, es).value.gate;
    NoFlushIsLost(g);
    forall k: nat | g.taken == []
      ensures Count(g.taken, k) == 0
    {
      NothingCounted(k);
    }
  }

  lemma PendingIffToken(s: Store)
    requires StoreOk(s)
    ensures s.gate.pending > 0 <==> exists id :: id in s.requests && Holds(s.requests[id]) != {}
  {
    hide Holds, GateOk, RequestOk;
    if id :| id in s.requests && Holds(s.requests[id]) != {} {
      var h :| h in Holds(s.requests[id]);
      assert (id, h) in Tokens(s.requests);
    }
    if s.gate.pending > 0 {
      var t :| t in Tokens(s.requests);
      assert t.0 in s.requests && t.1 in Holds(s.requests[t.0]);
    }
  }

  /** A request that is about to complete finds the pending count above zero. */
  lemma CompletionFindsPending(es: seq<Event>, id: nat, e: Event)
    requires Run(EMPTY_STORE, es).Some? && id in Run(EMPTY_STORE, es).value.requests
    requires StepRequest(Run(EMPTY_STORE, es).value.requests[id], e).Some?
    requires StepRequest(Run(EMPTY_STORE, es).value.requests[id], e).value.1.Releases?
    ensures Run(EMPTY_STORE, es).value.gate.pending > 0
  {
    hide Run, StepRequest, Holds, Tokens, RequestOk;
    RunOk(es);
    var s := Run(EMPTY_STORE, es).value;
    StepRequestOk(s.requests[id], e);
    PendingIffToken(s);
  }

  /** The put at the id, if there is one. */
  function PutAt(s: Store, id: nat): Option<Put> {
    if id in s.requests && s.requests[id].APut? then Some(s.requests[id].put) else None
  }

  /** The put knows what the remote store did in the run. */
  ghost predicate HeardPut(p: Option<Put>, es: seq<Event>, id: nat) {
    && (forall o :: StepPut(id, RemoteAccepts(o)) in es <==> p.Some? && Accepted(p.value, o))
    && (forall err :: StepPut(id, RemoteRejects(err)) in es <==> p.Some? && Refused(p.value, err))
  }

  lemma NextHearsPut(s: Store, e: Event, id: nat)
    requires StoreOk(s) && Next(s, e).Some?
    ensures var p, p' := PutAt(s, id), PutAt(Next(s, e).value, id);
            && (p.Some? ==> p'.Some?)
            && (p.None? && p'.Some? ==> p'.value == NEW_PUT)
            && (e.StepPut? && e.id == id ==> p.Some? && PutStep(p.value, e.put).Some? && PutOk(p.value)
                                             && p'.value == PutStep(p.value, e.put).value.0)
            && (!(e.StepPut? && e.id == id) && p.Some? ==> p' == p)
  {
    hide GateStep, PutStep, GetStep, GateOk, Tokens, Holds, GetOrder, RefsOk, AnswersOk, PutOk;
    if id in s.requests {
      assert RequestOk(s.requests[id]);
    }
  }

  lemma {:induction false} RunHearsPut(es: seq<Event>, id: nat)
    requires Run(EMPTY_STORE, es).Some?
    ensures HeardPut(PutAt(Run(EMPTY_STORE, es).value, id), es, id)
  {
    hide Next, StoreOk, PutStep, PutOk, Accepted, Refused, PutAt;
    if es == [] {
      NothingAccepted(id);
    } else {
      var front, last := es[..|es| - 1], es[|es| - 1];
      assert es == front + [last];
      RunHearsPut(front, id);
      RunOk(front);
      var s := Run(EMPTY_STORE, front).value;
      NextHearsPut(s, last, id);
      NothingAccepted(id);
      if last.StepPut? && last.id == id {
        PutStepHears(PutAt(s, id).value, last.put);
      }
    }
  }

  lemma NothingAccepted(id: nat)
    ensures PutAt(EMPTY_STORE, id) == None
    ensures forall o :: !Accepted(NEW_PUT, o) && !Refused(NEW_PUT, o)
  {
  }

  /** In every run, an accepted put that is over has told the client the remote answer,
      once; a put that returned an error was refused by the remote store with it. */
  lemma EveryPutReportsOnce(es: seq<Event>, id: nat)
    requires Run(EMPTY_STORE, es).Some? && id in Run(EMPTY_STORE, es).value.requests
    requires Run(EMPTY_STORE, es).value.requests[id].APut?
    ensures var p := Run(EMPTY_STORE, es).value.requests[id].put;
            && (p.reported != [] ==> p.reported == [p.outcome] && HasCounted(p.remote) && HasCounted(p.local))
            && (p.remote == Finished && p.local == Finished ==> p.reported == [p.outcome])
            && (p.caller.PutReturned? && p.caller.err != 0 ==>
                  p.reported == [] && StepPut(id, RemoteRejects(p.caller.err)) in es)
            && (p.reported != [] ==> StepPut(id, RemoteAccepts(p.reported[0])) in es)
  {
    hide Run;
    RunOk(es);
    RunHearsPut(es, id);
    var p := Run(EMPTY_STORE, es).value.requests[id].put;
    assert PutAt(Run(EMPTY_STORE, es).value, id) == Some(p);
    assert RequestOk(Run(EMPTY_STORE, es).value.requests[id]);
    PutReportsOnce(p);
    assert p.reported != [] ==> Accepted(p, p.reported[0]);
    assert p.caller.PutReturned? && p.caller.err != 0 ==> Refused(p, p.caller.err);
  }

  /** In every run, a get reports once and disposes the original block once, not while
      anybody holds it. */
  lemma EveryGetReportsOnce(es: seq<Event>, id: nat)
    requires Run(EMPTY_STORE, es).Some? && id in Run(EMPTY_STORE, es).value.requests
    requires Run(EMPTY_STORE, es).value.requests[id].AGet?
    ensures var g := Run(EMPTY_STORE, es).value.requests[id].get;
            && |g.reported| <= 1 && (GetFinished(g) ==> |g.reported| == 1)
            && g.disposals <= 1 && (g.disposals == 1 ==> !ClientRefers(g) && !CopyRefers(g))
            && (GetFinished(g) && g.reported == [GotCachedBlock] && g.client == ClientOver ==> g.disposals == 1)
  {
    hide Run, GetOrder, RefsOk, AnswersOk;
    RunOk(es);
    assert RequestOk(Run(EMPTY_STORE, es).value.requests[id]);
    GetReportsOnce(Run(EMPTY_STORE, es).value.requests[id].get);
    OriginalDisposedOnce(Run(EMPTY_STORE, es).value.requests[id].get);
  }

  // ----- Which answer is reported -----

  /** The step of the get was taken. */
  ghost predicate Did(es: seq<Event>, id: nat, e: GetEvent) {
    StepGet(id, e) in es
  }

  /** The get at the id, if there is one. */
  function GetAt(s: Store, id: nat): Option<Get> {
    if id in s.requests && s.requests[id].AGet? then Some(s.requests[id].get) else None
  }

  /** The get knows of the answers that the stores have given in the run. */
  ghost predicate HeardAll(g: Option<Get>, es: seq<Event>, id: nat) {
    && (forall a :: Did(es, id, LocalGetAnswers(a)) <==> g.Some? && g.value.heard == Some(a))
    && (forall a :: Did(es, id, RemoteGetAccepts(a)) <==> g.Some? && g.value.replied == Some(Replied(a)))
    && (forall err :: Did(es, id, RemoteGetRejects(err)) <==> g.Some? && g.value.replied == Some(Declined(err)))
    && (Did(es, id, CopyAccepts) || Did(es, id, CopyRejects) <==> g.Some? && HasCopied(g.value))
  }

  /** How a step of the store changes what a get has heard. */
  lemma NextHears(s: Store, e: Event, id: nat)
    requires StoreOk(s) && Next(s, e).Some?
    ensures var g, g' := GetAt(s, id), GetAt(Next(s, e).value, id);
            && (g.Some? ==> g'.Some?)
            && (g.None? && g'.Some? ==> g'.value == NEW_GET)
            && (e.StepGet? && e.id == id ==> g.Some? && GetStep(g.value, e.get).Some?
                                             && AnswersOk(g.value) && GetOrder(g.value)
                                             && g'.value == GetStep(g.value, e.get).value.0)
            && (!(e.StepGet? && e.id == id) && g.Some? ==> g' == g)
  {
    hide GateStep, PutStep, GetStep, GateOk, Tokens, Holds, GetOrder, RefsOk, AnswersOk, PutOk;
    if id in s.requests {
      assert RequestOk(s.requests[id]);
    }
  }

  lemma DidSnoc(es: seq<Event>, last: Event, id: nat, e: GetEvent)
    ensures Did(es + [last], id, e) <==> Did(es, id, e) || last == StepGet(id, e)
  {
  }

  lemma HeardNext(s: Store, es: seq<Event>, last: Event, id: nat)
    requires StoreOk(s) && Next(s, last).Some? && HeardAll(GetAt(s, id), es, id)
    ensures HeardAll(GetAt(Next(s, last).value, id), es + [last], id)
  {
    hide Next, StoreOk, GetStep, GetOrder, AnswersOk, GetAt, Did, HasCopied;
    NextHears(s, last, id);
    NewIsNotCopied();
    forall e
      ensures Did(es + [last], id, e) <==> Did(es, id, e) || last == StepGet(id, e)
    {
      DidSnoc(es, last, id, e);
    }
    if last.StepGet? && last.id == id {
      GetStepHears(GetAt(s, id).value, last.get);
      GetStepCopies(GetAt(s, id).value, last.get);
    }
  }

  lemma NewIsNotCopied()
    ensures !HasCopied(NEW_GET)
  {
  }

  lemma {:induction false} RunHears(es: seq<Event>, id: nat)
    requires Run(EMPTY_STORE, es).Some?
    ensures HeardAll(GetAt(Run(EMPTY_STORE, es).value, id), es, id)
  {
    hide Next, StoreOk;
    if es != [] {
      var front, last := es[..|es| - 1], es[|es| - 1];
      assert es == front + [last];
      RunHears(front, id);
      RunOk(front);
      HeardNext(Run(EMPTY_STORE, front).value, front, last, id);
    }
  }

  /** The remote store was asked, and answered or refused. */
  ghost predicate AskedRemote(es: seq<Event>, id: nat) {
    (exists a :: Did(es, id, RemoteGetAccepts(a))) || exists err :: Did(es, id, RemoteGetRejects(err))
  }

  /** In every run, a get that reports reports the block of the local store exactly if that
      had it, a cached block exactly if the local store had none and the remote store had
      it, and an error exactly if it is the one that the local store gave, or that the
      remote store answered or refused with. The remote store is asked exactly if the
      local store has no block, and what it has is put into the local store. */
  lemma EveryGetReportsTheAnswer(es: seq<Event>, id: nat)
    requires Run(EMPTY_STORE, es).Some? && GetAt(Run(EMPTY_STORE, es).value, id).Some?
    ensures var g := GetAt(Run(EMPTY_STORE, es).value, id).value;
            var missing := exists err :: Did(es, id, LocalGetAnswers(Missing(err)));
            && (AskedRemote(es, id) ==> missing)
            && (g.reported != [] && missing ==> AskedRemote(es, id))
            && (GetFinished(g) ==>
                  (Did(es, id, CopyAccepts) || Did(es, id, CopyRejects) <==> Did(es, id, RemoteGetAccepts(Found))))
            && (g.reported != [] ==>
                  && (g.reported == [GotBlock] <==> Did(es, id, LocalGetAnswers(Found)))
                  && (g.reported == [GotCachedBlock] <==> Did(es, id, RemoteGetAccepts(Found)))
                  && forall err :: g.reported == [GotError(err)] <==>
                       || Did(es, id, LocalGetAnswers(Broken(err)))
                       || Did(es, id, RemoteGetRejects(err))
                       || Did(es, id, RemoteGetAccepts(Missing(err))) || Did(es, id, RemoteGetAccepts(Broken(err))))
  {
    hide Run, Did, GetOrder, RefsOk, ReportFits;
    RunOk(es);
    RunHears(es, id);
    var g := GetAt(Run(EMPTY_STORE, es).value, id).value;
    assert RequestOk(Run(EMPTY_STORE, es).value.requests[id]);
    GetReportsOnce(g);
    if g.heard.Some? {
      assert Did(es, id, LocalGetAnswers(g.heard.value));
    }
    if g.replied.Some? {
      assert if g.replied.value.Replied? then Did(es, id, RemoteGetAccepts(g.replied.value.answer))
          else Did(es, id, RemoteGetRejects(g.replied.value.err));
    }
    if g.reported != [] {
      ReportedAnswer(g);
    }
  }

  lemma ReportedAnswer(g: Get)
    requires AnswersOk(g) && GetOrder(g) && g.reported != []
    ensures g.heard.Some? && (g.heard.value.Missing? ==> g.replied.Some?)
    ensures g.reported == [GotBlock] <==> g.heard == Some(Found)
    ensures g.reported == [GotCachedBlock] <==> g.replied == Some(Replied(Found))
    ensures forall err :: g.reported == [GotError(err)] <==>
              || g.heard == Some(Broken(err)) || g.replied == Some(Declined(err))
              || g.replied == Some(Replied(Missing(err))) || g.replied == Some(Replied(Broken(err)))
  {
    GetReportsOnce(g);
  }

  /** The request does not hold the pending count up: it was not counted yet, it is
      finished, or it is a put whose remote half is over before its local half began. */
  ghost predicate Uncovered(r: Request) {
    match r
    case APut(p) => p.caller == PutCalled || PutFinished(p) || (p.caller == Window && p.remote == Finished)
    case AGet(g) => g.caller == GetCalled || GetFinished(g)
  }

  lemma UncoveredIff(r: Request)
    requires RequestOk(r)
    ensures Holds(r) == {} <==> Uncovered(r)
  {
    match r
    case APut(p) =>
      if p.caller != PutCalled && !PutFinished(p) {
        PutCoveredIff(p);
      }
    case AGet(g) =>
      if g.caller != GetCalled && !GetFinished(g) {
        GetAlwaysCovered(g);
      }
  }

  /** Exactly then a flush does not have to wait. */
  lemma FlushWaitsIff(es: seq<Event>)
    requires Run(EMPTY_STORE, es).Some?
    ensures var s := Run(EMPTY_STORE, es).value;
            s.gate.pending == 0 <==> forall id :: id in s.requests ==> Uncovered(s.requests[id])
  {
    hide Run, Holds, Tokens, RequestOk, Uncovered, GateOk;
    RunOk(es);
    var s := Run(EMPTY_STORE, es).value;
    PendingIffToken(s);
    forall id | id in s.requests
      ensures Holds(s.requests[id]) == {} <==> Uncovered(s.requests[id])
    {
      UncoveredIff(s.requests[id]);
    }
  }

  // ----- A flush that is queued inside a get waits for it -----

  ghost predicate GetInProgress(s: Store, id: nat) {
    id in s.requests && s.requests[id].AGet? && s.requests[id].get.caller != GetCalled
        && !GetFinished(s.requests[id].get)
  }

  lemma CountedGetStaysCounted(s: Store, e: Event, id: nat)
    requires Next(s, e).Some? && id in s.requests && s.requests[id].AGet? && s.requests[id].get.caller != GetCalled
    ensures var s' := Next(s, e).value;
            id in s'.requests && s'.requests[id].AGet? && s'.requests[id].get.caller != GetCalled
  {
    hide GateStep, PutStep;
  }

  lemma FinishedGetStaysFinished(s: Store, e: Event, id: nat)
    requires StoreOk(s) && Next(s, e).Some? && id in s.requests && s.requests[id].AGet?
               && GetFinished(s.requests[id].get)
    ensures var s' := Next(s, e).value;
            id in s'.requests && s'.requests[id].AGet? && GetFinished(s'.requests[id].get)
  {
    hide GateStep, PutStep, GateOk, Tokens, Holds, RefsOk, AnswersOk, PutOk;
    assert RequestOk(s.requests[id]);
  }

  lemma QueueGrowsInsideGet(s: Store, e: Event, id: nat)
    requires StoreOk(s) && Next(s, e).Some? && StoreOk(Next(s, e).value)
    requires GetInProgress(s, id) && GetInProgress(Next(s, e).value, id)
    requires s.gate.lock != Releasing(Some(true))
    ensures Next(s, e).value.gate.lock != Releasing(Some(true))
    ensures s.gate.queue <= Next(s, e).value.gate.queue
  {
    hide PutStep, GetStep, GateOk, RefsOk, AnswersOk, PutOk, GetOrder, Holds, Tokens, GetFinished;
    var s' := Next(s, e).value;
    assert RequestOk(s'.requests[id]);
    CoveredGet(s', id);
    PendingIffToken(s');
  }

  /** Inside a get, flushes wait on, and those that are called begin to wait. */
  lemma WaitsInsideGet(s: Store, e: Event, id: nat, k: nat)
    requires StoreOk(s) && Next(s, e).Some? && GetInProgress(s, id) && s.gate.lock != Releasing(Some(true))
    requires Waiting(s.gate, k) || s.gate.requested <= k < Next(s, e).value.gate.requested
    ensures Waiting(Next(s, e).value.gate, k)
  {
    hide PutStep, GetStep, GateStep, GateOk, RefsOk, AnswersOk, PutOk, GetOrder, Holds, Tokens, GetFinished;
    assert RequestOk(s.requests[id]);
    CoveredGet(s, id);
    PendingIffToken(s);
    if e.StepGate? {
      WaitingGoesOn(s.gate, e.gate, k);
    }
  }

  lemma CoveredGet(s: Store, id: nat)
    requires GetInProgress(s, id) && RequestOk(s.requests[id])
    ensures Holds(s.requests[id]) != {}
  {
    GetAlwaysCovered(s.requests[id].get);
  }

  /** What is queued while a get is in progress stays queued until the get is finished,
      that is until its client was called back and its local copy is done. A flush that is
      called while the get is in progress waits, and is not called back. */
  lemma {:induction false} FlushWaitsForGet(s: Store, es: seq<Event>, id: nat)
    requires StoreOk(s) && GetInProgress(s, id) && s.gate.lock != Releasing(Some(true))
    requires Run(s, es).Some? && GetInProgress(Run(s, es).value, id)
    ensures StoreOk(Run(s, es).value) && Run(s, es).value.gate.lock != Releasing(Some(true))
    ensures s.gate.queue <= Run(s, es).value.gate.queue
    ensures forall k: nat :: Waiting(s.gate, k) || s.gate.requested <= k < Run(s, es).value.gate.requested ==>
              var g := Run(s, es).value.gate; Waiting(g, k) && k !in g.taken && k !in g.fired
  {
    hide Next, StoreOk, GetFinished, Waiting;
    if es != [] {
      InProgressBefore(s, es, id);
      var mid, e := Run(s, es[..|es| - 1]).value, es[|es| - 1];
      FlushWaitsForGet(s, es[..|es| - 1], id);
      NextOk(mid, e);
      QueueGrowsInsideGet(mid, e, id);
      forall k: nat | Waiting(s.gate, k) || s.gate.requested <= k < Run(s, es).value.gate.requested
        ensures Waiting(Run(s, es).value.gate, k)
      {
        WaitsInsideGet(mid, e, id, k);
      }
    }
    forall k: nat | Waiting(Run(s, es).value.gate, k)
      ensures k !in Run(s, es).value.gate.taken && k !in Run(s, es).value.gate.fired
    {
      WaitingCalledNot(Run(s, es).value, k);
    }
  }

  lemma WaitingCalledNot(s: Store, k: nat)
    requires StoreOk(s) && Waiting(s.gate, k)
    ensures k !in s.gate.taken && k !in s.gate.fired
  {
    WaitingIsNotCalled(s.gate, k);
  }

  /** A get that is in progress after a run was in progress all along. */
  lemma {:induction false} InProgressBefore(s: Store, es: seq<Event>, id: nat)
    requires StoreOk(s) && es != [] && GetInProgress(s, id) && Run(s, es).Some? && GetInProgress(Run(s, es).value, id)
    ensures Run(s, es[..|es| - 1]).Some? && GetInProgress(Run(s, es[..|es| - 1]).value, id)
  {
    hide Next, GetFinished, StoreOk;
    var front := es[..|es| - 1];
    GetStaysCounted(s, front, id);
    RunKeepsOk(s, front);
    if GetFinished(Run(s, front).value.requests[id].get) {
      FinishedGetStaysFinished(Run(s, front).value, es[|es| - 1], id);
    }
  }

  lemma {:induction false} GetStaysCounted(s: Store, es: seq<Event>, id: nat)
    requires GetInProgress(s, id) && Run(s, es).Some?
    ensures var s' := Run(s, es).value;
            id in s'.requests && s'.requests[id].AGet? && s'.requests[id].get.caller != GetCalled
  {
    hide Next, GetFinished;
    if es != [] {
      GetStaysCounted(s, es[..|es| - 1], id);
      CountedGetStaysCounted(Run(s, es[..|es| - 1]).value, es[|es| - 1], id);
    }
  }

  // ----- A flush can be called inside a put -----

  lemma RunThen(s: Store, es: seq<Event>, e: Event, mid: Store)
    requires Run(s, es) == Some(mid)
    ensures Run(s, es + [e]) == Next(mid, e)
  {
    assert (es + [e])[..|es|] == es;
  }

  /** One put alone in the store. */
  function Alone(g: Gate, p: Put): Store {
    Store(g, map[0 := APut(p)])
  }

  lemma ThenPut(es: seq<Event>, g: Gate, p: Put, e: PutEvent, g': Gate, p': Put, effect: Effect)
    requires Run(EMPTY_STORE, es) == Some(Alone(g, p)) && PutStep(p, e) == Some((p', effect))
               && Apply(g, effect) == Some(g')
    ensures Run(EMPTY_STORE, es + [StepPut(0, e)]) == Some(Alone(g', p'))
  {
    hide Run, PutStep, Apply;
    assert map[0 := APut(p)][0 := APut(p')] == map[0 := APut(p')];
    assert Next(Alone(g, p), StepPut(0, e)) == Some(Alone(g', p'));
    RunThen(EMPTY_STORE, es, StepPut(0, e), Alone(g, p));
  }

  lemma ThenGate(es: seq<Event>, g: Gate, p: Put, e: GateEvent, g': Gate)
    requires Run(EMPTY_STORE, es) == Some(Alone(g, p)) && GateStep(g, e) == Some(g')
    ensures Run(EMPTY_STORE, es + [StepGate(e)]) == Some(Alone(g', p))
  {
    hide Run, GateStep;
    RunThen(EMPTY_STORE, es, StepGate(e), Alone(g, p));
  }

  /** A put is counted, a flush is queued behind it. */
  lemma QueuedBehindPut() returns (es: seq<Event>)
    ensures Run(EMPTY_STORE, es) == Some(Alone(Gate(1, Free, [0], [], [], 1), NEW_PUT.(caller := CallingRemote)))
  {
    hide Run, Next;
    es := [StartPut(0)];
    OneStarted();
    var p := NEW_PUT.(caller := CallingRemote);
    ThenPut(es, OPEN, NEW_PUT, CountRemote, OPEN.(pending := 1), p, Acquires(FirstHold));
    es := es + [StepPut(0, CountRemote)];
    ThenGate(es, OPEN.(pending := 1), p, LockFlush, Gate(1, Flushing(0, None), [], [], [], 1));
    es := es + [StepGate(LockFlush)];
    ThenGate(es, Gate(1, Flushing(0, None), [], [], [], 1), p, ReadCount,
             Gate(1, Flushing(0, Some(true)), [], [], [], 1));
    es := es + [StepGate(ReadCount)];
    ThenGate(es, Gate(1, Flushing(0, Some(true)), [], [], [], 1), p, FinishFlush, Gate(1, Free, [] + [0], [], [], 1));
    es := es + [StepGate(FinishFlush)];
    assert [] + [0] == [0];
  }

  lemma OneStarted()
    ensures Run(EMPTY_STORE, [StartPut(0)]) == Some(Alone(OPEN, NEW_PUT))
  {
    RunThen(EMPTY_STORE, [], StartPut(0), EMPTY_STORE);
    assert [] + [StartPut(0)] == [StartPut(0)];
  }

  /** The flush is called although the put it was queued behind has not even started its
      local half. */
  lemma FlushInsidePut() returns (es: seq<Event>)
    ensures Run(EMPTY_STORE, es).Some?
    ensures var s := Run(EMPTY_STORE, es).value;
            && s.gate.fired == [0] && 0 in s.requests && s.requests[0].APut?
            && !PutFinished(s.requests[0].put) && s.requests[0].put.reported == [] && s.requests[0].put.local == Unset
  {
    hide Run, Next;
    es := QueuedBehindPut();
    var g, p := Gate(1, Free, [0], [], [], 1), NEW_PUT.(caller := CallingRemote);
    ThenPut(es, g, p, RemoteAccepts(0), g, p.(caller := Window, remote := Armed), Silent);
    es, p := es + [StepPut(0, RemoteAccepts(0))], p.(caller := Window, remote := Armed);
    ThenPut(es, g, p, StoreError, g, p.(remote := Stored, remoteErr := 0), Silent);
    es, p := es + [StepPut(0, StoreError)], p.(remote := Stored, remoteErr := 0);
    ThenPut(es, g, p, RemoteCountsDown, g, p.(remote := Counted(false), pendingCount := 1), Silent);
    es, p := es + [StepPut(0, RemoteCountsDown)], p.(remote := Counted(false), pendingCount := 1);
    ThenGate(es, g, p, LockRelease, g.(lock := Releasing(None)));
    es, g := es + [StepGate(LockRelease)], g.(lock := Releasing(None));
    ThenPut(es, g, p, RemoteCompletes, g.(pending := 0, lock := Releasing(Some(true))), p.(remote := Finished),
            Releases(FirstHold));
    es, g, p := es + [StepPut(0, RemoteCompletes)], g.(pending := 0, lock := Releasing(Some(true))),
        p.(remote := Finished);
    ThenGate(es, g, p, FinishRelease, Gate(0, Free, [], [] + [0], [], 1));
    es, g := es + [StepGate(FinishRelease)], Gate(0, Free, [], [] + [0], [], 1);
    assert [0][..0] + [0][1..] == [] && [] + [0] == [0];
    ThenGate(es, g, p, FireFlush(0), Gate(0, Free, [], [], [0], 1));
    es := es + [StepGate(FireFlush(0))];
  }
}
