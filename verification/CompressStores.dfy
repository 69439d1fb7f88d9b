/** The compressing block store (lib/compressblockstore): blocks with a tag are compressed
    on their way to the backing store and decompressed on their way back. Requests and
    flushes follow the protocol of the caching store, with one hold for each request. */
module CompressStores {
  import opened Prelude
  import opened Packing
  import opened FlushGates

  // ----- Framing -----

  const WORD: nat := 0x1_0000_0000

  /** The size of the two words before the compressed bytes. */
  const HEADER: nat := 8

  /** Decompressing gets the size that the result must not exceed. */
  datatype Codec = Codec(maxSize: nat -> nat, compress: seq<byte> -> Result<seq<byte>>,
                         decompress: (seq<byte>, nat) -> Result<seq<byte>>)

  datatype Block = Block(index: BlockIndex, data: seq<byte>)

  function ReadWord(s: seq<byte>, at: nat): nat
    requires at + 4 <= |s|
  {
    s[at] as nat + 0x100 * s[at + 1] as nat + 0x1_0000 * s[at + 2] as nat + 0x100_0000 * s[at + 3] as nat
  }

  method WriteWord(a: array<byte>, at: nat, w: nat)
    requires at + 4 <= a.Length && w < WORD
    modifies a
    ensures ReadWord(a[..], at) == w
    ensures forall i :: 0 <= i < a.Length && !(at <= i < at + 4) ==> a[i] == old(a[i])
  {
    var low, high := w % 0x1_0000, w / 0x1_0000;
    a[at], a[at + 1] := (low % 0x100) as byte, (low / 0x100) as byte;
    a[at + 2], a[at + 3] := (high % 0x100) as byte, (high / 0x100) as byte;
  }

  /** The data is two words, the sizes without and with compression, and the compressed
      bytes. */
  ghost predicate Framed(data: seq<byte>, size: nat, compressed: seq<byte>) {
    && |data| == HEADER + |compressed| && data[HEADER..] == compressed
    && ReadWord(data, 0) == size && ReadWord(data, 4) == |compressed|
  }

  /** Sizes fit into their words, and the codec keeps the size it announces. */
  ghost predicate CompressFits(codec: Codec, data: seq<byte>) {
    && |data| < WORD
    && match codec.compress(data)
       case Failure(_) => true
       case Success(c) => |c| <= codec.maxSize(|data|) && HEADER + |c| < WORD
  }

  /** A block without a tag is stored as it is: the answer is then no block. */
  method CompressBlock(registry: nat -> Result<Codec>, block: Block) returns (r: Result<Option<Block>>)
    requires block.index.tag != 0 && registry(block.index.tag).Success? ==>
               CompressFits(registry(block.index.tag).value, block.data)
    ensures block.index.tag == 0 ==> r == Success(None)
    ensures block.index.tag != 0 ==>
              match registry(block.index.tag)
              case Failure(e) => r == Failure(e)
              case Success(codec) =>
                match codec.compress(block.data)
                case Failure(e) => r == Failure(e)
                case Success(c) =>
                  && r.Success? && r.value.Some? && r.value.value.index == block.index
                  && Framed(r.value.value.data, |block.data|, c)
  {
    if block.index.tag == 0 {
      return Success(None);
    }
    var codec := registry(block.index.tag);
    if codec.Failure? {
      return Failure(codec.errno);
    }
    var buffer := new byte[HEADER + codec.value.maxSize(|block.data|)](_ => 0);
    var compressed := codec.value.compress(block.data);
    if compressed.Failure? {
      return Failure(compressed.errno);
    }
    var size := HEADER + |compressed.value|;
    CopyInto(buffer, HEADER, compressed.value);
    WriteWord(buffer, 0, |block.data|);
    assert ReadWord(buffer[..size], 0) == |block.data|;
    WriteWord(buffer, 4, |compressed.value|);
    r := Success(Some(Block(block.index, buffer[..size])));
  }

  /** The header is there, and so are the bytes it announces. */
  predicate HasFrame(data: seq<byte>) {
    HEADER <= |data| && HEADER + ReadWord(data, 4) <= |data|
  }

  /** The size of what a codec returns; without a result it is 0. */
  function ResultSize(result: Result<seq<byte>>): nat {
    if result.Success? then |result.value| else 0
  }

  /** What the codec makes of the bytes behind the header. */
  function Decode(codec: Codec, data: seq<byte>): Result<seq<byte>>
    requires HasFrame(data)
  {
    codec.decompress(data[HEADER..HEADER + ReadWord(data, 4)], ReadWord(data, 0))
  }

  /** What becomes of a stored block: the error of the registry, EBADF exactly if the size of
      the result is not the announced one, or else a block with the index and that many
      bytes, those of the codec if it did not fail. */
  ghost predicate IsDecompressed(registry: nat -> Result<Codec>, block: Block, r: Result<Block>)
    requires HasFrame(block.data)
  {
    var codec, size := registry(block.index.tag), ReadWord(block.data, 0);
    && (codec.Failure? ==> r == Failure(codec.errno))
    && (codec.Success? ==>
          var result := Decode(codec.value, block.data);
          && (r == Failure(EBADF) <==> ResultSize(result) != size) && (r.Success? <==> ResultSize(result) == size)
          && (r.Success? ==> r.value.index == block.index && |r.value.data| == size)
          && (r.Success? && result.Success? ==> r.value.data == result.value))
  }

  /** The error of the codec is not looked at, only the size of its result. */
  method DecompressBlock(registry: nat -> Result<Codec>, block: Block) returns (r: Result<Block>)
    requires HasFrame(block.data)
    ensures IsDecompressed(registry, block, r)
  {
    var codec := registry(block.index.tag);
    if codec.Failure? {
      return Failure(codec.errno);
    }
    var uncompressedSize, compressedSize := ReadWord(block.data, 0), ReadWord(block.data, 4);
    var realSize, plain := 0, [];
    var result := codec.value.decompress(block.data[HEADER..HEADER + compressedSize], uncompressedSize);
    if result.Success? {
      realSize, plain := |result.value|, result.value;
    }
    if realSize != uncompressedSize {
      return Failure(EBADF);
    }
    r := Success(Block(block.index, plain));
  }

  lemma FrameDecodes(stored: seq<byte>, size: nat, codec: Codec, c: seq<byte>)
    requires Framed(stored, size, c)
    ensures HasFrame(stored) && Decode(codec, stored) == codec.decompress(c, size)
  {
    assert stored[HEADER..HEADER + |c|] == c;
  }

  /** What was compressed and framed comes back, if the codec gives it back. */
  lemma FrameRoundTrip(registry: nat -> Result<Codec>, block: Block, stored: Block, codec: Codec, c: seq<byte>,
                       r: Result<Block>)
    requires registry(block.index.tag) == Success(codec) && codec.compress(block.data) == Success(c)
    requires codec.decompress(c, |block.data|) == Success(block.data)
    requires stored.index == block.index && Framed(stored.data, |block.data|, c)
    ensures HasFrame(stored.data) && (IsDecompressed(registry, stored, r) ==> r == Success(block))
  {
    FrameDecodes(stored.data, |block.data|, codec, c);
  }

  /** If the codec fails on a stored block, this goes unnoticed exactly if the block was
      empty before it was compressed. */
  lemma FailureUnnoticedIff(registry: nat -> Result<Codec>, block: Block, stored: Block, codec: Codec, c: seq<byte>,
                            r: Result<Block>)
    requires registry(block.index.tag) == Success(codec) && codec.decompress(c, |block.data|).Failure?
    requires stored.index == block.index && Framed(stored.data, |block.data|, c)
    ensures HasFrame(stored.data) && (IsDecompressed(registry, stored, r) ==> (r.Success? <==> block.data == []))
  {
    FrameDecodes(stored.data, |block.data|, codec, c);
  }

  /** A codec that fails on everything it is to decompress. */
  function Broken(): Codec {
    Codec((n: nat) => n, (data: seq<byte>) => Success(data), (data: seq<byte>, size: nat) => Failure(EINVAL))
  }

  /** A block without chunks, stored compressed: the codec fails, and the block is delivered. */
  lemma UnnoticedFailure(r: Result<Block>) returns (stored: Block)
    ensures stored.index.tag == 1 && HasFrame(stored.data) && Decode(Broken(), stored.data) == Failure(EINVAL)
    ensures IsDecompressed(tag => Success(Broken()), stored, r) ==> r == Success(Block(stored.index, []))
  {
    stored := Block(BlockIndex(0, 0, 1, [], []), [0, 0, 0, 0, 0, 0, 0, 0]);
    FrameDecodes(stored.data, 0, Broken(), []);
  }

  // ----- Puts -----

  datatype PutCaller = Called | Failed(err: int) | Ready | Calling | Rejected(err: int) | Crashed | Dropped(err: int)
                     | Returned(err: int)

  datatype Callback = Unset | Armed | Cleared | Reported | Finished

  /** A put: the tag of its block, whether it made a compressed block, how often that was
      disposed, the answer of the backing store, and what the client was told. */
  datatype Put = Put(tag: nat, caller: PutCaller, callback: Callback, compressed: bool, disposals: nat, outcome: int,
                     reported: seq<int>)

  function NewPut(tag: nat): Put {
    Put(tag, Called, Unset, false, 0, 0, [])
  }

  datatype PutEvent =
    | CompressFails(err: int)
    | Compresses
    | CountPut
    | BackingAccepts(outcome: int)
    | BackingRejects(err: int)
    | DropRejected
    | CompleteRejected
    | DropCompressed
    | ReportPut
    | CompletePut

  datatype Effect = Silent | Acquires | Releases

  function PutStep(p: Put, e: PutEvent): Option<(Put, Effect)> {
    match e
    case CompressFails(err) =>
      if p.caller == Called && p.tag != 0 && err != 0 then Some((p.(caller := Failed(err)), Silent)) else None
    case Compresses =>
      // CompressBlock makes no block if there is no tag
      if p.caller == Called then Some((p.(caller := Ready, compressed := p.tag != 0), Silent)) else None
    case CountPut =>
      if p.caller == Ready then Some((p.(caller := Calling), Acquires)) else None
    case BackingAccepts(outcome) =>
      if p.caller == Calling then Some((p.(caller := Returned(0), callback := Armed, outcome := outcome), Silent))
          else None
    case BackingRejects(err) =>
      if p.caller == Calling && err != 0 then Some((p.(caller := Rejected(err)), Silent)) else None
    case DropRejected =>
      // the compressed block is disposed without asking whether there is one
      if p.caller.Rejected?
      then Some((if p.compressed then p.(caller := Dropped(p.caller.err), disposals := p.disposals + 1)
                 else p.(caller := Crashed), Silent))
      else None
    case CompleteRejected =>
      if p.caller.Dropped? then Some((p.(caller := Returned(p.caller.err)), Releases)) else None
    case DropCompressed =>
      if p.callback == Armed
      then Some((p.(callback := Cleared, disposals := p.disposals + if p.compressed then 1 else 0), Silent)) else None
    case ReportPut =>
      if p.callback == Cleared then Some((p.(callback := Reported, reported := p.reported + [p.outcome]), Silent))
          else None
    case CompletePut =>
      if p.callback == Reported then Some((p.(callback := Finished), Releases)) else None
  }

  predicate PutHolds(p: Put) {
    p.caller in {Calling, Crashed} || p.caller.Rejected? || p.caller.Dropped? || p.callback !in {Unset, Finished}
  }

  /** The put was refused: by its codec or by the backing store. */
  predicate PutRefused(p: Put) {
    p.caller.Failed? || p.caller.Crashed? || p.caller.Dropped? || (p.caller.Returned? && p.caller.err != 0)
  }

  ghost predicate PutOk(p: Put) {
    && (p.callback == Unset <==> p.caller != Returned(0))
    && (p.caller.Failed? || p.caller.Rejected? || p.caller.Dropped? ==> p.caller.err != 0)
    && (p.compressed <==> p.tag != 0 && p.caller != Called && !p.caller.Failed?)
    && (p.caller == Crashed ==> p.tag == 0)
    && (p.caller.Dropped? || (p.caller.Returned? && p.caller.err != 0) ==> p.tag != 0)
    && p.reported == (if p.callback in {Reported, Finished} then [p.outcome] else [])
    && p.disposals == if p.compressed && (PutRefused(p) || p.callback in {Cleared, Reported, Finished}) then 1 else 0
  }

  /** The backing store accepted the put, and answered this. */
  ghost predicate Accepted(p: Put, outcome: int) {
    p.callback != Unset && p.outcome == outcome
  }

  ghost predicate Refused(p: Put, err: int) {
    p.caller == Rejected(err) || p.caller == Dropped(err) || (p.caller == Returned(err) && err != 0)
  }

  /** What a step tells of the backing store. */
  lemma PutStepHears(p: Put, e: PutEvent)
    requires PutOk(p) && PutStep(p, e).Some?
    ensures var p' := PutStep(p, e).value.0;
            && (forall o :: Accepted(p', o) <==> Accepted(p, o) || e == BackingAccepts(o))
            && (forall err :: Refused(p', err) ==> Refused(p, err) || e == BackingRejects(err))
  {
  }

  lemma PutStepOk(p: Put, e: PutEvent)
    requires PutOk(p) && PutStep(p, e).Some?
    ensures var (p', effect) := PutStep(p, e).value;
            PutOk(p') && Holding(PutHolds(p), effect, PutHolds(p'))
  {
  }

  /** The effect of a step fits whether the request holds the pending count up. */
  predicate Holding(before: bool, e: Effect, after: bool) {
    match e
    case Silent => before == after
    case Acquires => !before && after
    case Releases => before && !after
  }

  // ----- Gets -----

  datatype Answer = Found(plain: bool) | NotFound(err: int)

  datatype GetCaller = GetCalled | CallingGet | GetRejected(err: int) | GetReturned(err: int)

  datatype GetCallback = NotAnswered | Answered(answer: Answer) | Decompressed | Spoiled(err: int)
                       | SpoiledDropped(err: int) | GetReported | GetFinished

  datatype GetReport = GotStored | GotDecompressed | GotError(err: int)

  /** How decompressing went. */
  datatype Unpacking = Unpacked | Failing(err: int)

  /** A get: `disposals` counts how often the block of the backing store was disposed here,
      `heard` is the answer of that store, `unpacking` what became of the block. */
  datatype Get = Get(caller: GetCaller, callback: GetCallback, disposals: nat, heard: Option<Answer>,
                     unpacking: Option<Unpacking>, reported: seq<GetReport>)

  const NEW_GET: Get := Get(GetCalled, NotAnswered, 0, None, None, [])

  datatype GetEvent =
    | CountGet
    | GetAccepts(answer: Answer)
    | GetRejects(err: int)
    | CompleteRejectedGet
    | ReportAnswer
    | Decompresses
    | DecompressFails(err: int)
    | DropSpoiled
    | ReportDecompressed
    | ReportSpoiled
    | CompleteGet

  function GetStep(g: Get, e: GetEvent): Option<(Get, Effect)> {
    match e
    case CountGet =>
      if g.caller == GetCalled then Some((g.(caller := CallingGet), Acquires)) else None
    case GetAccepts(answer) =>
      if g.caller == CallingGet
      then Some((g.(caller := GetReturned(0), callback := Answered(answer), heard := Some(answer)), Silent)) else None
    case GetRejects(err) =>
      if g.caller == CallingGet && err != 0 then Some((g.(caller := GetRejected(err)), Silent)) else None
    case CompleteRejectedGet =>
      if g.caller.GetRejected? then Some((g.(caller := GetReturned(g.caller.err)), Releases)) else None
    case ReportAnswer =>
      if g.callback.Answered? && (g.callback.answer.NotFound? || g.callback.answer.plain)
      then Some((g.(callback := GetReported,
                    reported := g.reported + [if g.callback.answer.Found? then GotStored
                                              else GotError(g.callback.answer.err)]), Silent))
      else None
    case Decompresses =>
      // DecompressBlock disposes the block it was given
      if g.callback == Answered(Found(false))
      then Some((g.(callback := Decompressed, disposals := g.disposals + 1, unpacking := Some(Unpacked)), Silent))
      else None
    case DecompressFails(err) =>
      if g.callback == Answered(Found(false))
      then Some((g.(callback := Spoiled(err), unpacking := Some(Failing(err))), Silent)) else None
    case DropSpoiled =>
      if g.callback.Spoiled?
      then Some((g.(callback := SpoiledDropped(g.callback.err), disposals := g.disposals + 1), Silent)) else None
    case ReportDecompressed =>
      if g.callback == Decompressed
      then Some((g.(callback := GetReported, reported := g.reported + [GotDecompressed]), Silent)) else None
    case ReportSpoiled =>
      if g.callback.SpoiledDropped?
      then Some((g.(callback := GetReported, reported := g.reported + [GotError(g.callback.err)]), Silent)) else None
    case CompleteGet =>
      if g.callback == GetReported then Some((g.(callback := GetFinished), Releases)) else None
  }

  predicate GetHolds(g: Get) {
    g.caller == CallingGet || g.caller.GetRejected? || g.callback !in {NotAnswered, GetFinished}
  }

  ghost predicate GetOk(g: Get) {
    && (g.callback == NotAnswered <==> g.caller != GetReturned(0))
    && (g.caller.GetRejected? ==> g.caller.err != 0)
    && |g.reported| == (if g.callback in {GetReported, GetFinished} then 1 else 0)
    && (g.callback == NotAnswered || g.callback.Answered? || g.callback.Spoiled? ==> g.disposals == 0)
    && (g.callback == Decompressed || g.callback.SpoiledDropped? ==> g.disposals == 1)
    && (g.reported != [] && g.reported[0] == GotStored ==> g.disposals == 0)
    && (g.reported != [] && g.reported[0] == GotDecompressed ==> g.disposals == 1)
    && g.disposals <= 1
  }

  /** Where the callback is, it has the answer of the backing store and the fate of the block;
      what was reported fits them. */
  ghost predicate AnswersOk(g: Get) {
    && (g.heard == None <==> g.callback == NotAnswered)
    && (g.callback.Answered? ==> g.heard == Some(g.callback.answer) && g.unpacking == None)
    && (g.unpacking.Some? ==> g.heard == Some(Found(false)))
    && (g.callback == Decompressed ==> g.unpacking == Some(Unpacked))
    && (g.callback.Spoiled? || g.callback.SpoiledDropped? ==> g.unpacking == Some(Failing(g.callback.err)))
    && (g.reported != [] ==> g.heard.Some? && ReportFits(g.reported[0], g.heard.value, g.unpacking))
  }

  /** The report is the one for this answer. */
  ghost predicate ReportFits(r: GetReport, heard: Answer, unpacking: Option<Unpacking>) {
    match heard
    case NotFound(err) => r == GotError(err)
    case Found(true) => r == GotStored
    case Found(false) =>
      match unpacking
      case None => false
      case Some(Unpacked) => r == GotDecompressed
      case Some(Failing(err)) => r == GotError(err)
  }

  lemma GetStepAnswers(g: Get, e: GetEvent)
    requires GetOk(g) && AnswersOk(g) && GetStep(g, e).Some?
    ensures AnswersOk(GetStep(g, e).value.0)
  {
  }

  /** What a step tells of the backing store and of the codec. */
  lemma GetStepHears(g: Get, e: GetEvent)
    requires GetOk(g) && AnswersOk(g) && GetStep(g, e).Some?
    ensures var g' := GetStep(g, e).value.0;
            && (if e.GetAccepts? then g.heard == None && g'.heard == Some(e.answer) else g'.heard == g.heard)
            && (if e.Decompresses? then g.unpacking == None && g'.unpacking == Some(Unpacked)
                else if e.DecompressFails? then g.unpacking == None && g'.unpacking == Some(Failing(e.err))
                else g'.unpacking == g.unpacking)
            && forall err :: err != 0 && g'.caller in {GetRejected(err), GetReturned(err)} ==>
                 g.caller in {GetRejected(err), GetReturned(err)} || e == GetRejects(err)
  {
  }

  lemma ReportedAnswer(g: Get)
    requires AnswersOk(g) && GetOk(g) && g.reported != []
    ensures g.heard.Some? && (g.heard == Some(Found(false)) ==> g.unpacking.Some?)
    ensures g.reported == [GotStored] <==> g.heard == Some(Found(true))
    ensures g.reported == [GotDecompressed] <==> g.unpacking == Some(Unpacked)
    ensures forall err :: g.reported == [GotError(err)] <==>
              g.heard == Some(NotFound(err)) || g.unpacking == Some(Failing(err))
  {
  }

  lemma GetStepOk(g: Get, e: GetEvent)
    requires GetOk(g) && GetStep(g, e).Some?
    ensures var (g', effect) := GetStep(g, e).value;
            GetOk(g') && Holding(GetHolds(g), effect, GetHolds(g'))
  {
  }

  // ----- The store -----

  datatype Request = APut(put: Put) | AGet(get: Get)

  predicate Holds(r: Request) {
    match r
    case APut(p) => PutHolds(p)
    case AGet(g) => GetHolds(g)
  }

  ghost predicate RequestOk(r: Request) {
    match r
    case APut(p) => PutOk(p)
    case AGet(g) => GetOk(g) && AnswersOk(g)
  }

  datatype Store = Store(gate: Gate, requests: map<nat, Request>)

  const EMPTY_STORE: Store := Store(OPEN, map[])

  datatype Event =
    | StartPut(id: nat, tag: nat)
    | StartGet(id: nat)
    | StepPut(id: nat, put: PutEvent)
    | StepGet(id: nat, get: GetEvent)
    | StepGate(gate: GateEvent)

  function Apply(g: Gate, e: Effect): Option<Gate> {
    match e
    case Silent => Some(g)
    case Acquires => Some(Acquire(g))
    case Releases => Release(g)
  }

  function StepRequest(r: Request, e: Event): Option<(Request, Effect)> {
    match (r, e)
    case (APut(p), StepPut(_, pe)) =>
      (match PutStep(p, pe) case Some(pair) => Some((APut(pair.0), pair.1)) case None => None)
    case (AGet(g), StepGet(_, ge)) =>
      (match GetStep(g, ge) case Some(pair) => Some((AGet(pair.0), pair.1)) case None => None)
    case _ => None
  }

  /** One step of the store, if it is possible. */
  function Next(s: Store, e: Event): Option<Store> {
    match e
    case StartPut(id, tag) => if id in s.requests then None
        else Some(s.(requests := s.requests[id := APut(NewPut(tag))]))
    case StartGet(id) => if id in s.requests then None else Some(s.(requests := s.requests[id := AGet(NEW_GET)]))
    case StepGate(ge) =>
      (match GateStep(s.gate, ge) case Some(gate) => Some(s.(gate := gate)) case None => None)
    case _ =>
      if e.id !in s.requests then None
      else
        match StepRequest(s.requests[e.id], e)
        case None => None
        case Some(pair) =>
          match Apply(s.gate, pair.1)
          case None => None
          case Some(gate) => Some(Store(gate, s.requests[e.id := pair.0]))
  }

  function Run(s: Store, es: seq<Event>): Option<Store> {
    if es == [] then Some(s)
    else
      match Run(s, es[..|es| - 1])
      case None => None
      case Some(before) => Next(before, es[|es| - 1])
  }

  ghost function Holders(requests: map<nat, Request>): set<nat> {
    set id | id in requests && Holds(requests[id])
  }

  /** The pending count is the number of requests that hold it up. */
  ghost predicate StoreOk(s: Store) {
    && GateOk(s.gate)
    && (forall id :: id in s.requests ==> RequestOk(s.requests[id]))
    && s.gate.pending == |Holders(s.requests)|
  }

  lemma StepRequestOk(r: Request, e: Event)
    requires RequestOk(r) && StepRequest(r, e).Some?
    ensures var (r', effect) := StepRequest(r, e).value;
            RequestOk(r') && Holding(Holds(r), effect, Holds(r'))
  {
    hide PutStep, GetStep, PutOk, GetOk, AnswersOk, PutHolds, GetHolds;
    match r
    case APut(p) => PutStepOk(p, e.put);
    case AGet(g) =>
      GetStepOk(g, e.get);
      GetStepAnswers(g, e.get);
  }

  lemma HoldersChange(requests: map<nat, Request>, id: nat, r: Request)
    requires id in requests || !Holds(r)
    ensures var was := id in requests && Holds(requests[id]);
            |Holders(requests[id := r])| == |Holders(requests)| + (if Holds(r) then 1 else 0) - (if was then 1 else 0)
  {
    hide Holds;
    assert Holders(requests[id := r]) == Holders(requests) - {id} + if Holds(r) then {id} else {};
  }

  lemma NewRequestsOk(tag: nat)
    ensures RequestOk(APut(NewPut(tag))) && RequestOk(AGet(NEW_GET)) && !Holds(APut(NewPut(tag)))
              && !Holds(AGet(NEW_GET))
  {
  }

  lemma NextOk(s: Store, e: Event)
    requires StoreOk(s) && Next(s, e).Some?
    ensures StoreOk(Next(s, e).value)
  {
    hide GateOk, RequestOk, Holds, Holders, StepRequest, GateStep;
    match e
    case StartPut(id, tag) =>
      NewRequestsOk(tag);
      HoldersChange(s.requests, id, APut(NewPut(tag)));
    case StartGet(id) =>
      NewRequestsOk(0);
      HoldersChange(s.requests, id, AGet(NEW_GET));
    case StepGate(ge) => GateStepOk(s.gate, ge);
    case _ =>
      var (r, effect) := StepRequest(s.requests[e.id], e).value;
      StepRequestOk(s.requests[e.id], e);
      HoldersChange(s.requests, e.id, r);
      AcquireOk(s.gate);
      if effect == Releases {
        ReleaseOk(s.gate);
      }
  }

  lemma {:induction false} RunKeepsOk(s: Store, es: seq<Event>)
    requires StoreOk(s) && Run(s, es).Some?
    ensures StoreOk(Run(s, es).value)
  {
    hide Next, StoreOk;
    if es != [] {
      RunKeepsOk(s, es[..|es| - 1]);
      NextOk(Run(s, es[..|es| - 1]).value, es[|es| - 1]);
    }
  }

  lemma EmptyOk()
    ensures StoreOk(EMPTY_STORE)
  {
    OpenOk();
    assert Holders(map[]) == {};
  }

  lemma RunOk(es: seq<Event>)
    requires Run(EMPTY_STORE, es).Some?
    ensures StoreOk(Run(EMPTY_STORE, es).value)
  {
    hide StoreOk;
    EmptyOk();
    RunKeepsOk(EMPTY_STORE, es);
  }

  // ----- Over every run -----

  /** In every run, no flush is called twice; with no request pending and the lock free,
      every flush was called or is about to be, and once none is about to be, each was
      called exactly once. */
  lemma EveryFlushOnce(es: seq<Event>)
    requires Run(EMPTY_STORE, es).Some?
    ensures var g := Run(EMPTY_STORE, es).value.gate;
            && (forall k: nat :: Count(g.fired, k) <= if k < g.requested then 1 else 0)
            && (g.lock == Free && g.pending == 0 ==>
                  forall k: nat :: Count(g.taken, k) + Count(g.fired, k) == if k < g.requested then 1 else 0)
            && (g.lock == Free && g.pending == 0 && g.taken == [] ==>
                  forall k: nat :: Count(g.fired, k) == if k < g.requested then 1 else 0)
  {
    hide Run, Count, GateOk;
    RunOk(es);
    var g := Run(EMPTY_STORE, es).value.gate;
    NoFlushIsLost(g);
    forall k: nat | g.taken == []
      ensures Count(g.taken, k) == 0
    {
      NothingCounted(k);
    }
  }

  /** The put at the id, if there is one. */
  function PutAt(s: Store, id: nat): Option<Put> {
    if id in s.requests && s.requests[id].APut? then Some(s.requests[id].put) else None
  }

  /** The put knows what the backing store did in the run. */
  ghost predicate HeardPut(p: Option<Put>, es: seq<Event>, id: nat) {
    && (forall o :: StepPut(id, BackingAccepts(o)) in es <==> p.Some? && Accepted(p.value, o))
    && (forall err :: p.Some? && Refused(p.value, err) ==> StepPut(id, BackingRejects(err)) in es)
  }

  lemma NextHearsPut(s: Store, e: Event, id: nat)
    requires StoreOk(s) && Next(s, e).Some?
    ensures var p, p' := PutAt(s, id), PutAt(Next(s, e).value, id);
            && (p.Some? ==> p'.Some?)
            && (p.None? && p'.Some? ==> e.StartPut? && p'.value == NewPut(e.tag))
            && (e.StepPut? && e.id == id ==> p.Some? && PutStep(p.value, e.put).Some? && PutOk(p.value)
                                             && p'.value == PutStep(p.value, e.put).value.0)
            && (!(e.StepPut? && e.id == id) && p.Some? ==> p' == p)
  {
    hide GateStep, PutStep, GetStep, GateOk, Holders, GetOk, AnswersOk, PutOk;
    if id in s.requests {
      assert RequestOk(s.requests[id]);
    }
  }

  lemma {:induction false} RunHearsPut(es: seq<Event>, id: nat)
    requires Run(EMPTY_STORE, es).Some?
    ensures HeardPut(PutAt(Run(EMPTY_STORE, es).value, id), es, id)
  {
    hide Next, StoreOk, PutStep, PutOk, Accepted, Refused, PutAt;
    if es == [] {
      NothingStarted(id);
    } else {
      var front, last := es[..|es| - 1], es[|es| - 1];
      assert es == front + [last];
      RunHearsPut(front, id);
      RunOk(front);
      var s := Run(EMPTY_STORE, front).value;
      NextHearsPut(s, last, id);
      NothingAccepted(if last.StartPut? then last.tag else 0);
      if last.StepPut? && last.id == id {
        PutStepHears(PutAt(s, id).value, last.put);
      }
    }
  }

  lemma NothingAccepted(tag: nat)
    ensures forall o :: !Accepted(NewPut(tag), o) && !Refused(NewPut(tag), o)
  {
  }

  /** In every run, a put that was accepted tells the client the answer of the backing
      store once; one that was refused never does. A compressed block is disposed once. */
  lemma EveryPutReportsOnce(es: seq<Event>, id: nat)
    requires Run(EMPTY_STORE, es).Some? && id in Run(EMPTY_STORE, es).value.requests
    requires Run(EMPTY_STORE, es).value.requests[id].APut?
    ensures var p := Run(EMPTY_STORE, es).value.requests[id].put;
            && (p.reported == [] || p.reported == [p.outcome])
            && (p.callback == Finished ==> p.reported == [p.outcome])
            && (p.reported != [] ==> StepPut(id, BackingAccepts(p.reported[0])) in es)
            && (PutRefused(p) ==> p.reported == [] && p.callback == Unset)
            && (p.caller.Returned? && p.caller.err != 0 ==> StepPut(id, BackingRejects(p.caller.err)) in es)
            && p.disposals <= 1 && (p.disposals == 1 ==> p.compressed)
            && (p.compressed && (p.callback == Finished || (p.caller.Returned? && p.caller.err != 0)) ==>
                p.disposals == 1)
  {
    hide Run;
    RunOk(es);
    RunHearsPut(es, id);
    var p := Run(EMPTY_STORE, es).value.requests[id].put;
    assert PutAt(Run(EMPTY_STORE, es).value, id) == Some(p);
    assert RequestOk(Run(EMPTY_STORE, es).value.requests[id]);
    assert p.reported != [] ==> Accepted(p, p.reported[0]);
    assert p.caller.Returned? && p.caller.err != 0 ==> Refused(p, p.caller.err);
  }

  /** In every run, a get reports once; the block of the backing store is disposed exactly
      if the client gets another one in its place. */
  lemma EveryGetReportsOnce(es: seq<Event>, id: nat)
    requires Run(EMPTY_STORE, es).Some? && id in Run(EMPTY_STORE, es).value.requests
    requires Run(EMPTY_STORE, es).value.requests[id].AGet?
    ensures var g := Run(EMPTY_STORE, es).value.requests[id].get;
            && |g.reported| <= 1 && (g.callback == GetFinished ==> |g.reported| == 1)
            && (g.caller.GetReturned? && g.caller.err != 0 ==> g.reported == [])
            && g.disposals <= 1 && (g.reported == [GotStored] ==> g.disposals == 0)
            && (g.reported == [GotDecompressed] ==> g.disposals == 1)
  {
    hide Run;
    RunOk(es);
    assert RequestOk(Run(EMPTY_STORE, es).value.requests[id]);
  }

  // ----- Which answer is reported -----

  /** The step of the get was taken. */
  ghost predicate Did(es: seq<Event>, id: nat, e: GetEvent) {
    StepGet(id, e) in es
  }

  /** The get at the id, if there is one. */
  function GetAt(s: Store, id: nat): Option<Get> {
    if id in s.requests && s.requests[id].AGet? then Some(s.requests[id].get) else None
  }

  /** The get knows of the answer of the backing store, and how decompressing went. */
  ghost predicate HeardAll(g: Option<Get>, es: seq<Event>, id: nat) {
    && (forall a :: Did(es, id, GetAccepts(a)) <==> g.Some? && g.value.heard == Some(a))
    && (Did(es, id, Decompresses) <==> g.Some? && g.value.unpacking == Some(Unpacked))
    && (forall err :: Did(es, id, DecompressFails(err)) <==> g.Some? && g.value.unpacking == Some(Failing(err)))
    && (forall err :: err != 0 && g.Some? && g.value.caller in {GetRejected(err), GetReturned(err)} ==>
          Did(es, id, GetRejects(err)))
  }

  lemma NextHears(s: Store, e: Event, id: nat)
    requires StoreOk(s) && Next(s, e).Some?
    ensures var g, g' := GetAt(s, id), GetAt(Next(s, e).value, id);
            && (g.Some? ==> g'.Some?)
            && (g.None? && g'.Some? ==> g'.value == NEW_GET)
            && (e.StepGet? && e.id == id ==> g.Some? && GetStep(g.value, e.get).Some?
                                             && AnswersOk(g.value) && GetOk(g.value)
                                             && g'.value == GetStep(g.value, e.get).value.0)
            && (!(e.StepGet? && e.id == id) && g.Some? ==> g' == g)
  {
    hide GateStep, PutStep, GetStep, GateOk, Holders, GetOk, AnswersOk, PutOk;
    if id in s.requests {
      assert RequestOk(s.requests[id]);
    }
  }

  lemma DidSnoc(es: seq<Event>, last: Event, id: nat, e: GetEvent)
    ensures Did(es + [last], id, e) <==> Did(es, id, e) || last == StepGet(id, e)
  {
  }

  lemma HeardNext(s: Store, es: seq<Event>, last: Event, id: nat)
    requires StoreOk(s) && Next(s, last).Some? && HeardAll(GetAt(s, id), es, id)
    ensures HeardAll(GetAt(Next(s, last).value, id), es + [last], id)
  {
    hide Next, StoreOk, GetStep, GetOk, AnswersOk, GetAt, Did;
    NextHears(s, last, id);
    forall e
      ensures Did(es + [last], id, e) <==> Did(es, id, e) || last == StepGet(id, e)
    {
      DidSnoc(es, last, id, e);
    }
    if last.StepGet? && last.id == id {
      GetStepHears(GetAt(s, id).value, last.get);
    }
  }

  lemma {:induction false} RunHears(es: seq<Event>, id: nat)
    requires Run(EMPTY_STORE, es).Some?
    ensures HeardAll(GetAt(Run(EMPTY_STORE, es).value, id), es, id)
  {
    hide Next, StoreOk;
    if es != [] {
      var front, last := es[..|es| - 1], es[|es| - 1];
      assert es == front + [last];
      RunHears(front, id);
      RunOk(front);
      HeardNext(Run(EMPTY_STORE, front).value, front, last, id);
    }
  }

  /** In every run, a get that reports reports the stored block exactly if it was found without
      a tag, another block exactly if the stored one was decompressed, and an error exactly
      if it is that of the backing store or of decompressing. A block is decompressed
      exactly if it was found with a tag. A get that returns an error was rejected with it. */
  lemma EveryGetReportsTheAnswer(es: seq<Event>, id: nat)
    requires Run(EMPTY_STORE, es).Some? && GetAt(Run(EMPTY_STORE, es).value, id).Some?
    ensures var g := GetAt(Run(EMPTY_STORE, es).value, id).value;
            var tried := Did(es, id, Decompresses) || exists err :: Did(es, id, DecompressFails(err));
            && (tried ==> Did(es, id, GetAccepts(Found(false))))
            && (g.reported != [] && Did(es, id, GetAccepts(Found(false))) ==> tried)
            && (g.reported != [] ==>
                  && (g.reported == [GotStored] <==> Did(es, id, GetAccepts(Found(true))))
                  && (g.reported == [GotDecompressed] <==> Did(es, id, Decompresses))
                  && forall err :: g.reported == [GotError(err)] <==>
                       Did(es, id, GetAccepts(NotFound(err))) || Did(es, id, DecompressFails(err)))
            && (g.caller.GetReturned? && g.caller.err != 0 ==> Did(es, id, GetRejects(g.caller.err)))
  {
    hide Run, Did, GetOk, ReportFits;
    RunOk(es);
    RunHears(es, id);
    var g := GetAt(Run(EMPTY_STORE, es).value, id).value;
    assert RequestOk(Run(EMPTY_STORE, es).value.requests[id]);
    if g.unpacking.Some? && g.unpacking.value.Failing? {
      assert Did(es, id, DecompressFails(g.unpacking.value.err));
    }
    if g.reported != [] {
      ReportedAnswer(g);
    }
  }

  // ----- Puts that use an absent block -----

  /** The backing store rejected the put, and its compressed block was to be disposed. */
  predicate WasDropped(p: Put) {
    p.caller == Crashed || p.caller.Dropped? || (p.caller.Returned? && p.caller.err != 0)
  }

  lemma PutStepDrops(p: Put, e: PutEvent)
    requires PutOk(p) && PutStep(p, e).Some?
    ensures var p' := PutStep(p, e).value.0;
            p'.tag == p.tag && (WasDropped(p') <==> WasDropped(p) || e == DropRejected)
  {
  }

  /** A put keeps its tag, and is in one of these states from its DropRejected step on. */
  lemma NextDrops(s: Store, e: Event, id: nat)
    requires StoreOk(s) && Next(s, e).Some?
    ensures PutAt(s, id).Some? ==>
              PutAt(Next(s, e).value, id).Some? && PutAt(Next(s, e).value, id).value.tag == PutAt(s, id).value.tag
    ensures PutAt(s, id).None? && PutAt(Next(s, e).value, id).Some? ==>
              e == StartPut(id, PutAt(Next(s, e).value, id).value.tag) && !WasDropped(PutAt(Next(s, e).value, id).value)
    ensures PutAt(s, id).Some? ==>
              (WasDropped(PutAt(Next(s, e).value, id).value) <==>
               WasDropped(PutAt(s, id).value) || e == StepPut(id, DropRejected))
    ensures e == StepPut(id, DropRejected) ==> PutAt(s, id).Some?
  {
    hide GateStep, PutStep, GetStep, GateOk, Holders, WasDropped, PutOk;
    NewIsNotDropped(if e.StartPut? then e.tag else 0);
    if PutAt(s, id).Some? {
      assert RequestOk(s.requests[id]);
      if e.StepPut? && e.id == id {
        PutStepDrops(s.requests[id].put, e.put);
      }
    }
  }

  lemma NewIsNotDropped(tag: nat)
    ensures !WasDropped(NewPut(tag))
  {
  }

  lemma {:induction false} DroppedIff(es: seq<Event>, id: nat)
    requires Run(EMPTY_STORE, es).Some?
    ensures var p := PutAt(Run(EMPTY_STORE, es).value, id);
            && (p.None? ==> StepPut(id, DropRejected) !in es)
            && (p.Some? ==>
                  StartPut(id, p.value.tag) in es && (WasDropped(p.value) <==> StepPut(id, DropRejected) in es))
  {
    hide Next, StoreOk, WasDropped, PutAt;
    if es == [] {
      NothingStarted(id);
    } else {
      var front, last := es[..|es| - 1], es[|es| - 1];
      assert es == front + [last];
      DroppedIff(front, id);
      RunOk(front);
      NextDrops(Run(EMPTY_STORE, front).value, last, id);
    }
  }

  lemma NothingStarted(id: nat)
    ensures PutAt(EMPTY_STORE, id) == None
  {
  }

  /** In every run, a put ends in the use of a block that is not there exactly if the backing
      store rejected it and its block has no tag: that block was not compressed, and the
      error path disposes the compressed one without asking. */
  lemma CrashesIffUntagged(es: seq<Event>, id: nat)
    requires Run(EMPTY_STORE, es).Some? && PutAt(Run(EMPTY_STORE, es).value, id).Some?
    ensures var p := PutAt(Run(EMPTY_STORE, es).value, id).value;
            && StartPut(id, p.tag) in es
            && (p.caller == Crashed <==> StepPut(id, DropRejected) in es && p.tag == 0)
  {
    hide Run;
    DroppedIff(es, id);
    RunOk(es);
    assert RequestOk(Run(EMPTY_STORE, es).value.requests[id]);
  }

  lemma ThenPut(es: seq<Event>, gate: Gate, p: Put, e: PutEvent, gate': Gate, p': Put, effect: Effect)
    requires Run(EMPTY_STORE, es) == Some(Store(gate, map[0 := APut(p)]))
    requires PutStep(p, e) == Some((p', effect)) && Apply(gate, effect) == Some(gate')
    ensures Run(EMPTY_STORE, es + [StepPut(0, e)]) == Some(Store(gate', map[0 := APut(p')]))
  {
    hide PutStep, Apply;
    assert (es + [StepPut(0, e)])[..|es|] == es;
    assert map[0 := APut(p)][0 := APut(p')] == map[0 := APut(p')];
  }

  /** A run that does: a block without a tag that the backing store rejects. */
  lemma RejectedPutCrashes() returns (es: seq<Event>)
    ensures es == [StartPut(0, 0), StepPut(0, Compresses), StepPut(0, CountPut), StepPut(0, BackingRejects(5)),
                   StepPut(0, DropRejected)]
    ensures Run(EMPTY_STORE, es).Some? && PutAt(Run(EMPTY_STORE, es).value, 0).Some?
    ensures PutAt(Run(EMPTY_STORE, es).value, 0).value.caller == Crashed
  {
    OneStarted();
    hide Run;
    var put, busy := NewPut(0), Acquire(OPEN);
    var ready, calling, rejected := put.(caller := Ready), put.(caller := Calling), put.(caller := Rejected(5));
    es := [StartPut(0, 0)];
    ThenPut(es, OPEN, put, Compresses, OPEN, ready, Silent);
    es := es + [StepPut(0, Compresses)];
    ThenPut(es, OPEN, ready, CountPut, busy, calling, Acquires);
    es := es + [StepPut(0, CountPut)];
    ThenPut(es, busy, calling, BackingRejects(5), busy, rejected, Silent);
    es := es + [StepPut(0, BackingRejects(5))];
    ThenPut(es, busy, rejected, DropRejected, busy, put.(caller := Crashed), Silent);
    es := es + [StepPut(0, DropRejected)];
  }

  lemma OneStarted()
    ensures Run(EMPTY_STORE, [StartPut(0, 0)]) == Some(Store(OPEN, map[0 := APut(NewPut(0))]))
  {
    assert [StartPut(0, 0)][..0] == [];
  }

  /** The request was counted and is not over. */
  ghost predicate InFlight(r: Request) {
    match r
    case APut(p) =>
      && p.caller !in {Called, Ready} && !p.caller.Failed? && p.callback != Finished
      && !(p.caller.Returned? && p.caller.err != 0)
    case AGet(g) => g.caller != GetCalled && g.callback != GetFinished && !(g.caller.GetReturned? && g.caller.err != 0)
  }

  lemma InFlightHolds(r: Request)
    requires RequestOk(r)
    ensures Holds(r) <==> InFlight(r)
  {
  }

  /** A flush finds nothing pending exactly when no request is in flight: other than in
      the caching store there is no gap inside a put. */
  lemma FlushWaitsIff(es: seq<Event>)
    requires Run(EMPTY_STORE, es).Some?
    ensures var s := Run(EMPTY_STORE, es).value;
            s.gate.pending == 0 <==> forall id :: id in s.requests ==> !InFlight(s.requests[id])
  {
    hide Run, Holds, InFlight, RequestOk, GateOk;
    RunOk(es);
    PendingIffInFlight(Run(EMPTY_STORE, es).value);
  }

  lemma PendingIffInFlight(s: Store)
    requires StoreOk(s)
    ensures s.gate.pending == 0 <==> forall id :: id in s.requests ==> !InFlight(s.requests[id])
  {
    hide Holds, InFlight, RequestOk, GateOk;
    forall id | id in s.requests
      ensures id in Holders(s.requests) <==> InFlight(s.requests[id])
    {
      InFlightHolds(s.requests[id]);
    }
    if s.gate.pending > 0 {
      var id :| id in Holders(s.requests);
    }
  }

  // ----- A flush that is queued while a request is in flight waits for it -----

  ghost predicate InFlightIn(s: Store, id: nat) {
    id in s.requests && InFlight(s.requests[id])
  }

  ghost predicate Over(r: Request) {
    match r
    case APut(p) => p.caller.Failed? || p.callback == Finished || (p.caller.Returned? && p.caller.err != 0)
    case AGet(g) => g.callback == GetFinished || (g.caller.GetReturned? && g.caller.err != 0)
  }

  /** What is over stays over, and what was counted stays counted. */
  lemma NextGoesOn(s: Store, e: Event, id: nat)
    requires StoreOk(s) && Next(s, e).Some? && id in s.requests
    ensures id in Next(s, e).value.requests
    ensures Over(s.requests[id]) ==> Over(Next(s, e).value.requests[id])
    ensures InFlight(s.requests[id]) ==> InFlight(Next(s, e).value.requests[id]) || Over(Next(s, e).value.requests[id])
  {
    hide GateStep, GateOk, Holders;
    assert RequestOk(s.requests[id]);
  }

  /** While a request is in flight, flushes wait on, and those that are called begin to wait. */
  lemma WaitsInFlight(s: Store, e: Event, id: nat, k: nat)
    requires StoreOk(s) && Next(s, e).Some? && InFlightIn(s, id) && s.gate.lock != Releasing(Some(true))
    requires Waiting(s.gate, k) || s.gate.requested <= k < Next(s, e).value.gate.requested
    ensures Waiting(Next(s, e).value.gate, k)
  {
    hide StepRequest, GateStep, GateOk, Holds, InFlight, RequestOk, Holders;
    PendingIffInFlight(s);
    if e.StepGate? {
      WaitingGoesOn(s.gate, e.gate, k);
    }
  }

  lemma WaitingCalledNot(s: Store, k: nat)
    requires StoreOk(s) && Waiting(s.gate, k)
    ensures k !in s.gate.taken && k !in s.gate.fired
  {
    WaitingIsNotCalled(s.gate, k);
  }

  lemma OverNotInFlight(r: Request)
    ensures !(Over(r) && InFlight(r))
  {
  }

  lemma QueueGrows(s: Store, e: Event, id: nat)
    requires StoreOk(s) && Next(s, e).Some? && StoreOk(Next(s, e).value)
    requires InFlightIn(Next(s, e).value, id) && s.gate.lock != Releasing(Some(true))
    ensures Next(s, e).value.gate.lock != Releasing(Some(true))
    ensures s.gate.queue <= Next(s, e).value.gate.queue
  {
    hide StepRequest, GateOk, Holds, InFlight, RequestOk, Holders;
    PendingIffInFlight(Next(s, e).value);
  }

  /** What is queued while a request is in flight stays queued until the request is over. A
      flush that is called meanwhile waits, and is not called back. */
  lemma {:induction false} FlushWaitsForRequest(s: Store, es: seq<Event>, id: nat)
    requires StoreOk(s) && InFlightIn(s, id) && s.gate.lock != Releasing(Some(true))
    requires Run(s, es).Some? && InFlightIn(Run(s, es).value, id)
    ensures StoreOk(Run(s, es).value) && Run(s, es).value.gate.lock != Releasing(Some(true))
    ensures s.gate.queue <= Run(s, es).value.gate.queue
    ensures forall k: nat :: Waiting(s.gate, k) || s.gate.requested <= k < Run(s, es).value.gate.requested ==>
              var g := Run(s, es).value.gate; Waiting(g, k) && k !in g.taken && k !in g.fired
  {
    hide Next, StoreOk, InFlight, Waiting;
    if es != [] {
      var front, last := es[..|es| - 1], es[|es| - 1];
      RunGoesOn(s, front, id);
      RunKeepsOk(s, front);
      var mid := Run(s, front).value;
      NextGoesOn(mid, last, id);
      OverNotInFlight(Run(s, es).value.requests[id]);
      FlushWaitsForRequest(s, front, id);
      NextOk(mid, last);
      QueueGrows(mid, last, id);
      forall k: nat | Waiting(s.gate, k) || s.gate.requested <= k < Run(s, es).value.gate.requested
        ensures Waiting(Run(s, es).value.gate, k)
      {
        WaitsInFlight(mid, last, id, k);
      }
    }
    forall k: nat | Waiting(Run(s, es).value.gate, k)
      ensures k !in Run(s, es).value.gate.taken && k !in Run(s, es).value.gate.fired
    {
      WaitingCalledNot(Run(s, es).value, k);
    }
  }

  lemma {:induction false} RunGoesOn(s: Store, es: seq<Event>, id: nat)
    requires StoreOk(s) && InFlightIn(s, id) && Run(s, es).Some?
    ensures id in Run(s, es).value.requests
    ensures InFlight(Run(s, es).value.requests[id]) || Over(Run(s, es).value.requests[id])
  {
    hide Next, StoreOk, InFlight, Over;
    if es != [] {
      RunGoesOn(s, es[..|es| - 1], id);
      RunKeepsOk(s, es[..|es| - 1]);
      NextGoesOn(Run(s, es[..|es| - 1]).value, es[|es| - 1], id);
    }
  }
}
