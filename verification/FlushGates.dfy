/** The flush protocol that the caching and the compressing block store share: an atomic
    count of pending requests, and a list of flush callbacks under a lock. */
module FlushGates {
  import opened Prelude

  /** Who holds the lock, and what it has seen: a flush call has read whether requests
      are pending; a completed request has dropped the count, perhaps to zero. */
  datatype Lock = Free | Flushing(id: nat, saw: Option<bool>) | Releasing(zero: Option<bool>)

  /** `queue` are the waiting callbacks, `taken` those about to be called, `fired`
      those that were. Flush calls are numbered. */
  datatype Gate = Gate(pending: nat, lock: Lock, queue: seq<nat>, taken: seq<nat>, fired: seq<nat>, requested: nat)

  const OPEN: Gate := Gate(0, Free, [], [], [], 0)

  // ----- Steps -----

  /** An atomic add, not under the lock. */
  function Acquire(g: Gate): Gate {
    g.(pending := g.pending + 1)
  }

  function LockForRelease(g: Gate): Option<Gate> {
    if g.lock == Free then Some(g.(lock := Releasing(None))) else None
  }

  function Release(g: Gate): Option<Gate> {
    if g.lock == Releasing(None) && g.pending > 0
    then Some(g.(pending := g.pending - 1, lock := Releasing(Some(g.pending == 1))))
    else None
  }

  function EndRelease(g: Gate): Option<Gate> {
    if g.lock == Releasing(Some(true)) then Some(g.(lock := Free, queue := [], taken := g.taken + g.queue))
    else if g.lock == Releasing(Some(false)) then Some(g.(lock := Free))
    else None
  }

  function LockForFlush(g: Gate): Option<Gate> {
    if g.lock == Free then Some(g.(lock := Flushing(g.requested, None), requested := g.requested + 1)) else None
  }

  function ReadPending(g: Gate): Option<Gate> {
    if g.lock.Flushing? && g.lock.saw == None then Some(g.(lock := Flushing(g.lock.id, Some(g.pending > 0)))) else None
  }

  function EndFlush(g: Gate): Option<Gate> {
    if g.lock.Flushing? && g.lock.saw == Some(true) then Some(g.(lock := Free, queue := g.queue + [g.lock.id]))
    else if g.lock.Flushing? && g.lock.saw == Some(false) then Some(g.(lock := Free, taken := g.taken + [g.lock.id]))
    else None
  }

  /** One taken callback is called. */
  function Fire(g: Gate, i: nat): Option<Gate> {
    if i < |g.taken| then Some(g.(taken := g.taken[..i] + g.taken[i + 1..], fired := g.fired + [g.taken[i]])) else None
  }

  datatype GateEvent = LockRelease | FinishRelease | LockFlush | ReadCount | FinishFlush | FireFlush(i: nat)

  /** The steps that leave the count alone. */
  function GateStep(g: Gate, e: GateEvent): Option<Gate> {
    match e
    case LockRelease => LockForRelease(g)
    case FinishRelease => EndRelease(g)
    case LockFlush => LockForFlush(g)
    case ReadCount => ReadPending(g)
    case FinishFlush => EndFlush(g)
    case FireFlush(i) => Fire(g, i)
  }

  // ----- What every step keeps -----

  function Count(s: seq<nat>, k: nat): nat {
    multiset(s)[k]
  }

  /** How many callbacks flush call k has, wherever they are: in the hand of the call
      itself, waiting, about to be called, or called. */
  function Copies(g: Gate, k: nat): nat {
    Count(g.queue, k) + Count(g.taken, k) + Count(g.fired, k) + if g.lock.Flushing? && g.lock.id == k then 1 else 0
  }

  /** Waiting callbacks have a pending request, unless the one that dropped the count to
      zero is about to take them; every flush call is in exactly one place, once. */
  ghost predicate GateOk(g: Gate) {
    && (g.queue != [] && g.lock != Releasing(Some(true)) ==> g.pending > 0)
    && (g.lock == Releasing(Some(false)) ==> g.pending > 0)
    && (g.lock.Flushing? && g.lock.saw == Some(true) ==> g.pending > 0)
    && forall k: nat :: Copies(g, k) == if k < g.requested then 1 else 0
  }

  lemma OpenOk()
    ensures GateOk(OPEN)
  {
  }

  lemma AcquireOk(g: Gate)
    requires GateOk(g)
    ensures GateOk(Acquire(g))
  {
    assert forall k: nat :: Copies(Acquire(g), k) == Copies(g, k);
  }

  lemma ReleaseOk(g: Gate)
    requires GateOk(g) && Release(g).Some?
    ensures GateOk(Release(g).value)
  {
    assert forall k: nat :: Copies(Release(g).value, k) == Copies(g, k);
  }

  lemma CountConcat(a: seq<nat>, b: seq<nat>, k: nat)
    ensures Count(a + b, k) == Count(a, k) + Count(b, k)
  {
  }

  /** No step loses or doubles a callback; a flush call brings one more. */
  lemma StepConserves(g: Gate, e: GateEvent, k: nat)
    requires GateStep(g, e).Some?
    ensures Copies(GateStep(g, e).value, k) == Copies(g, k) + if e == LockFlush && k == g.requested then 1 else 0
  {
    hide Count;
    NothingCounted(k);
    match e
    case FireFlush(i) =>
      var x, before, after := g.taken[i], g.taken[..i], g.taken[i + 1..];
      assert g.taken == before + ([x] + after);
      CountConcat(before, [x] + after, k);
      CountConcat([x], after, k);
      CountConcat(before, after, k);
      CountConcat(g.fired, [x], k);
    case FinishRelease => CountConcat(g.taken, g.queue, k);
    case FinishFlush =>
      CountOne(g.lock.id, k);
      CountConcat(g.queue, [g.lock.id], k);
      CountConcat(g.taken, [g.lock.id], k);
    case _ =>
  }

  lemma NothingCounted(k: nat)
    ensures Count([], k) == 0
  {
  }

  lemma CountOne(x: nat, k: nat)
    ensures Count([x], k) == if x == k then 1 else 0
  {
  }

  lemma GateStepOk(g: Gate, e: GateEvent)
    requires GateOk(g) && GateStep(g, e).Some?
    ensures GateOk(GateStep(g, e).value) && GateStep(g, e).value.pending == g.pending
  {
    hide Copies;
    forall k: nat
      ensures Copies(GateStep(g, e).value, k) == Copies(g, k) + if e == LockFlush && k == g.requested then 1 else 0
    {
      StepConserves(g, e, k);
    }
  }

  /** No flush is called twice; with no request pending and the lock free, every flush was
      called or is about to be. */
  lemma NoFlushIsLost(g: Gate)
    requires GateOk(g)
    ensures forall k: nat :: Count(g.fired, k) <= if k < g.requested then 1 else 0
    ensures g.lock == Free && g.pending == 0 ==>
              forall k: nat :: Count(g.taken, k) + Count(g.fired, k) == if k < g.requested then 1 else 0
  {
    forall k: nat
      ensures Count(g.fired, k) <= if k < g.requested then 1 else 0
      ensures g.lock == Free && g.pending == 0 ==>
                Count(g.taken, k) + Count(g.fired, k) == if k < g.requested then 1 else 0
    {
      assert Copies(g, k) == if k < g.requested then 1 else 0;
      NothingCounted(k);
    }
  }

  // ----- A flush that waits -----

  /** The flush waits in the queue, or is being queued and has not seen the count at zero. */
  ghost predicate Waiting(g: Gate, k: nat) {
    k in g.queue || (g.lock.Flushing? && g.lock.id == k && g.lock.saw != Some(false))
  }

  /** Then it was not called, and is not about to be. */
  lemma WaitingIsNotCalled(g: Gate, k: nat)
    requires GateOk(g) && Waiting(g, k)
    ensures k !in g.taken && k !in g.fired
  {
    assert Copies(g, k) == if k < g.requested then 1 else 0;
    assert k in g.queue ==> Count(g.queue, k) > 0;
    assert k in g.taken ==> Count(g.taken, k) > 0;
    assert k in g.fired ==> Count(g.fired, k) > 0;
  }

  /** While requests are pending, flushes wait on, and new ones begin to. */
  lemma WaitingGoesOn(g: Gate, e: GateEvent, k: nat)
    requires GateStep(g, e).Some? && g.pending > 0 && g.lock != Releasing(Some(true))
    requires Waiting(g, k) || g.requested <= k < GateStep(g, e).value.requested
    ensures Waiting(GateStep(g, e).value, k)
  {
  }
}
