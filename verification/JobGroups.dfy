/** The accounting of job groups (lib/bikeshed): jobs are submitted against a reserved
    number, counted as pending once their tasks exist, and counted down when they
    complete. Running jobs may create jobs in their own group. */
module JobGroups {
  import opened Prelude

  /** Who calls CreateJobs: a thread outside the group, or a running job of it. */
  datatype Creator = Outside | Inside(job: nat)

  /** An open call of CreateJobs: how many jobs, the slot after which they go, and whether
      they fit into the reservation. */
  datatype Call = Call(creator: Creator, count: nat, start: int, fits: bool)

  /** A job is created, readied, runs, may be blocked (EBUSY) and resumed, has returned,
      was counted as completed, and was taken off the pending count. */
  datatype JobState = Waiting | Ready | Running | Blocked | Returned | CountedDone | Over

  datatype Job = Job(slot: int, state: JobState)

  datatype Group = Group(reserved: nat, submitted: int, pending: int, completed: nat, jobs: seq<Job>, calls: map<nat,
                         Call>,
                         waiting: bool, freed: bool, overran: bool)

  function Reserve(count: nat): Group {
    Group(count, 0, 0, 0, [], map[], false, false, false)
  }

  datatype GroupEvent =
    | Submit(call: nat, creator: Creator, count: nat)
    | CreateTasks(call: nat)
    | RollBack(call: nat)
    | MakeReady(job: nat)
    | Start(job: nat)
    | Block(job: nat)
    | Resume(job: nat)
    | Return(job: nat)
    | CountCompleted(job: nat)
    | CountPending(job: nat)
    | BeginWait
    | Leave

  /** No call of this creator is open: a thread does one thing at a time. */
  predicate Idle(g: Group, c: Creator) {
    forall id :: id in g.calls ==> g.calls[id].creator != c
  }

  predicate MayCall(g: Group, c: Creator) {
    match c
    case Outside => !g.waiting && !g.freed
    case Inside(j) => j < |g.jobs| && g.jobs[j].state == Running && Idle(g, c)
  }

  function NewJobs(start: int, n: nat): (js: seq<Job>)
    ensures |js| == n && forall i :: 0 <= i < n ==> js[i] == Job(start + i, Waiting)
  {
    seq(n, i => Job(start + i, Waiting))
  }

  /** Job j moves from one state to another. */
  function Move(g: Group, j: nat, from: JobState, to: JobState): Option<Group> {
    if j < |g.jobs| && g.jobs[j].state == from && (from == Running ==> Idle(g, Inside(j)))
    then Some(g.(jobs := g.jobs[j := g.jobs[j].(state := to)])) else None
  }

  function Next(g: Group, e: GroupEvent): Option<Group> {
    match e
    case Submit(id, creator, n) =>
      // the atomic add comes first, the check against the reservation after it
      if id !in g.calls && n > 0 && MayCall(g, creator)
      then
        var fits := g.submitted + n <= g.reserved;
        Some(g.(submitted := g.submitted + n, overran := g.overran || !fits,
                calls := g.calls[id := Call(creator, n, g.submitted, fits)]))
      else None
    case CreateTasks(id) =>
      // the tasks exist but are not ready before the call returns
      if id in g.calls && g.calls[id].fits
      then Some(g.(jobs := g.jobs + NewJobs(g.calls[id].start, g.calls[id].count),
                   pending := g.pending + g.calls[id].count,
                   calls := g.calls - {id}))
      else None
    case RollBack(id) =>
      if id in g.calls && !g.calls[id].fits
      then Some(g.(submitted := g.submitted - g.calls[id].count, calls := g.calls - {id})) else None
    case MakeReady(j) => Move(g, j, Waiting, Ready)
    case Start(j) => Move(g, j, Ready, Running)
    case Block(j) => Move(g, j, Running, Blocked)
    case Resume(j) => Move(g, j, Blocked, Ready)
    case Return(j) => Move(g, j, Running, Returned)
    case CountCompleted(j) =>
      (match Move(g, j, Returned,
                  CountedDone) case None => None case Some(g') => Some(g'.(completed := g.completed + 1)))
    case CountPending(j) =>
      (match Move(g, j, CountedDone, Over) case None => None case Some(g') => Some(g'.(pending := g.pending - 1)))
    case BeginWait =>
      if !g.waiting && !g.freed && Idle(g, Outside) then Some(g.(waiting := true)) else None
    case Leave =>
      if g.waiting && !g.freed && g.pending <= 0 then Some(g.(freed := true)) else None
  }

  // ----- Counting -----

  /** How many jobs have not been taken off the pending count. */
  function Open(jobs: seq<Job>): nat {
    if jobs == [] then 0
    else Open(jobs[..|jobs| - 1]) + if jobs[|jobs| - 1].state == Over then 0 else 1
  }

  function Done(jobs: seq<Job>): nat {
    if jobs == [] then 0
    else Done(jobs[..|jobs| - 1]) + if jobs[|jobs| - 1].state in {CountedDone, Over} then 1 else 0
  }

  lemma {:induction false} MoveCounts(jobs: seq<Job>, j: nat, to: Job)
    requires j < |jobs|
    ensures var jobs' := jobs[j := to];
            && Open(jobs') == Open(jobs) + (if to.state == Over then 0 else 1) - (if jobs[j].state == Over then 0
                    else 1)
            && Done(jobs') == Done(jobs) + (if to.state in {CountedDone, Over} then 1 else 0)
                                       - (if jobs[j].state in {CountedDone, Over} then 1 else 0)
  {
    var last := |jobs| - 1;
    if j < last {
      MoveCounts(jobs[..last], j, to);
      assert jobs[j := to][..last] == jobs[..last][j := to];
    } else {
      assert jobs[j := to][..last] == jobs[..last];
    }
  }

  lemma {:induction false} NewCounts(jobs: seq<Job>, start: int, n: nat)
    ensures Open(jobs + NewJobs(start, n)) == Open(jobs) + n && Done(jobs + NewJobs(start, n)) == Done(jobs)
  {
    hide Open, Done, NewJobs;
    if n == 0 {
      assert jobs + NewJobs(start, 0) == jobs;
    } else {
      NewCounts(jobs, start, n - 1);
      OneMoreJob(start, n);
      Snoc(jobs + NewJobs(start, n - 1), Job(start + n - 1, Waiting));
      assert jobs + NewJobs(start, n) == jobs + NewJobs(start, n - 1) + [Job(start + n - 1, Waiting)];
    }
  }

  lemma OneMoreJob(start: int, n: nat)
    requires n > 0
    ensures NewJobs(start, n) == NewJobs(start, n - 1) + [Job(start + n - 1, Waiting)]
  {
  }

  lemma Snoc(jobs: seq<Job>, job: Job)
    requires job.state == Waiting
    ensures Open(jobs + [job]) == Open(jobs) + 1 && Done(jobs + [job]) == Done(jobs)
  {
    assert (jobs + [job])[..|jobs|] == jobs;
  }

  lemma {:induction false} AllOver(jobs: seq<Job>, j: nat)
    requires Open(jobs) == 0 && j < |jobs|
    ensures jobs[j].state == Over
  {
    if j < |jobs| - 1 {
      AllOver(jobs[..|jobs| - 1], j);
    }
  }

  lemma {:induction false} AllDone(jobs: seq<Job>)
    requires forall j :: 0 <= j < |jobs| ==> jobs[j].state == Over
    ensures Done(jobs) == |jobs|
  {
    if jobs != [] {
      AllDone(jobs[..|jobs| - 1]);
    }
  }

  // ----- What every step keeps -----

  ghost predicate GroupOk(g: Group) {
    && g.pending == Open(g.jobs) && g.completed == Done(g.jobs)
    && (forall id :: id in g.calls && g.calls[id].creator.Inside? ==>
          var j := g.calls[id].creator.job; j < |g.jobs| && g.jobs[j].state == Running)
    && (forall id :: id in g.calls && g.calls[id].creator == Outside ==> !g.waiting && !g.freed)
    && (g.freed ==> g.waiting && g.pending == 0 && forall id :: id !in g.calls)
  }

  lemma MoveOk(g: Group, j: nat, from: JobState, to: JobState)
    requires GroupOk(g) && Move(g, j, from, to).Some? && from != Over
    ensures var g' := Move(g, j, from, to).value;
            && g' == g.(jobs := g'.jobs) && Open(g'.jobs) == Open(g.jobs) - (if to == Over then 1 else 0)
            && Done(g'.jobs) == Done(g.jobs) + (if to in {CountedDone, Over} then 1 else 0) - (if from == CountedDone
                    then 1 else 0)
            && (forall id :: id in g'.calls && g'.calls[id].creator.Inside? ==>
                  var i := g'.calls[id].creator.job; i < |g'.jobs| && g'.jobs[i].state == Running)
            && Open(g.jobs) > 0
  {
    hide Open, Done;
    MoveCounts(g.jobs, j, g.jobs[j].(state := to));
    if Open(g.jobs) == 0 {
      AllOver(g.jobs, j);
    }
  }

  lemma NextOk(g: Group, e: GroupEvent)
    requires GroupOk(g) && Next(g, e).Some?
    ensures GroupOk(Next(g, e).value)
  {
    hide Open, Done, NewJobs;
    match e
    case CreateTasks(id) => NewCounts(g.jobs, g.calls[id].start, g.calls[id].count);
    case MakeReady(j) => MoveOk(g, j, Waiting, Ready);
    case Start(j) => MoveOk(g, j, Ready, Running);
    case Block(j) => MoveOk(g, j, Running, Blocked);
    case Resume(j) => MoveOk(g, j, Blocked, Ready);
    case Return(j) => MoveOk(g, j, Running, Returned);
    case CountCompleted(j) => MoveOk(g, j, Returned, CountedDone);
    case CountPending(j) => MoveOk(g, j, CountedDone, Over);
    case Submit(_, creator, _) =>
      if g.freed && creator.Inside? {
        AllOver(g.jobs, creator.job);
      }
    case Leave => NoCallsLeft(g);
    case _ =>
  }

  /** With nothing pending no job runs, so none has a call open. */
  lemma NoCallsLeft(g: Group)
    requires GroupOk(g) && g.waiting && g.pending <= 0
    ensures forall id :: id !in g.calls
    ensures forall j :: 0 <= j < |g.jobs| ==> g.jobs[j].state == Over
  {
    hide Open, Done;
    forall j | 0 <= j < |g.jobs|
      ensures g.jobs[j].state == Over
    {
      AllOver(g.jobs, j);
    }
    forall id
      ensures id !in g.calls
    {
    }
  }

  function Run(g: Group, es: seq<GroupEvent>): Option<Group> {
    if es == [] then Some(g)
    else
      match Run(g, es[..|es| - 1])
      case None => None
      case Some(before) => Next(before, es[|es| - 1])
  }

  lemma {:induction false} RunOk(reserved: nat, es: seq<GroupEvent>)
    requires Run(Reserve(reserved), es).Some?
    ensures GroupOk(Run(Reserve(reserved), es).value)
  {
    hide Next, GroupOk;
    if es == [] {
      ReserveOk(reserved);
    } else {
      RunOk(reserved, es[..|es| - 1]);
      NextOk(Run(Reserve(reserved), es[..|es| - 1]).value, es[|es| - 1]);
    }
  }

  lemma ReserveOk(reserved: nat)
    ensures GroupOk(Reserve(reserved))
  {
  }

  /** When the wait is over, every job ever created in the group has completed, whoever
      created it, and nothing touches the group any more. */
  lemma WaitEndsWhenAllIsDone(reserved: nat, es: seq<GroupEvent>)
    requires Run(Reserve(reserved), es).Some? && Run(Reserve(reserved), es).value.freed
    ensures var g := Run(Reserve(reserved), es).value;
            && (forall j :: 0 <= j < |g.jobs| ==> g.jobs[j].state == Over) && g.completed == |g.jobs|
            && forall e :: Next(g, e) == None
  {
    hide Run, Open, Done;
    RunOk(reserved, es);
    var g := Run(Reserve(reserved), es).value;
    NoCallsLeft(g);
    AllDone(g.jobs);
  }

  /** The pending count is positive whenever a job is about to be taken off it. */
  lemma PendingWhenCounted(reserved: nat, es: seq<GroupEvent>, j: nat)
    requires Run(Reserve(reserved), es).Some?
    requires var g := Run(Reserve(reserved), es).value; j < |g.jobs| && g.jobs[j].state != Over
    ensures Run(Reserve(reserved), es).value.pending > 0
  {
    hide Run, Open, Done;
    RunOk(reserved, es);
    var g := Run(Reserve(reserved), es).value;
    if Open(g.jobs) == 0 {
      AllOver(g.jobs, j);
    }
  }

  // ----- Slots -----

  // ----- A wait can end -----

  /** The step that a job takes next, if it has no call open. */
  function NextOf(j: nat, state: JobState): GroupEvent
    requires state != Over
  {
    match state
    case Waiting => MakeReady(j)
    case Ready => Start(j)
    case Running => Return(j)
    case Blocked => Resume(j)
    case Returned => CountCompleted(j)
    case CountedDone => CountPending(j)
  }

  /** How many such steps a job is away from being over. */
  function StepsLeft(state: JobState): nat {
    match state
    case Over => 0
    case CountedDone => 1
    case Returned => 2
    case Running => 3
    case Ready => 4
    case Waiting => 5
    case Blocked => 5
  }

  function Work(jobs: seq<Job>): nat {
    if jobs == [] then 0 else Work(jobs[..|jobs| - 1]) + StepsLeft(jobs[|jobs| - 1].state)
  }

  lemma {:induction false} MoveWork(jobs: seq<Job>, j: nat, to: Job)
    requires j < |jobs|
    ensures Work(jobs[j := to]) == Work(jobs) - StepsLeft(jobs[j].state) + StepsLeft(to.state)
  {
    hide StepsLeft;
    var last := |jobs| - 1;
    if j < last {
      MoveWork(jobs[..last], j, to);
      assert jobs[j := to][..last] == jobs[..last][j := to];
    } else {
      assert jobs[j := to][..last] == jobs[..last];
    }
  }

  /** With no call open, a job that is not over can take a step. */
  lemma JobGoesOn(g: Group, j: nat)
    requires g.calls == map[] && j < |g.jobs| && g.jobs[j].state != Over
    ensures var after := Next(g, NextOf(j, g.jobs[j].state));
            && after.Some? && after.value.calls == map[]
            && after.value.waiting == g.waiting && after.value.freed == g.freed
            && Work(after.value.jobs) < Work(g.jobs)
  {
    hide Work;
    var to := Next(g, NextOf(j, g.jobs[j].state)).value.jobs[j];
    MoveWork(g.jobs, j, to);
  }

  /** From wherever a group is, a wait can end without another call: open calls return, each
      job goes on until it is over, and then the waiting thread leaves. It cannot before. */
  lemma WaitCanEnd(start: Group) returns (es: seq<GroupEvent>)
    requires GroupOk(start) && start.waiting && !start.freed
    ensures Run(start, es).Some? && Run(start, es).value.freed && forall k :: 0 <= k < |es| ==> !es[k].Submit?
    ensures Next(start, Leave).Some? <==> forall j :: 0 <= j < |start.jobs| ==> start.jobs[j].state == Over
  {
    hide Run, Next, GroupOk, Work;
    es := [];
    var g := start;
    RunNothing(start);
    while g.calls != map[]
      invariant Run(start, es) == Some(g) && GroupOk(g) && g.waiting && !g.freed
      invariant forall k :: 0 <= k < |es| ==> !es[k].Submit?
      decreases |g.calls|
    {
      var id :| id in g.calls;
      var e := if g.calls[id].fits then CreateTasks(id) else RollBack(id);
      CallReturns(g, id);
      es, g := Then(start, es, g, e);
    }
    while exists j :: 0 <= j < |g.jobs| && g.jobs[j].state != Over
      invariant Run(start, es) == Some(g) && GroupOk(g) && g.waiting && !g.freed && g.calls == map[]
      invariant forall k :: 0 <= k < |es| ==> !es[k].Submit?
      decreases Work(g.jobs)
    {
      var j :| 0 <= j < |g.jobs| && g.jobs[j].state != Over;
      JobGoesOn(g, j);
      es, g := Then(start, es, g, NextOf(j, g.jobs[j].state));
    }
    LeaveIff(g);
    LeaveIff(start);
    es, g := Then(start, es, g, Leave);
  }

  lemma CallReturns(g: Group, id: nat)
    requires id in g.calls
    ensures var after := Next(g, if g.calls[id].fits then CreateTasks(id) else RollBack(id));
            after.Some? && after.value.calls == g.calls - {id} && after.value.waiting == g.waiting
            && after.value.freed == g.freed
    ensures |g.calls - {id}| < |g.calls|
  {
    hide NewJobs;
    assert g.calls == (g.calls - {id})[id := g.calls[id]];
  }

  lemma Then(start: Group, es: seq<GroupEvent>, g: Group, e: GroupEvent) returns (es': seq<GroupEvent>, g': Group)
    requires Run(start, es) == Some(g) && GroupOk(g) && Next(g, e).Some?
    ensures es' == es + [e] && Run(start, es') == Some(g') && GroupOk(g') && g' == Next(g, e).value
  {
    hide Run, Next, GroupOk;
    RunThen(start, es, e, g);
    NextOk(g, e);
    es', g' := es + [e], Next(g, e).value;
  }

  lemma {:induction false} SomeOpen(jobs: seq<Job>, j: nat)
    requires j < |jobs| && jobs[j].state != Over
    ensures Open(jobs) > 0
  {
    if Open(jobs) == 0 {
      AllOver(jobs, j);
    }
  }

  lemma {:induction false} NoneOpen(jobs: seq<Job>)
    requires forall j :: 0 <= j < |jobs| ==> jobs[j].state == Over
    ensures Open(jobs) == 0
  {
    if jobs != [] {
      NoneOpen(jobs[..|jobs| - 1]);
    }
  }

  /** The waiting thread leaves exactly when every job is over. */
  lemma LeaveIff(g: Group)
    requires GroupOk(g) && g.waiting && !g.freed
    ensures Next(g, Leave).Some? <==> forall j :: 0 <= j < |g.jobs| ==> g.jobs[j].state == Over
    ensures Next(g, Leave).Some? ==> Next(g, Leave).value.freed
  {
    hide Open, Done;
    if forall j :: 0 <= j < |g.jobs| ==> g.jobs[j].state == Over {
      NoneOpen(g.jobs);
    } else {
      var j :| 0 <= j < |g.jobs| && g.jobs[j].state != Over;
      SomeOpen(g.jobs, j);
    }
  }

  /** Calls and jobs have slots of their own, within the reservation. */
  ghost predicate SlotsOk(reserved: nat, submitted: int, jobs: seq<Job>, calls: map<nat, Call>) {
    && 0 <= submitted <= reserved
    && (forall id :: id in calls ==>
        calls[id].fits && 0 <= calls[id].start && calls[id].start + calls[id].count <= submitted)
    && (forall j :: 0 <= j < |jobs| ==> 0 <= jobs[j].slot < submitted)
    && (forall i, j :: 0 <= i < j < |jobs| ==> jobs[i].slot != jobs[j].slot)
    && (forall id, j :: id in calls && 0 <= j < |jobs| ==>
          !(calls[id].start <= jobs[j].slot < calls[id].start + calls[id].count))
    && (forall a, b :: a in calls && b in calls && a != b ==>
          calls[a].start + calls[a].count <= calls[b].start || calls[b].start + calls[b].count <= calls[a].start)
  }

  ghost predicate GroupSlots(g: Group) {
    !g.overran ==> SlotsOk(g.reserved, g.submitted, g.jobs, g.calls)
  }

  lemma MoveSlots(g: Group, j: nat, to: JobState)
    requires SlotsOk(g.reserved, g.submitted, g.jobs, g.calls) && j < |g.jobs|
    ensures SlotsOk(g.reserved, g.submitted, g.jobs[j := g.jobs[j].(state := to)], g.calls)
  {
    var jobs := g.jobs[j := g.jobs[j].(state := to)];
    assert forall i :: 0 <= i < |g.jobs| ==> jobs[i].slot == g.jobs[i].slot;
  }

  lemma SubmitSlots(g: Group, id: nat, c: Call)
    requires SlotsOk(g.reserved, g.submitted, g.jobs, g.calls) && id !in g.calls
    requires c.start == g.submitted && g.submitted + c.count <= g.reserved && c.fits
    ensures SlotsOk(g.reserved, g.submitted + c.count, g.jobs, g.calls[id := c])
  {
  }

  lemma CreateSlots(g: Group, id: nat)
    requires SlotsOk(g.reserved, g.submitted, g.jobs, g.calls) && id in g.calls
    ensures SlotsOk(g.reserved, g.submitted, g.jobs + NewJobs(g.calls[id].start, g.calls[id].count), g.calls - {id})
  {
    var c := g.calls[id];
    var js := g.jobs + NewJobs(c.start, c.count);
    assert forall i :: 0 <= i < |js| ==>
        js[i].slot == if i < |g.jobs| then g.jobs[i].slot else c.start + (i - |g.jobs|);
  }

  lemma AllFit(g: Group, id: nat)
    requires SlotsOk(g.reserved, g.submitted, g.jobs, g.calls) && id in g.calls
    ensures g.calls[id].fits
  {
  }

  lemma NextSlots(g: Group, e: GroupEvent)
    requires GroupSlots(g) && Next(g, e).Some?
    ensures GroupSlots(Next(g, e).value)
  {
    hide NewJobs, MayCall, Idle, SlotsOk;
    if !g.overran {
      match e
      case Submit(id, creator, n) =>
        if g.submitted + n <= g.reserved {
          SubmitSlots(g, id, Call(creator, n, g.submitted, true));
        }
      case CreateTasks(id) => CreateSlots(g, id);
      case RollBack(id) => AllFit(g, id);
      case MakeReady(j) => MoveSlots(g, j, Ready);
      case Start(j) => MoveSlots(g, j, Running);
      case Block(j) => MoveSlots(g, j, Blocked);
      case Resume(j) => MoveSlots(g, j, Ready);
      case Return(j) => MoveSlots(g, j, Returned);
      case CountCompleted(j) => MoveSlots(g, j, CountedDone);
      case CountPending(j) => MoveSlots(g, j, Over);
      case _ =>
    }
  }

  /** All jobs that a run asks for. */
  function Requested(es: seq<GroupEvent>): nat {
    if es == [] then 0
    else Requested(es[..|es| - 1]) + if es[|es| - 1].Submit? then es[|es| - 1].count else 0
  }

  lemma NextSubmits(g: Group, e: GroupEvent)
    requires GroupSlots(g) && !g.overran && Next(g, e).Some?
    ensures var g' := Next(g, e).value;
            && g'.reserved == g.reserved && g'.submitted == g.submitted + (if e.Submit? then e.count else 0)
            && (g'.overran ==> g'.submitted > g.reserved)
  {
    hide NewJobs, MayCall, Idle, SlotsOk;
    if e.RollBack? {
      AllFit(g, e.call);
    }
  }

  /** Until a call overruns the reservation, all that was asked for was submitted. */
  lemma {:induction false} SubmittedIsRequested(reserved: nat, es: seq<GroupEvent>)
    requires Run(Reserve(reserved), es).Some?
    ensures var g := Run(Reserve(reserved), es).value;
            && g.reserved == reserved && GroupSlots(g)
            && (!g.overran ==> g.submitted == Requested(es) <= reserved)
            && (g.overran ==> Requested(es) > reserved)
  {
    hide Next, SlotsOk;
    if es == [] {
      EmptySlots(reserved);
    } else {
      SubmittedIsRequested(reserved, es[..|es| - 1]);
      var before := Run(Reserve(reserved), es[..|es| - 1]).value;
      var after := Next(before, es[|es| - 1]).value;
      NextReserved(before, es[|es| - 1]);
      NextSlots(before, es[|es| - 1]);
      if !before.overran {
        NextSubmits(before, es[|es| - 1]);
      }
      if !after.overran {
        WithinSlots(after);
      }
    }
  }

  lemma NextReserved(g: Group, e: GroupEvent)
    requires Next(g, e).Some?
    ensures Next(g, e).value.reserved == g.reserved && (g.overran ==> Next(g, e).value.overran)
  {
    hide NewJobs, MayCall, Idle;
  }

  lemma WithinSlots(g: Group)
    requires GroupSlots(g) && !g.overran
    ensures g.submitted <= g.reserved
  {
  }

  /** In every run a call fails exactly if all calls together ask for more than was
      reserved; otherwise every job has a slot of its own. */
  lemma OverrunIff(reserved: nat, es: seq<GroupEvent>)
    requires Run(Reserve(reserved), es).Some?
    ensures var g := Run(Reserve(reserved), es).value;
            && (g.overran <==> Requested(es) > reserved)
            && (!g.overran ==> g.submitted == Requested(es) && SlotsOk(reserved, g.submitted, g.jobs, g.calls))
  {
    hide Run, Requested, SlotsOk;
    SubmittedIsRequested(reserved, es);
  }

  lemma EmptySlots(reserved: nat)
    ensures SlotsOk(reserved, 0, [], map[])
  {
  }

  lemma RunThen(g: Group, es: seq<GroupEvent>, e: GroupEvent, mid: Group)
    requires Run(g, es) == Some(mid)
    ensures Run(g, es + [e]) == Next(mid, e)
  {
    assert (es + [e])[..|es|] == es;
  }

  /** Otherwise two jobs can get the same slot: a failed call that has not rolled back
      pushes a later call to higher slots, which are handed out again after it has. */
  lemma OverrunSharesSlots() returns (es: seq<GroupEvent>)
    ensures Run(Reserve(3), es).Some?
    ensures var js := Run(Reserve(3), es).value.jobs; |js| == 3 && js[1].slot == js[2].slot
  {
    hide Run;
    es := [];
    var g := Reserve(3);
    var c0, c1 := Call(Outside, 4, 0, false), Call(Outside, 1, 4, false);
    RunNothing(g);
    es, g := ThenEvent(es, g, Submit(0, Outside, 4), g.(submitted := 4, overran := true, calls := map[0 := c0]));
    es, g := ThenEvent(es, g, Submit(1, Outside, 1), g.(submitted := 5, calls := map[0 := c0, 1 := c1]));
    assert g.calls - {0} == map[1 := c1];
    es, g := ThenEvent(es, g, RollBack(0), g.(submitted := 1, calls := map[1 := c1]));
    var c2 := Call(Outside, 2, 1, true);
    es, g := ThenEvent(es, g, Submit(2, Outside, 2), g.(submitted := 3, calls := map[1 := c1, 2 := c2]));
    assert g.calls - {1} == map[2 := c2];
    es, g := ThenEvent(es, g, RollBack(1), g.(submitted := 2, calls := map[2 := c2]));
    var c3 := Call(Outside, 1, 2, true);
    es, g := ThenEvent(es, g, Submit(3, Outside, 1), g.(submitted := 3, calls := map[2 := c2, 3 := c3]));
    assert g.jobs + NewJobs(1, 2) == [Job(1, Waiting), Job(2, Waiting)] && g.calls - {2} == map[3 := c3];
    es, g := ThenEvent(es, g, CreateTasks(2),
                       g.(jobs := [Job(1, Waiting), Job(2, Waiting)], pending := 2, calls := map[3 := c3]));
    assert NewJobs(2, 1) == [Job(2, Waiting)] && g.calls - {3} == map[];
    es, g := ThenEvent(es, g, CreateTasks(3), g.(jobs := g.jobs + [Job(2, Waiting)], pending := 3, calls := map[]));
  }

  lemma RunNothing(g: Group)
    ensures Run(g, []) == Some(g)
  {
  }

  lemma ThenEvent(es: seq<GroupEvent>, g: Group, e: GroupEvent, g': Group) returns (es': seq<GroupEvent>, after: Group)
    requires Run(Reserve(3), es) == Some(g) && Next(g, e) == Some(g')
    ensures es' == es + [e] && after == g' && Run(Reserve(3), es') == Some(g')
  {
    es', after := es + [e], g';
    RunThen(Reserve(3), es, e, g);
  }
}
