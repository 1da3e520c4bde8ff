/** What the ingest queue does for an ordinary submission, an ordinary job, and an ordinary shutdown. */
module DispatcherProgress {
  import opened Basics
  import opened Text
  import opened Dispatcher
  import opened DispatcherBooks

  lemma RunHead(c: Config, s: State, a: Action, rest: seq<Action>)
    requires Step(c, s, a).Some?
    ensures Run(c, s, [a] + rest) == Run(c, Step(c, s, a).value, rest)
  {
    hide Step;
    assert ([a] + rest)[0] == a && ([a] + rest)[1..] == rest;
  }

  lemma RunNothing(c: Config, s: State)
    ensures Run(c, s, []) == Some(s)
  {}

  lemma {:induction false} RunJoins(c: Config, s: State, a: seq<Action>, b: seq<Action>)
    requires Run(c, s, a).Some?
    ensures Run(c, s, a + b) == Run(c, Run(c, s, a).value, b)
    decreases |a|
  {
    hide Step;
    if a == [] {
      assert a + b == b;
    } else {
      assert (a + b)[0] == a[0] && (a + b)[1..] == a[1..] + b;
      RunJoins(c, Step(c, s, a[0]).value, a[1..], b);
    }
  }

  // ---- A submission ----

  /** Where a submission stands, before the others' states and the dispatcher are touched. */
  function Standing(s: State, id: nat, p: Submission, leases: nat): State {
    s.(channel := s.channel.(submissions := s.channel.submissions[id := p], seen := s.channel.seen + {id},
                             depth := s.channel.depth + leases))
  }

  /** The submission is over, and has left nothing but its number. */
  function Withdrawn(s: State, id: nat): State {
    s.(channel := s.channel.(seen := s.channel.seen + {id}))
  }

  /** The submission is over, and its job is queued last. */
  function Queued(s: State, id: nat): State {
    s.(channel := s.channel.(seen := s.channel.seen + {id}, sent := s.channel.sent + {id},
                             queue := s.channel.queue + [id], depth := s.channel.depth + 1))
  }

  predicate IsFresh(s: State, id: nat) {
    id !in s.channel.seen && id !in s.channel.submissions && !s.work.pc.Returned?
  }

  predicate HasSlot(c: Config, s: State) {
    !s.channel.receiverClosed && |Holders(s.channel.submissions, Slot)| + |s.channel.queue| < c.capacity
  }

  lemma CheckedHoldsNothing(s: State, id: nat)
    requires id !in s.channel.submissions
    ensures Holders(s.channel.submissions[id := Checked], Slot) == Holders(s.channel.submissions, Slot)
  {}

  lemma MapForgets(m: map<nat, Submission>, id: nat, p: Submission)
    requires id !in m
    ensures m[id := p] - {id} == m
  {}

  lemma MapTwice(m: map<nat, Submission>, id: nat, p: Submission, q: Submission)
    ensures var once := m[id := p]; once[id := q] == m[id := q]
  {}

  lemma Begins(c: Config, s: State, id: nat)
    requires IsFresh(s, id) && s.gate.accepting && s.gate.queueOpen
    ensures Step(c, s, Submit(id, Begin)) == Some(Standing(s, id, Checked, 0))
  {}

  lemma Reserves(c: Config, s: State, id: nat)
    requires IsFresh(s, id)
    ensures Step(c, Standing(s, id, Checked, 0), Submit(id, Reserve)) ==
            Some(if HasSlot(c, s) then Standing(s, id, Reserved, 0) else Withdrawn(s, id))
  {
    CheckedHoldsNothing(s, id);
    MapForgets(s.channel.submissions, id, Checked);
    hide Holders;
    MapTwice(s.channel.submissions, id, Checked, Reserved);
  }

  lemma Rechecks(c: Config, s: State, id: nat)
    requires IsFresh(s, id)
    ensures Step(c, Standing(s, id, Reserved, 0), Submit(id, Recheck)) ==
            Some(if s.gate.accepting then Standing(s, id, Approved, 0) else Withdrawn(s, id))
  {
    MapForgets(s.channel.submissions, id, Reserved);
    MapTwice(s.channel.submissions, id, Reserved, Approved);
  }

  lemma Leases(c: Config, s: State, id: nat)
    requires IsFresh(s, id)
    ensures Step(c, Standing(s, id, Approved, 0), Submit(id, AcquireLease)) == Some(Standing(s, id, Leased, 1))
  {
    MapTwice(s.channel.submissions, id, Approved, Leased);
  }

  lemma Spawns(c: Config, s: State, id: nat)
    requires IsFresh(s, id)
    ensures Step(c, Standing(s, id, Leased, 1), Submit(id, SpawnAdmission)) ==
            Some(if s.gate.runtimeOpen then Standing(s, id, Admitting, 1) else Withdrawn(s, id))
  {
    MapForgets(s.channel.submissions, id, Leased);
    MapTwice(s.channel.submissions, id, Leased, Admitting);
  }

  lemma Admits(c: Config, s: State, id: nat)
    requires IsFresh(s, id)
    ensures Step(c, Standing(s, id, Admitting, 1), Submit(id, Send)) == Some(Queued(s, id))
    ensures Step(c, Standing(s, id, Admitting, 1), Submit(id, AdmissionFails)) == Some(Withdrawn(s, id))
  {
    MapForgets(s.channel.submissions, id, Admitting);
  }

  /** A submission, move by move, up to a point. */
  function Submitting(id: nat, moves: nat): seq<Action>
    requires moves <= 6
  {
    [Submit(id, Begin), Submit(id, Reserve), Submit(id, Recheck), Submit(id, AcquireLease), Submit(id, SpawnAdmission),
     Submit(id, Send)][..moves]
  }

  /** The run so far, extended by one move. */
  lemma OneMoreMove(c: Config, s: State, id: nat, n: nat, s1: State, s2: State)
    requires n < 6 && Run(c, s, Submitting(id, n)) == Some(s1) && Step(c, s1, Submitting(id, 6)[n]) == Some(s2)
    ensures Run(c, s, Submitting(id, n + 1)) == Some(s2)
  {
    hide Step;
    var a := Submitting(id, 6)[n];
    assert Submitting(id, n + 1) == Submitting(id, n) + [a];
    RunJoins(c, s, Submitting(id, n), [a]);
    RunHead(c, s1, a, []);
    assert [a] + [] == [a];
    RunNothing(c, s2);
  }

  /** With every gate open and a slot free, a fresh submission queues its job last, and deepens the queue by one. */
  lemma OpenGatesQueue(c: Config, s: State, id: nat)
    requires IsFresh(s, id) && HasSlot(c, s)
    requires s.gate.accepting && s.gate.queueOpen && s.gate.runtimeOpen
    ensures Run(c, s, Submitting(id, 6)) == Some(Queued(s, id))
  {
    hide Step, HasSlot, Standing, Queued;
    assert Submitting(id, 0) == [];
    RunNothing(c, s);
    Begins(c, s, id);
    OneMoreMove(c, s, id, 0, s, Standing(s, id, Checked, 0));
    Reserves(c, s, id);
    OneMoreMove(c, s, id, 1, Standing(s, id, Checked, 0), Standing(s, id, Reserved, 0));
    Rechecks(c, s, id);
    OneMoreMove(c, s, id, 2, Standing(s, id, Reserved, 0), Standing(s, id, Approved, 0));
    Leases(c, s, id);
    OneMoreMove(c, s, id, 3, Standing(s, id, Approved, 0), Standing(s, id, Leased, 1));
    Spawns(c, s, id);
    OneMoreMove(c, s, id, 4, Standing(s, id, Leased, 1), Standing(s, id, Admitting, 1));
    Admits(c, s, id);
    OneMoreMove(c, s, id, 5, Standing(s, id, Admitting, 1), Queued(s, id));
  }

  /** In every reachable state whose receiver is open a number not yet used is fresh. */
  lemma ReachableIsFresh(c: Config, actions: seq<Action>, id: nat)
    requires Run(c, Start(), actions).Some? && id !in Run(c, Start(), actions).value.channel.seen
    requires !Run(c, Start(), actions).value.channel.receiverClosed
    ensures IsFresh(Run(c, Start(), actions).value, id)
  {
    BooksAlwaysBalance(c, actions);
    hide Run, Step, QueueBooks, TaskBooks, JobBooks;
  }

  /** So from every reachable state a submission through open gates with a free slot reaches the queue. */
  lemma SubmissionReachesQueue(c: Config, actions: seq<Action>, id: nat)
    requires Run(c, Start(), actions).Some?
    requires var s := Run(c, Start(), actions).value;
             id !in s.channel.seen && HasSlot(c, s) && s.gate.accepting && s.gate.queueOpen && s.gate.runtimeOpen
    ensures var s := Run(c, Start(), actions).value;
            var end := Run(c, Start(), actions + Submitting(id, 6));
            && end.Some? && id in end.value.channel.sent
            && end.value.channel.queue == s.channel.queue + [id] && end.value.channel.depth == s.channel.depth + 1
            && end.value.channel.submissions == s.channel.submissions && end.value.work == s.work
  {
    hide Run, Step;
    ReachableIsFresh(c, actions, id);
    OpenGatesQueue(c, Run(c, Start(), actions).value, id);
    RunJoins(c, Start(), actions, Submitting(id, 6));
  }

  /**
   * Each refusal ends the submission with its slot and its lease back and nothing sent: closed gates at once, no slot
   * or no receiver at the reservation, a gate closed since at the second look, a closed runtime at the last step, and
   * a failed admission after it.
   */
  lemma RefusalsLeaveNothing(c: Config, s: State, id: nat)
    requires IsFresh(s, id)
    ensures !s.gate.accepting || !s.gate.queueOpen ==> Step(c, s, Submit(id, Begin)) == Some(s)
    ensures !HasSlot(c, s) ==> Step(c, Standing(s, id, Checked, 0), Submit(id, Reserve)) == Some(Withdrawn(s, id))
    ensures !s.gate.accepting ==>
              Step(c, Standing(s, id, Reserved, 0), Submit(id, Recheck)) == Some(Withdrawn(s, id))
    ensures !s.gate.runtimeOpen ==>
              Step(c, Standing(s, id, Leased, 1), Submit(id, SpawnAdmission)) == Some(Withdrawn(s, id))
    ensures Step(c, Standing(s, id, Admitting, 1), Submit(id, AdmissionFails)) == Some(Withdrawn(s, id))
  {
    Reserves(c, s, id);
    Rechecks(c, s, id);
    Spawns(c, s, id);
    Admits(c, s, id);
    hide HasSlot, Standing, Withdrawn;
  }

  // ---- A job ----

  predicate Idle(c: Config, s: State) {
    s.work.pc.Selecting? && |s.work.running| < c.maxConcurrent
    && s.work.nextTask !in s.work.running && s.work.nextTask !in s.work.active
  }

  /** The dispatcher has the first queued job running, tracked, and its lease released. */
  function Running(s: State): State
    requires s.channel.queue != []
  {
    var t, job := s.work.nextTask, s.channel.queue[0];
    s.(channel := s.channel.(queue := s.channel.queue[1..], depth := s.channel.depth - 1),
       work := s.work.(running := s.work.running[t := Live], active := s.work.active[t := job], nextTask := t + 1))
  }

  const TAKING := [OnChannel(Receive), OnChannel(TakeLease), OnTasks(SpawnTask), OnTasks(Track)]

  /** A dispatcher below its limit takes the first queued job and starts it. */
  lemma QueuedJobStarts(c: Config, s: State)
    requires Idle(c, s) && s.channel.queue != []
    ensures Run(c, s, TAKING) == Some(Running(s))
  {
    var job := s.channel.queue[0];
    var ch1 := s.channel.(queue := s.channel.queue[1..]);
    var s1 := s.(channel := ch1, work := s.work.(pc := Received(job)));
    var s2 := s.(channel := ch1.(depth := ch1.depth - 1), work := s.work.(pc := Dequeued(job)));
    var t := s.work.nextTask;
    var s3 := s2.(work := s.work.(pc := Spawned(t, job), running := s.work.running[t := Live], nextTask := t + 1));
    assert Step(c, s, OnChannel(Receive)) == Some(s1);
    assert Step(c, s1, OnChannel(TakeLease)) == Some(s2);
    assert Step(c, s2, OnTasks(SpawnTask)) == Some(s3);
    assert Step(c, s3, OnTasks(Track)) == Some(Running(s));
    hide Step, Running;
    RunFour(c, s, OnChannel(Receive), s1, OnChannel(TakeLease), s2, OnTasks(SpawnTask), s3, OnTasks(Track), Running(s));
  }

  lemma RunFour(
    c: Config, s: State, a1: Action, s1: State, a2: Action, s2: State, a3: Action, s3: State, a4: Action, s4: State)
    requires Step(c, s, a1) == Some(s1) && Step(c, s1, a2) == Some(s2)
    requires Step(c, s2, a3) == Some(s3) && Step(c, s3, a4) == Some(s4)
    ensures Run(c, s, [a1, a2, a3, a4]) == Some(s4)
  {
    hide Step;
    RunHead(c, s, a1, [a2, a3, a4]);
    RunHead(c, s1, a2, [a3, a4]);
    RunHead(c, s2, a3, [a4]);
    RunHead(c, s3, a4, []);
    assert [a1, a2, a3, a4] == [a1] + [a2, a3, a4] && [a2, a3, a4] == [a2] + [a3, a4];
    assert [a3, a4] == [a3] + [a4] && [a4] == [a4] + [];
    RunNothing(c, s4);
  }

  /** A tracked task is over and its job told the outcome; the task is no longer tracked. */
  function ToldOff(s: State, t: nat, o: Outcome): State
    requires t in s.work.active
  {
    s.(work := s.work.(running := s.work.running - {t}, active := s.work.active - {t},
                       settled := s.work.settled + [Settled(s.work.active[t], o)]))
  }

  /** What a task comes to, and the moves by which its job is told. */
  function Telling(t: nat, e: Ending): seq<Action> {
    [TaskEnds(t, e), OnTasks(Join(t)), OnTasks(HandleJoined)] + if e == Finished(true) then [] else [OnTasks(Marked)]
  }

  /** A running task that ends is joined and its job told: at once if it finished well, else after it is marked. */
  lemma EndedTaskIsTold(c: Config, s: State, t: nat, e: Ending)
    requires s.work.pc.Selecting? || s.work.pc.AwaitingTasks?
    requires t in s.work.running && s.work.running[t].Live? && t in s.work.active && (e.Cancelled? ==> s.expired)
    ensures Run(c, s, Telling(t, e)) ==
            Some(ToldOff(s, t, match e case Finished(ok) => if ok then Ran else Failed
                                       case Panicked => Failed
                                       case Cancelled => Interrupted))
  {
    var job, w := s.work.active[t], s.work;
    var loop := if w.pc.Selecting? then Main else Waiting;
    var s1 := s.(work := w.(running := w.running[t := Ended(e)]));
    var s2 := s.(work := w.(running := w.running - {t}, pc := Joined(loop, t, e)));
    var o := match e case Finished(ok) => if ok then Ran else Failed
                     case Panicked => Failed
                     case Cancelled => Interrupted;
    var s4 := ToldOff(s, t, o);
    assert Step(c, s, TaskEnds(t, e)) == Some(s1);
    assert w.running[t := Ended(e)] - {t} == w.running - {t};
    assert Step(c, s1, OnTasks(Join(t))) == Some(s2);
    RunHead(c, s, TaskEnds(t, e), Telling(t, e)[1..]);
    RunHead(c, s1, OnTasks(Join(t)), Telling(t, e)[2..]);
    assert Telling(t, e) == [TaskEnds(t, e)] + Telling(t, e)[1..];
    assert Telling(t, e)[1..] == [OnTasks(Join(t))] + Telling(t, e)[2..];
    if e == Finished(true) {
      assert Step(c, s2, OnTasks(HandleJoined)) == Some(s4);
      assert Telling(t, e)[2..] == [OnTasks(HandleJoined)] + [];
      RunHead(c, s2, OnTasks(HandleJoined), []);
      RunNothing(c, s4);
    } else {
      var s3 := s.(work := w.(running := w.running - {t}, active := w.active - {t}, pc := Marking(loop, job, o)));
      assert Step(c, s2, OnTasks(HandleJoined)) == Some(s3);
      assert Step(c, s3, OnTasks(Marked)) == Some(s4);
      assert Telling(t, e)[2..] == [OnTasks(HandleJoined)] + [OnTasks(Marked)];
      RunHead(c, s2, OnTasks(HandleJoined), [OnTasks(Marked)]);
      assert [OnTasks(Marked)] == [OnTasks(Marked)] + [];
      RunHead(c, s3, OnTasks(Marked), []);
      RunNothing(c, s4);
    }
  }

  // ---- Shutdown ----

  const CLOSING := [Shutdown(StopAccepting), Shutdown(CloseQueue), Shutdown(SignalDrain)]

  /** Shutdown is always possible, in its order, and closes the submitters' gates for good. */
  lemma ShutdownCloses(c: Config, s: State)
    ensures Run(c, s, CLOSING) == Some(s.(gate := Gate(false, false, s.gate.runtimeOpen, true)))
  {
    var g := s.gate;
    var s1, s2 := s.(gate := g.(accepting := false)), s.(gate := g.(accepting := false, queueOpen := false));
    var s3 := s.(gate := Gate(false, false, g.runtimeOpen, true));
    assert Step(c, s, CLOSING[0]) == Some(s1) && Step(c, s1, CLOSING[1]) == Some(s2);
    assert Step(c, s2, CLOSING[2]) == Some(s3);
    RunHead(c, s, CLOSING[0], [CLOSING[1], CLOSING[2]]);
    RunHead(c, s1, CLOSING[1], [CLOSING[2]]);
    RunHead(c, s2, CLOSING[2], []);
    assert CLOSING == [CLOSING[0]] + [CLOSING[1], CLOSING[2]];
    assert [CLOSING[1], CLOSING[2]] == [CLOSING[1]] + [CLOSING[2]] && [CLOSING[2]] == [CLOSING[2]] + [];
    RunNothing(c, s3);
  }

  /** No gate ever opens again. */
  lemma GatesStayClosed(c: Config, s: State, a: Action)
    requires Step(c, s, a).Some?
    ensures var g, g' := s.gate, Step(c, s, a).value.gate;
            && (g'.accepting ==> g.accepting) && (g'.queueOpen ==> g.queueOpen)
            && (g'.runtimeOpen ==> g.runtimeOpen) && (g.drain ==> g'.drain)
  {
    hide WorkStep, ChannelStep, SubmitOn, AfterTimeout, EnterPc;
    if a.GiveUpMark? || a.FinishSweep? { EnterKeepsGate(s, a); }
  }

  lemma EnterKeepsGate(s: State, a: Action)
    ensures forall pc, lost :: EnterPc(s.(lost := lost), pc).gate == s.gate
  {}

  // ---- While the queue is open ----

  /** The dispatcher is in its main loop. */
  predicate Serves(pc: Pc) {
    match pc
    case Joined(loop, _, _) => loop.Main?
    case Marking(loop, _, _) => loop.Main?
    case _ => pc.Selecting? || pc.Received? || pc.Dequeued? || pc.Spawned?
  }

  /** Shutdown takes its steps in order, and nothing ends the main loop before the queue is closed. */
  predicate Steady(s: State) {
    && (s.gate.accepting ==> s.gate.queueOpen) && (s.gate.queueOpen ==> !s.gate.drain && Serves(s.work.pc))
    && (Serves(s.work.pc) ==> !s.channel.receiverClosed && !s.expired && s.lost == [])
  }

  lemma SubmitKeepsReceiver(c: Config, g: Gate, ch: Channel, id: nat, m: SubmitMove)
    requires SubmitOn(c, g, ch, id, m).Some?
    ensures SubmitOn(c, g, ch, id, m).value.receiverClosed == ch.receiverClosed
  {
    hide Holders, Holds;
  }

  lemma WorkKeepsServing(w: Work, expired: bool, m: DispatchMove)
    requires WorkStep(w, expired, m).Some?
    ensures Serves(WorkStep(w, expired, m).value.pc) <==> Serves(w.pc)
  {}

  /** Only a drain signal or a closed queue ends the main loop, before the receiver is closed. */
  lemma ChannelEndsServing(c: Config, g: Gate, ch: Channel, w: Work, m: DispatchMove)
    requires ChannelStep(c, g, ch, w, m).Some?
    ensures var (ch', pc) := ChannelStep(c, g, ch, w, m).value;
            && (Serves(pc) ==> Serves(w.pc))
            && (Serves(w.pc) ==> ch'.receiverClosed == ch.receiverClosed && (Serves(pc) || g.drain || !g.queueOpen))
  {
    hide Holders;
  }

  lemma TimeoutIsLate(s: State)
    requires AfterTimeout(s.work).Some?
    ensures !Serves(s.work.pc) && !Serves(AfterTimeout(s.work).value)
  {}

  lemma EnterEnters(s: State, pc: Pc)
    ensures EnterPc(s, pc).work.pc == pc && EnterPc(s, pc).gate == s.gate
  {}

  lemma StepKeepsSteady(c: Config, s: State, a: Action)
    requires Steady(s) && Step(c, s, a).Some?
    ensures Steady(Step(c, s, a).value)
  {
    hide SubmitOn, WorkStep, ChannelStep, AfterTimeout, EnterPc, InHand;
    match a
    case Submit(id, m) => SubmitKeepsReceiver(c, s.gate, s.channel, id, m);
    case OnTasks(m) => WorkKeepsServing(s.work, s.expired, m);
    case OnChannel(m) => ChannelEndsServing(c, s.gate, s.channel, s.work, m);
    case GiveUpMark =>
      TimeoutIsLate(s);
      EnterEnters(s.(lost := s.lost + [InHand(s.work.pc).value]), AfterTimeout(s.work).value);
    case FinishSweep => EnterEnters(s, Returned);
    case _ =>
  }

  lemma {:induction false} RunKeepsSteady(c: Config, s: State, actions: seq<Action>)
    requires Steady(s) && Run(c, s, actions).Some?
    ensures Steady(Run(c, s, actions).value)
    decreases |actions|
  {
    hide Step, Steady;
    if actions != [] {
      StepKeepsSteady(c, s, actions[0]);
      RunKeepsSteady(c, Step(c, s, actions[0]).value, actions[1..]);
    }
  }

  /** In every reachable state with an open queue the dispatcher serves it, and no job was ever lost. */
  lemma ServesWhileOpen(c: Config, actions: seq<Action>)
    requires Run(c, Start(), actions).Some? && Run(c, Start(), actions).value.gate.queueOpen
    ensures var s := Run(c, Start(), actions).value;
            Serves(s.work.pc) && !s.channel.receiverClosed && !s.gate.drain && !s.expired && s.lost == []
  {
    hide Run;
    RunKeepsSteady(c, Start(), actions);
  }

  /** The moves that drain the queue's first job. */
  const DRAINING_ONE := [OnChannel(Receive), OnChannel(TakeLease), OnTasks(Marked)]

  function DrainAll(n: nat): seq<Action> {
    if n == 0 then [] else DRAINING_ONE + DrainAll(n - 1)
  }

  function AllInterrupted(jobs: seq<nat>): seq<Settled> {
    seq(|jobs|, i requires 0 <= i < |jobs| => Settled(jobs[i], Interrupted))
  }

  /** The queue is empty and each of its jobs was told it was interrupted, in order. */
  function Drained(s: State): State {
    s.(channel := s.channel.(queue := [], depth := s.channel.depth - |s.channel.queue|),
       work := s.work.(settled := s.work.settled + AllInterrupted(s.channel.queue)))
  }

  lemma DrainOne(c: Config, s: State)
    requires s.work.pc.Draining? && s.channel.queue != []
    ensures Run(c, s, DRAINING_ONE) ==
            Some(s.(channel := s.channel.(queue := s.channel.queue[1..], depth := s.channel.depth - 1),
                    work := s.work.(settled := s.work.settled + [Settled(s.channel.queue[0], Interrupted)])))
  {
    var job, ch := s.channel.queue[0], s.channel.(queue := s.channel.queue[1..]);
    var s1 := s.(channel := ch, work := s.work.(pc := DrainGot(job)));
    var s2 := s.(channel := ch.(depth := ch.depth - 1), work := s.work.(pc := DrainMarking(job)));
    var s3 := s.(channel := ch.(depth := ch.depth - 1),
                 work := s.work.(settled := s.work.settled + [Settled(job, Interrupted)]));
    assert Step(c, s, DRAINING_ONE[0]) == Some(s1) && Step(c, s1, DRAINING_ONE[1]) == Some(s2);
    assert Step(c, s2, DRAINING_ONE[2]) == Some(s3);
    RunHead(c, s, DRAINING_ONE[0], [DRAINING_ONE[1], DRAINING_ONE[2]]);
    RunHead(c, s1, DRAINING_ONE[1], [DRAINING_ONE[2]]);
    RunHead(c, s2, DRAINING_ONE[2], []);
    assert DRAINING_ONE == [DRAINING_ONE[0]] + [DRAINING_ONE[1], DRAINING_ONE[2]];
    assert [DRAINING_ONE[1], DRAINING_ONE[2]] == [DRAINING_ONE[1]] + [DRAINING_ONE[2]];
    assert [DRAINING_ONE[2]] == [DRAINING_ONE[2]] + [];
    RunNothing(c, s3);
  }

  lemma {:induction false} QueueDrains(c: Config, s: State)
    requires s.work.pc.Draining?
    ensures Run(c, s, DrainAll(|s.channel.queue|)) == Some(Drained(s))
    decreases |s.channel.queue|
  {
    var queue := s.channel.queue;
    if queue == [] {
      assert AllInterrupted([]) == [] && s.work.settled + [] == s.work.settled;
      RunNothing(c, s);
    } else {
      hide Step;
      DrainOne(c, s);
      var s1 := Run(c, s, DRAINING_ONE).value;
      QueueDrains(c, s1);
      RunJoins(c, s, DRAINING_ONE, DrainAll(|queue| - 1));
      assert AllInterrupted(queue) == [Settled(queue[0], Interrupted)] + AllInterrupted(queue[1..]);
      Associative(s.work.settled, [Settled(queue[0], Interrupted)], AllInterrupted(queue[1..]));
    }
  }

  /** The dispatcher's own moves from an idle loop to its return, with this many jobs queued. */
  function GoingDown(n: nat): seq<Action> {
    [OnChannel(SeeDrain), OnChannel(Close)] + DrainAll(n) + [OnChannel(DrainNothing), OnTasks(NoneRunning), FinishSweep]
  }

  /**
   * Asked to drain, with no submission pending and no task running, the dispatcher interrupts every queued job in
   * order, closes the channel and returns.
   */
  lemma IdleDispatcherReturns(c: Config, s: State)
    requires s.work.pc.Selecting? && s.gate.drain && s.channel.submissions == map[]
    requires s.work.running == map[] && s.work.active == map[]
    ensures var end := Run(c, s, GoingDown(|s.channel.queue|));
            && end.Some? && end.value.work.pc.Returned? && end.value.channel.receiverClosed
            && end.value.channel.queue == [] && end.value.lost == s.lost
            && end.value.channel.depth == s.channel.depth - |s.channel.queue|
            && end.value.work.settled == s.work.settled + AllInterrupted(s.channel.queue)
  {
    var n := |s.channel.queue|;
    var s1 := s.(work := s.work.(pc := Closing));
    var s2 := s1.(channel := s.channel.(receiverClosed := true), work := s.work.(pc := Draining));
    var s3 := Drained(s2);
    var tail := [OnChannel(DrainNothing), OnTasks(NoneRunning), FinishSweep];
    DrainStarts(c, s, s1, s2);
    QueueDrains(c, s2);
    DrainEnds(c, s3);
    hide Step;
    RunJoins(c, s2, DrainAll(n), tail);
    RunHead(c, s1, OnChannel(Close), DrainAll(n) + tail);
    RunHead(c, s, OnChannel(SeeDrain), [OnChannel(Close)] + (DrainAll(n) + tail));
    assert GoingDown(n) == [OnChannel(SeeDrain)] + ([OnChannel(Close)] + (DrainAll(n) + tail));
  }

  lemma DrainStarts(c: Config, s: State, s1: State, s2: State)
    requires s.work.pc.Selecting? && s.gate.drain && s1 == s.(work := s.work.(pc := Closing))
    requires s2 == s1.(channel := s.channel.(receiverClosed := true), work := s.work.(pc := Draining))
    ensures Step(c, s, OnChannel(SeeDrain)) == Some(s1) && Step(c, s1, OnChannel(Close)) == Some(s2)
  {}

  lemma DrainEnds(c: Config, s: State)
    requires s.work.pc.Draining? && s.channel.queue == [] && s.channel.submissions == map[]
    requires s.work.running == map[] && s.work.active == map[]
    ensures Run(c, s, [OnChannel(DrainNothing), OnTasks(NoneRunning), FinishSweep]) ==
            Some(s.(work := s.work.(pc := Returned)))
  {
    var s4, s5 := s.(work := s.work.(pc := AwaitingTasks)), s.(work := s.work.(pc := Sweeping));
    var s6 := s.(work := s.work.(pc := Returned));
    assert Holders(map[], Slot) == {};
    assert Step(c, s, OnChannel(DrainNothing)) == Some(s4) && Step(c, s4, OnTasks(NoneRunning)) == Some(s5);
    assert s6.lost + [] == s6.lost;
    assert Step(c, s5, FinishSweep) == Some(s6);
    hide Step;
    RunTail(c, s, s4, s5, s6);
  }

  lemma RunTail(c: Config, s3: State, s4: State, s5: State, s6: State)
    requires Step(c, s3, OnChannel(DrainNothing)) == Some(s4) && Step(c, s4, OnTasks(NoneRunning)) == Some(s5)
    requires Step(c, s5, FinishSweep) == Some(s6)
    ensures Run(c, s3, [OnChannel(DrainNothing), OnTasks(NoneRunning), FinishSweep]) == Some(s6)
  {
    hide Step;
    RunHead(c, s3, OnChannel(DrainNothing), [OnTasks(NoneRunning), FinishSweep]);
    RunHead(c, s4, OnTasks(NoneRunning), [FinishSweep]);
    RunHead(c, s5, FinishSweep, []);
    assert [OnChannel(DrainNothing), OnTasks(NoneRunning), FinishSweep]
        == [OnChannel(DrainNothing)] + [OnTasks(NoneRunning), FinishSweep];
    assert [OnTasks(NoneRunning), FinishSweep] == [OnTasks(NoneRunning)] + [FinishSweep];
    assert [FinishSweep] == [FinishSweep] + [];
    RunNothing(c, s6);
  }

  /** With every submitter gone and the queue empty, a dispatcher whose queue was closed goes down without a signal. */
  lemma EmptyQueueEnds(c: Config, s: State)
    requires s.work.pc.Selecting? && |s.work.running| < c.maxConcurrent && !s.gate.queueOpen
    requires s.channel.queue == [] && s.channel.submissions == map[]
    ensures Step(c, s, OnChannel(ReceiveNothing)) == Some(s.(work := s.work.(pc := Closing)))
  {}

  // ---- The deadline ----

  function SweepAll(tasks: seq<nat>): seq<Action> {
    if tasks == [] then [] else [OnTasks(Sweep(tasks[0])), OnTasks(Marked)] + SweepAll(tasks[1..])
  }

  predicate Enumerates(tasks: seq<nat>, active: map<nat, nat>) {
    && (forall i, j :: 0 <= i < j < |tasks| ==> tasks[i] != tasks[j])
    && (forall i :: 0 <= i < |tasks| ==> tasks[i] in active) && forall t :: t in active ==> t in tasks
  }

  function JobsIn(tasks: seq<nat>, active: map<nat, nat>): seq<nat>
    requires forall i :: 0 <= i < |tasks| ==> tasks[i] in active
  {
    seq(|tasks|, i requires 0 <= i < |tasks| => active[tasks[i]])
  }

  lemma {:induction false} SweepTellsAll(c: Config, s: State, tasks: seq<nat>)
    requires s.work.pc.Sweeping? && Enumerates(tasks, s.work.active)
    ensures Run(c, s, SweepAll(tasks)) ==
            Some(s.(work := s.work.(active := map[],
                                    settled := s.work.settled + AllInterrupted(JobsIn(tasks, s.work.active)))))
    decreases |tasks|
  {
    var w := s.work;
    if tasks == [] {
      assert w.active == map[] && AllInterrupted(JobsIn(tasks, w.active)) == [] && w.settled + [] == w.settled;
      RunNothing(c, s);
    } else {
      var t, job := tasks[0], w.active[tasks[0]];
      var one := [Settled(job, Interrupted)];
      var s2 := s.(work := w.(active := w.active - {t}, settled := w.settled + one));
      SweepOne(c, s, t);
      hide Step, JobsIn, AllInterrupted, Enumerates;
      RestEnumerates(tasks, w.active);
      SweepTellsAll(c, s2, tasks[1..]);
      InterruptedFirst(tasks, w.active);
      Associative(w.settled, one, AllInterrupted(JobsIn(tasks[1..], s2.work.active)));
      RunJoins(c, s, [OnTasks(Sweep(t)), OnTasks(Marked)], SweepAll(tasks[1..]));
    }
  }

  lemma InterruptedFirst(tasks: seq<nat>, active: map<nat, nat>)
    requires tasks != [] && Enumerates(tasks, active) && Enumerates(tasks[1..], active - {tasks[0]})
    ensures AllInterrupted(JobsIn(tasks, active)) ==
            [Settled(active[tasks[0]], Interrupted)] + AllInterrupted(JobsIn(tasks[1..], active - {tasks[0]}))
  {}

  lemma SweepOne(c: Config, s: State, t: nat)
    requires s.work.pc.Sweeping? && t in s.work.active
    ensures var w := s.work;
            Run(c, s, [OnTasks(Sweep(t)), OnTasks(Marked)]) ==
            Some(s.(work := w.(active := w.active - {t}, settled := w.settled + [Settled(w.active[t], Interrupted)])))
  {
    var w, job := s.work, s.work.active[t];
    var s1 := s.(work := w.(pc := SweepMarking(job), active := w.active - {t}));
    var s2 := s.(work := w.(active := w.active - {t}, settled := w.settled + [Settled(job, Interrupted)]));
    assert Step(c, s, OnTasks(Sweep(t))) == Some(s1) && Step(c, s1, OnTasks(Marked)) == Some(s2);
    hide Step;
    RunHead(c, s, OnTasks(Sweep(t)), [OnTasks(Marked)]);
    RunHead(c, s1, OnTasks(Marked), []);
    assert [OnTasks(Sweep(t)), OnTasks(Marked)] == [OnTasks(Sweep(t))] + [OnTasks(Marked)];
    assert [OnTasks(Marked)] == [OnTasks(Marked)] + [];
    RunNothing(c, s2);
  }

  lemma RestEnumerates(tasks: seq<nat>, active: map<nat, nat>)
    requires tasks != [] && Enumerates(tasks, active)
    ensures Enumerates(tasks[1..], active - {tasks[0]})
  {
    forall t | t in active - {tasks[0]} ensures t in tasks[1..] {
      var i :| 0 <= i < |tasks| && tasks[i] == t;
      assert tasks[1..][i - 1] == t;
    }
  }

  /**
   * Past the deadline a dispatcher still waiting for tasks stops waiting, tells every tracked job that it was
   * interrupted, and can return.
   */
  lemma DeadlineSweeps(c: Config, s: State, tasks: seq<nat>)
    requires s.work.pc.AwaitingTasks? && s.expired && s.work.running != map[] && Enumerates(tasks, s.work.active)
    ensures var waits := [OnTasks(WaitTimesOut), OnTasks(WaitTimesOut)];
            var end := Run(c, s, waits + SweepAll(tasks));
            && end.Some? && end.value.work.pc.Sweeping? && end.value.work.active == map[]
            && end.value.work.settled == s.work.settled + AllInterrupted(JobsIn(tasks, s.work.active))
            && Step(c, end.value, FinishSweep).Some? && Step(c, end.value, FinishSweep).value.work.pc.Returned?
  {
    var waits := [OnTasks(WaitTimesOut), OnTasks(WaitTimesOut)];
    var s1, s2 := s.(work := s.work.(pc := AbortingTasks)), s.(work := s.work.(pc := Sweeping));
    assert Step(c, s, OnTasks(WaitTimesOut)) == Some(s1) && Step(c, s1, OnTasks(WaitTimesOut)) == Some(s2);
    RunHead(c, s1, OnTasks(WaitTimesOut), SweepAll(tasks));
    RunHead(c, s, OnTasks(WaitTimesOut), [OnTasks(WaitTimesOut)] + SweepAll(tasks));
    assert waits + SweepAll(tasks) == [OnTasks(WaitTimesOut)] + ([OnTasks(WaitTimesOut)] + SweepAll(tasks));
    SweepTellsAll(c, s2, tasks);
  }

  /**
   * Past the deadline a record that cannot be marked is given up: its job is lost, and the dispatcher goes on with the
   * tasks, the sweep or its return. While it is still serving it never gives up.
   */
  lemma UnmarkedIsLost(c: Config, s: State)
    ensures s.work.pc.Marking? && s.work.pc.loop.Main? ==> Step(c, s, GiveUpMark).None?
    ensures !s.expired ==> Step(c, s, GiveUpMark).None?
    ensures s.expired && (s.work.pc.DrainMarking? || (s.work.pc.Marking? && !s.work.pc.loop.Main?)) ==>
              && Step(c, s, GiveUpMark).Some?
              && var s' := Step(c, s, GiveUpMark).value;
              && s'.lost == s.lost + [s.work.pc.job] && s'.channel == s.channel
              && s'.work == s.work.(pc := if s.work.pc.DrainMarking? then AwaitingTasks
                                          else if s.work.pc.loop.Waiting? && s.work.running != map[] then AbortingTasks
                                          else Sweeping)
    ensures s.expired && s.work.pc.SweepMarking? ==>
              && Step(c, s, GiveUpMark).Some?
              && Step(c, s, GiveUpMark).value.work.pc.Returned?
              && Step(c, s, GiveUpMark).value.lost == s.lost + [s.work.pc.job] + s.channel.queue
  {}
}
