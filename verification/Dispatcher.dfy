/**
 * The ingest queue: submissions reserve a channel slot and a depth lease, a dispatcher runs the jobs
 * within a concurrency limit, and shutdown drains what is left. Every move below is atomic; moves of
 * the submitters, the running tasks, the dispatcher and shutdown interleave freely.
 */
module Dispatcher {
  import opened Text

  datatype Config = Config(capacity: nat, maxConcurrent: nat)

  // ---- The channel and its submitters ----

  /** A submission, from its first look at the gate until it has sent its job or given up. */
  datatype Submission = Checked | Reserved | Approved | Leased | Admitting

  datatype Gate = Gate(accepting: bool, queueOpen: bool, runtimeOpen: bool, drain: bool)

  datatype Channel = Channel(
    submissions: map<nat, Submission>, seen: set<nat>, queue: seq<nat>, depth: int, sent: set<nat>,
        receiverClosed: bool)

  /** What a submission holds: a channel slot from its reservation on, a depth lease from its acquisition on. */
  datatype Token = Slot | Lease

  predicate Holds(p: Submission, k: Token) {
    match k case Slot => !p.Checked? case Lease => p.Leased? || p.Admitting?
  }

  function Holders(subs: map<nat, Submission>, k: Token): set<nat> { set id | id in subs && Holds(subs[id], k) }

  datatype SubmitMove = Begin | Reserve | Recheck | AcquireLease | SpawnAdmission | AdmissionFails | Send

  /** Give up: the slot and the lease, if held, are dropped. */
  function GiveUp(ch: Channel, id: nat): Channel
    requires id in ch.submissions
  {
    ch.(submissions := ch.submissions - {id}, depth := ch.depth - if Holds(ch.submissions[id], Lease) then 1 else 0)
  }

  function Advance(ch: Channel, id: nat, p: Submission): Channel {
    ch.(submissions := ch.submissions[id := p])
  }

  function SubmitOn(c: Config, g: Gate, ch: Channel, id: nat, m: SubmitMove): Option<Channel> {
    if m.Begin? then
      if id in ch.seen then None
      else if !g.accepting || !g.queueOpen then Some(ch)
      else Some(Advance(ch, id, Checked).(seen := ch.seen + {id}))
    else if id !in ch.submissions then None
    else
      var p := ch.submissions[id];
      match m
      case Reserve =>
        if !p.Checked? then None
        else if ch.receiverClosed || |Holders(ch.submissions, Slot)| + |ch.queue| >= c.capacity
            then Some(GiveUp(ch, id))
        else Some(Advance(ch, id, Reserved))
      case Recheck =>
        if !p.Reserved? then None else if g.accepting then Some(Advance(ch, id, Approved)) else Some(GiveUp(ch, id))
      case AcquireLease => if p.Approved? then Some(Advance(ch, id, Leased).(depth := ch.depth + 1)) else None
      case SpawnAdmission =>
        if !p.Leased? then None else if g.runtimeOpen then Some(Advance(ch, id, Admitting)) else Some(GiveUp(ch, id))
      case AdmissionFails => if p.Admitting? then Some(GiveUp(ch, id)) else None
      case Send =>
        if !p.Admitting? then None
        else Some(ch.(submissions := ch.submissions - {id}, sent := ch.sent + {id}, queue := ch.queue + [id]))
  }

  datatype ShutdownMove = StopAccepting | CloseQueue | SignalDrain | CloseRuntime

  function ShutdownOn(g: Gate, m: ShutdownMove): Option<Gate> {
    match m
    case StopAccepting => Some(g.(accepting := false))
    case CloseQueue => if g.accepting then None else Some(g.(queueOpen := false))
    case SignalDrain => if g.queueOpen then None else Some(g.(drain := true))
    case CloseRuntime => Some(g.(runtimeOpen := false))
  }

  // ---- The tasks and the dispatcher ----

  datatype Outcome = Ran | Failed | Interrupted

  /** How a task ended; a cancelled task was aborted. */
  datatype Ending = Finished(ok: bool) | Panicked | Cancelled

  datatype Task = Live | Ended(ending: Ending)

  /** The loop a completion is handled in; only the main loop has no deadline. */
  datatype Loop = Main | Waiting | Aborting

  datatype Pc =
    | Selecting
    | Received(job: nat)
    | Dequeued(job: nat)
    | Spawned(task: nat, job: nat)
    | Joined(loop: Loop, task: nat, ending: Ending)
    | Marking(loop: Loop, job: nat, outcome: Outcome)
    | Closing
    | Draining
    | DrainGot(job: nat)
    | DrainMarking(job: nat)
    | AwaitingTasks
    | AbortingTasks
    | Sweeping
    | SweepMarking(job: nat)
    | Returned

  datatype Settled = Settled(job: nat, outcome: Outcome)

  datatype Work = Work(pc: Pc, running: map<nat, Task>, nextTask: nat, active: map<nat, nat>, settled: seq<Settled>)

  /** `expired` tells whether the shutdown deadline has passed; `lost` collects jobs dropped without an outcome. */
  datatype State = State(gate: Gate, channel: Channel, work: Work, expired: bool, lost: seq<nat>)

  function Start(): State {
    State(Gate(true, true, true, false), Channel(map[], {}, [], 0, {}, false), Work(Selecting, map[], 0, map[], []),
        false, [])
  }

  datatype DispatchMove =
    | SeeDrain | Join(task: nat) | Receive | ReceiveNothing | TakeLease | SpawnTask | Track
    | HandleJoined | Marked | MarkTimesOut | Close | DrainNothing | NoneRunning | WaitTimesOut
    | Sweep(task: nat) | SweepDone

  function Resume(loop: Loop): Pc {
    match loop case Main => Selecting case Waiting => AwaitingTasks case Aborting => AbortingTasks
  }

  function Settle(w: Work, job: nat, o: Outcome, pc: Pc): Work {
    w.(settled := w.settled + [Settled(job, o)], pc := pc)
  }

  function JoinIn(w: Work, loop: Loop, t: nat): Option<Work> {
    if t !in w.running || w.running[t].Live? then None
    else Some(w.(running := w.running - {t}, pc := Joined(loop, t, w.running[t].ending)))
  }

  /** A joined task is untracked; its job is settled at once, or after its record is marked. */
  function Handle(w: Work, loop: Loop, t: nat, e: Ending): Work {
    if t !in w.active then w.(pc := Resume(loop))
    else
      var job := w.active[t];
      var w1 := w.(active := w.active - {t});
      match e
      case Finished(ok) => if ok then Settle(w1, job, Ran, Resume(loop)) else w1.(pc := Marking(loop, job, Failed))
      case Panicked => w1.(pc := Marking(loop, job, Failed))
      case Cancelled => w1.(pc := Marking(loop, job, Interrupted))
  }

  /** Moves inside the dispatcher that touch only the tasks. */
  function WorkStep(w: Work, expired: bool, m: DispatchMove): Option<Work> {
    match w.pc
    case Selecting => if m.Join? then JoinIn(w, Main, m.task) else None
    case Dequeued(job) =>
      if m.SpawnTask?
      then
        Some(w.(pc := Spawned(w.nextTask, job), running := w.running[w.nextTask := Live], nextTask := w.nextTask + 1))
      else None
    case Spawned(t, job) => if m.Track? then Some(w.(pc := Selecting, active := w.active[t := job])) else None
    case Joined(loop, t, e) => if m.HandleJoined? then Some(Handle(w, loop, t, e)) else None
    case Marking(loop, job, o) => if m.Marked? then Some(Settle(w, job, o, Resume(loop))) else None
    case DrainMarking(job) => if m.Marked? then Some(Settle(w, job, Interrupted, Draining)) else None
    case AwaitingTasks =>
      if m.Join? then JoinIn(w, Waiting, m.task)
      else if m.NoneRunning? && w.running == map[] then Some(w.(pc := Sweeping))
      else if m.WaitTimesOut? && expired && w.running != map[] then Some(w.(pc := AbortingTasks))
      else None
    case AbortingTasks =>
      if m.Join? then JoinIn(w, Aborting, m.task)
      else if (m.NoneRunning? && w.running == map[]) || (m.WaitTimesOut? && expired) then Some(w.(pc := Sweeping))
      else None
    case Sweeping =>
      if m.Sweep? && m.task in w.active
          then Some(w.(pc := SweepMarking(w.active[m.task]), active := w.active - {m.task}))
      else None
    case SweepMarking(job) => if m.Marked? then Some(Settle(w, job, Interrupted, Sweeping)) else None
    case _ => None
  }

  /** Moves that receive, release a lease, or close the channel. */
  function ChannelStep(c: Config, g: Gate, ch: Channel, w: Work, m: DispatchMove): Option<(Channel, Pc)> {
    match w.pc
    case Selecting =>
      if m.SeeDrain? && g.drain then Some((ch, Closing))
      else if |w.running| >= c.maxConcurrent then None
      else if m.Receive? && ch.queue != [] then Some((ch.(queue := ch.queue[1..]), Received(ch.queue[0])))
      else if m.ReceiveNothing? && ch.queue == [] && !g.queueOpen && ch.submissions == map[] then Some((ch, Closing))
      else None
    case Received(job) => if m.TakeLease? then Some((ch.(depth := ch.depth - 1), Dequeued(job))) else None
    case Closing => if m.Close? then Some((ch.(receiverClosed := true), Draining)) else None
    case Draining =>
      if m.Receive? && ch.queue != [] then Some((ch.(queue := ch.queue[1..]), DrainGot(ch.queue[0])))
      else if m.DrainNothing? && ch.queue == [] && Holders(ch.submissions, Slot) == {} then Some((ch, AwaitingTasks))
      else None
    case DrainGot(job) => if m.TakeLease? then Some((ch.(depth := ch.depth - 1), DrainMarking(job))) else None
    case _ => None
  }

  /** Where giving up on a mark leads, once the deadline has passed. */
  function AfterTimeout(w: Work): Option<Pc> {
    match w.pc
    case Marking(loop, _, _) =>
      if loop.Main? then None else if loop.Waiting? && w.running != map[] then Some(AbortingTasks) else Some(Sweeping)
    case DrainMarking(_) => Some(AwaitingTasks)
    case SweepMarking(_) => Some(Returned)
    case _ => None
  }

  /** A receiver that is gone drops what is queued, leases included. */
  function DropQueue(s: State): State {
    s.(channel := s.channel.(queue := [], depth := s.channel.depth - |s.channel.queue|),
       lost := s.lost + s.channel.queue)
  }

  function EnterPc(s: State, pc: Pc): State {
    if pc.Returned? then DropQueue(s.(work := s.work.(pc := pc, running := map[])))
    else s.(work := s.work.(pc := pc))
  }

  // ---- One move of the whole system ----

  datatype Action =
    | Submit(id: nat, submit: SubmitMove)
    | Shutdown(shutdown: ShutdownMove)
    | Expire
    | TaskEnds(task: nat, ending: Ending)
    | OnTasks(dispatch: DispatchMove)
    | OnChannel(dispatch: DispatchMove)
    | GiveUpMark
    | FinishSweep

  /** The job the dispatcher has in hand. */
  function InHand(pc: Pc): Option<nat> {
    match pc
    case Received(job) => Some(job)
    case Dequeued(job) => Some(job)
    case Spawned(_, job) => Some(job)
    case Marking(_, job, _) => Some(job)
    case DrainGot(job) => Some(job)
    case DrainMarking(job) => Some(job)
    case SweepMarking(job) => Some(job)
    case _ => None
  }

  function Step(c: Config, s: State, a: Action): Option<State> {
    match a
    case Submit(id, m) =>
      (match SubmitOn(c, s.gate, s.channel, id, m)
       case None => None
       case Some(ch) => Some(if s.work.pc.Returned? then DropQueue(s.(channel := ch)) else s.(channel := ch)))
    case Shutdown(m) => (match ShutdownOn(s.gate, m) case None => None case Some(g) => Some(s.(gate := g)))
    case Expire => if s.channel.receiverClosed then Some(s.(expired := true)) else None
    case TaskEnds(t, e) =>
      if t !in s.work.running || !s.work.running[t].Live? || (e.Cancelled? && !s.expired) then None
      else Some(s.(work := s.work.(running := s.work.running[t := Ended(e)])))
    case OnTasks(m) => (match WorkStep(s.work, s.expired, m) case None => None case Some(w) => Some(s.(work := w)))
    case OnChannel(m) =>
      (match ChannelStep(c, s.gate, s.channel, s.work, m)
       case None => None
       case Some((ch, pc)) => Some(s.(channel := ch, work := s.work.(pc := pc))))
    case GiveUpMark =>
      (match (AfterTimeout(s.work), InHand(s.work.pc))
       case (Some(pc), Some(job)) => if s.expired then Some(EnterPc(s.(lost := s.lost + [job]), pc)) else None
       case _ => None)
    case FinishSweep => if s.work.pc.Sweeping? && s.work.active == map[] then Some(EnterPc(s, Returned)) else None
  }

  function Run(c: Config, s: State, actions: seq<Action>): Option<State>
    decreases |actions|
  {
    if actions == [] then Some(s)
    else match Step(c, s, actions[0]) case None => None case Some(s1) => Run(c, s1, actions[1..])
  }
}
