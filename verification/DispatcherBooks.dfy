/** What every reachable state of the ingest queue keeps: depth, capacity, concurrency, and each job's whereabouts. */
module DispatcherBooks {
  import opened Basics
  import opened Text
  import opened Dispatcher

  predicate LeaseInHand(pc: Pc) { pc.Received? || pc.DrainGot? }

  /** The depth counts the live leases, and slots stay within the channel's capacity. */
  predicate QueueBooks(c: Config, ch: Channel, pc: Pc) {
    && ch.depth == |Holders(ch.submissions, Lease)| + |ch.queue| + (if LeaseInHand(pc) then 1 else 0)
    && |Holders(ch.submissions, Slot)| + |ch.queue| <= c.capacity
  }

  /** Running stays within the limit, and the tracked tasks are exactly the unjoined ones. */
  predicate TaskBooks(c: Config, w: Work, expired: bool) {
    && |w.running| <= c.maxConcurrent
    && (w.pc.Received? || w.pc.Dequeued? ==> |w.running| < c.maxConcurrent)
    && (forall t :: t in w.running ==> t < w.nextTask) && (forall t :: t in w.active ==> t < w.nextTask)
    && (match w.pc
        case Spawned(t, _) => t in w.running && w.active.Keys == w.running.Keys - {t}
        case Joined(_, t, _) => t !in w.running && w.active.Keys == w.running.Keys + {t}
        case Sweeping => expired || (w.running == map[] && w.active == map[])
        case SweepMarking(_) => expired
        case Returned => w.running == map[] && (expired || w.active == map[])
        case _ => w.active.Keys == w.running.Keys)
  }

  predicate Drains(pc: Pc) { pc.Draining? || pc.DrainGot? || pc.DrainMarking? }

  predicate Late(pc: Pc) {
    match pc
    case Joined(loop, _, _) => !loop.Main?
    case Marking(loop, _, _) => !loop.Main?
    case AwaitingTasks => true
    case AbortingTasks => true
    case Sweeping => true
    case SweepMarking(_) => true
    case Returned => true
    case _ => false
  }

  /** The receiver closes once; past the drain, before the deadline, nothing is left to receive. */
  predicate DrainBooks(ch: Channel, pc: Pc, expired: bool, lost: seq<nat>) {
    && (ch.receiverClosed <==> Late(pc) || Drains(pc))
    && (expired ==> ch.receiverClosed)
    && (Late(pc) && !expired ==> ch.queue == [] && Holders(ch.submissions, Slot) == {})
    && (pc.Returned? ==> ch.queue == [])
    && (lost != [] ==> expired)
  }

  function JobsOf(settled: seq<Settled>): seq<nat> {
    seq(|settled|, i requires 0 <= i < |settled| => settled[i].job)
  }

  function TasksOf(active: map<nat, nat>, job: nat): set<nat> { set t | t in active && active[t] == job }

  /** How many places a job is in: the queue, the losses, the dispatcher's hand, a tracked task, the outcomes. */
  function Places(queue: seq<nat>, lost: seq<nat>, w: Work, job: nat): nat {
    multiset(queue)[job] + multiset(lost)[job] + InWork(w, job)
  }

  function InWork(w: Work, job: nat): nat {
    (if InHand(w.pc) == Some(job) then 1 else 0) + |TasksOf(w.active, job)| + multiset(JobsOf(w.settled))[job]
  }

  /** Each sent job is in exactly one place, and no unsent one is anywhere. */
  ghost predicate JobBooks(ch: Channel, lost: seq<nat>, w: Work) {
    forall job :: Places(ch.queue, lost, w, job) == if job in ch.sent then 1 else 0
  }

  predicate IdBooks(ch: Channel) {
    ch.sent <= ch.seen && ch.submissions.Keys <= ch.seen && ch.submissions.Keys !! ch.sent
  }

  ghost predicate Books(c: Config, s: State) {
    && QueueBooks(c, s.channel, s.work.pc)
    && TaskBooks(c, s.work, s.expired)
    && DrainBooks(s.channel, s.work.pc, s.expired, s.lost)
    && JobBooks(s.channel, s.lost, s.work)
    && IdBooks(s.channel)
  }

  // ---- Submitters ----

  lemma SizeAfterRemove(subs: map<nat, Submission>, id: nat, k: Token)
    ensures |Holders(subs, k)| == |Holders(subs - {id}, k)| + if id in subs && Holds(subs[id], k) then 1 else 0
  {
    assert Holders(subs - {id}, k) == Holders(subs, k) - {id};
    SizeSplits(Holders(subs, k), id);
  }

  lemma SizeAfterPut(subs: map<nat, Submission>, id: nat, p: Submission, k: Token)
    ensures |Holders(subs[id := p], k)| ==
            |Holders(subs, k)| - (if id in subs && Holds(subs[id], k) then 1 else 0) + (if Holds(p, k) then 1 else 0)
  {
    HoldersAfterPut(subs, id, p, k);
    hide Holders, Holds;
    SizeSplits(Holders(subs, k), id);
    SizeSplits(Holders(subs[id := p], k), id);
  }

  lemma HoldersAfterPut(subs: map<nat, Submission>, id: nat, p: Submission, k: Token)
    ensures Holders(subs[id := p], k) - {id} == Holders(subs, k) - {id}
    ensures id in Holders(subs[id := p], k) <==> Holds(p, k)
    ensures id in Holders(subs, k) <==> id in subs && Holds(subs[id], k)
  {
    hide Holds;
  }

  /** A submission's move keeps depth and capacity, and adds at most its own job to the queue. */
  lemma SubmitKeepsQueue(c: Config, g: Gate, ch: Channel, id: nat, m: SubmitMove, pc: Pc)
    requires QueueBooks(c, ch, pc) && IdBooks(ch) && SubmitOn(c, g, ch, id, m).Some?
    ensures QueueBooks(c, SubmitOn(c, g, ch, id, m).value, pc)
  {
    hide Holders, IdBooks;
    var p := match m
      case Begin => Checked
      case Reserve => Reserved
      case Recheck => Approved
      case AcquireLease => Leased
      case _ => Admitting;
    SizeAfterPut(ch.submissions, id, p, Slot);
    SizeAfterPut(ch.submissions, id, p, Lease);
    SizeAfterRemove(ch.submissions, id, Slot);
    SizeAfterRemove(ch.submissions, id, Lease);
    assert m.Begin? && id !in ch.seen ==> id !in ch.submissions by { IdsAreSeen(ch, id); }
  }

  lemma IdsAreSeen(ch: Channel, id: nat)
    requires IdBooks(ch)
    ensures id in ch.submissions ==> id in ch.seen
  {}

  lemma SubmitKeepsIds(c: Config, g: Gate, ch: Channel, id: nat, m: SubmitMove)
    requires IdBooks(ch) && SubmitOn(c, g, ch, id, m).Some?
    ensures var ch' := SubmitOn(c, g, ch, id, m).value;
            && IdBooks(ch') && ch'.receiverClosed == ch.receiverClosed
            && (if m.Send? then id !in ch.sent && ch'.sent == ch.sent + {id} && ch'.queue == ch.queue + [id]
                && HasPermitOf(ch, id)
                else ch'.sent == ch.sent && ch'.queue == ch.queue)
  {
    hide Holders;
  }

  predicate HasPermitOf(ch: Channel, id: nat) { id in ch.submissions && Holds(ch.submissions[id], Slot) }

  /** With the receiver closed no new slot is reserved. */
  lemma SubmitAddsNoPermit(c: Config, g: Gate, ch: Channel, id: nat, m: SubmitMove)
    requires SubmitOn(c, g, ch, id, m).Some? && ch.receiverClosed && Holders(ch.submissions, Slot) == {}
    ensures Holders(SubmitOn(c, g, ch, id, m).value.submissions, Slot) == {} && !m.Send?
  {
    var ch' := SubmitOn(c, g, ch, id, m).value;
    if id in ch.submissions { assert Holds(ch.submissions[id], Slot) ==> id in Holders(ch.submissions, Slot); }
    assert forall i :: i in ch'.submissions && i != id ==>
                     i in ch.submissions && ch'.submissions[i] == ch.submissions[i];
    assert forall i :: i in Holders(ch'.submissions, Slot) && i != id ==> i in Holders(ch.submissions, Slot);
  }

  // ---- Places ----

  lemma PlacesAfterSend(ch: Channel, lost: seq<nat>, w: Work, id: nat)
    requires JobBooks(ch, lost, w) && id !in ch.sent
    ensures JobBooks(ch.(queue := ch.queue + [id], sent := ch.sent + {id}), lost, w)
  {
    hide InWork;
    var ch' := ch.(queue := ch.queue + [id], sent := ch.sent + {id});
    forall job ensures Places(ch'.queue, lost, w, job) == if job in ch'.sent then 1 else 0 {
      assert Places(ch.queue, lost, w, job) == if job in ch.sent then 1 else 0;
    }
  }

  /** Dropping the queue turns queued jobs into lost ones. */
  lemma PlacesAfterDrop(ch: Channel, lost: seq<nat>, w: Work, w': Work)
    requires JobBooks(ch, lost, w) && forall job :: InWork(w', job) == InWork(w, job)
    ensures JobBooks(ch.(queue := [], depth := ch.depth - |ch.queue|), lost + ch.queue, w')
  {
    hide InWork;
    forall job ensures Places([], lost + ch.queue, w', job) == if job in ch.sent then 1 else 0 {
      assert Places(ch.queue, lost, w, job) == if job in ch.sent then 1 else 0;
    }
  }

  /** Moves inside the dispatcher neither create nor drop a job. */
  lemma WorkKeepsJobs(w: Work, expired: bool, m: DispatchMove, job: nat)
    requires WorkStep(w, expired, m).Some?
    requires forall t :: t in w.active ==> t < w.nextTask
    requires w.pc.Spawned? ==> w.pc.task !in w.active
    ensures InWork(WorkStep(w, expired, m).value, job) == InWork(w, job)
  {
    hide TasksOf, JobsOf;
    var w' := WorkStep(w, expired, m).value;
    if w.pc.Spawned? {
      TasksAfterPut(w.active, w.pc.task, w.pc.job, job);
    } else if w.pc.Joined? && w.pc.task in w.active {
      TasksAfterRemove(w.active, w.pc.task, job);
    } else if w.pc.Sweeping? {
      TasksAfterRemove(w.active, m.task, job);
    }
    if |w'.settled| > |w.settled| { CountAfterSettle(w.settled, w'.settled[|w.settled|], job); }
  }

  lemma TasksAfterRemove(active: map<nat, nat>, t: nat, job: nat)
    requires t in active
    ensures |TasksOf(active, job)| == |TasksOf(active - {t}, job)| + if active[t] == job then 1 else 0
  {
    assert TasksOf(active - {t}, job) == TasksOf(active, job) - {t};
  }

  lemma TasksAfterPut(active: map<nat, nat>, t: nat, j: nat, job: nat)
    requires t !in active
    ensures |TasksOf(active[t := j], job)| == |TasksOf(active, job)| + if j == job then 1 else 0
  {
    assert active[t := j] - {t} == active;
    TasksAfterRemove(active[t := j], t, job);
  }

  lemma CountAfterSettle(settled: seq<Settled>, one: Settled, job: nat)
    ensures multiset(JobsOf(settled + [one]))[job] == multiset(JobsOf(settled))[job] + if one.job == job then 1 else 0
  {
    assert JobsOf(settled + [one]) == JobsOf(settled) + [one.job];
  }

  // ---- The dispatcher's own moves ----

  lemma JoinKeepsTasks(c: Config, w: Work, expired: bool, loop: Loop, t: nat)
    requires TaskBooks(c, w, expired) && (w.pc.Selecting? || w.pc.AwaitingTasks? || w.pc.AbortingTasks?)
    requires JoinIn(w, loop, t).Some?
    ensures TaskBooks(c, JoinIn(w, loop, t).value, expired)
  {
    JoinShrinks(w.running, t);
  }

  lemma HandleKeepsTasks(c: Config, w: Work, expired: bool)
    requires TaskBooks(c, w, expired) && w.pc.Joined?
    ensures TaskBooks(c, Handle(w, w.pc.loop, w.pc.task, w.pc.ending), expired)
  {
    Untrack(w.running, w.active, w.pc.task);
    hide QueueBooks, Holders;
  }

  lemma Untrack(running: map<nat, Task>, active: map<nat, nat>, t: nat)
    requires t !in running && active.Keys == running.Keys + {t}
    ensures t in active && (active - {t}).Keys == running.Keys
  {}

  lemma SpawnKeepsTasks(c: Config, w: Work, expired: bool, m: DispatchMove)
    requires TaskBooks(c, w, expired) && (w.pc.Dequeued? || w.pc.Spawned?) && WorkStep(w, expired, m).Some?
    ensures TaskBooks(c, WorkStep(w, expired, m).value, expired)
  {
    if w.pc.Dequeued? { TrackedGrows(w.running, w.nextTask); }
  }

  lemma RestKeepsTasks(c: Config, w: Work, expired: bool, m: DispatchMove)
    requires TaskBooks(c, w, expired) && WorkStep(w, expired, m).Some?
    requires !m.Join? && !w.pc.Joined? && !w.pc.Dequeued? && !w.pc.Spawned?
    ensures TaskBooks(c, WorkStep(w, expired, m).value, expired)
  {}

  lemma WorkKeepsTasks(c: Config, w: Work, expired: bool, m: DispatchMove)
    requires TaskBooks(c, w, expired) && WorkStep(w, expired, m).Some?
    ensures TaskBooks(c, WorkStep(w, expired, m).value, expired)
  {
    if w.pc.Joined? {
      HandleKeepsTasks(c, w, expired);
    } else if w.pc.Dequeued? || w.pc.Spawned? {
      SpawnKeepsTasks(c, w, expired, m);
    } else if m.Join? && (w.pc.Selecting? || w.pc.AwaitingTasks? || w.pc.AbortingTasks?) {
      var loop := if w.pc.Selecting? then Main else if w.pc.AwaitingTasks? then Waiting else Aborting;
      assert WorkStep(w, expired, m) == JoinIn(w, loop, m.task);
      JoinKeepsTasks(c, w, expired, loop, m.task);
    } else {
      RestKeepsTasks(c, w, expired, m);
    }
  }

  lemma JoinShrinks(running: map<nat, Task>, t: nat)
    requires t in running
    ensures |running - {t}| < |running| && (running - {t}).Keys == running.Keys - {t}
        && running.Keys == (running - {t}).Keys + {t}
  {
    assert |(running - {t}).Keys| < |running.Keys|;
  }

  lemma TrackedGrows(running: map<nat, Task>, t: nat)
    requires t !in running
    ensures |running[t := Live]| == |running| + 1 && running[t := Live].Keys - {t} == running.Keys
  {
    assert |running[t := Live].Keys| == |running.Keys| + 1 by { assert running[t := Live].Keys == running.Keys + {t}; }
  }

  lemma WorkKeepsPhase(ch: Channel, w: Work, expired: bool, m: DispatchMove, lost: seq<nat>)
    requires DrainBooks(ch, w.pc, expired, lost) && WorkStep(w, expired, m).Some?
    ensures DrainBooks(ch, WorkStep(w, expired, m).value.pc, expired, lost)
    ensures !LeaseInHand(w.pc) && !LeaseInHand(WorkStep(w, expired, m).value.pc)
  {}

  lemma ChannelMoveKeepsBooks(c: Config, s: State, m: DispatchMove)
    requires Books(c, s) && ChannelStep(c, s.gate, s.channel, s.work, m).Some?
    ensures var (ch, pc) := ChannelStep(c, s.gate, s.channel, s.work, m).value;
            && QueueBooks(c, ch, pc) && DrainBooks(ch, pc, s.expired, s.lost) && IdBooks(ch)
            && TaskBooks(c, s.work.(pc := pc), s.expired)
            && ch.sent == s.channel.sent
  {
    hide Holders, JobBooks;
  }

  lemma ChannelMoveKeepsJobs(c: Config, s: State, m: DispatchMove, job: nat)
    requires ChannelStep(c, s.gate, s.channel, s.work, m).Some?
    ensures var (ch, pc) := ChannelStep(c, s.gate, s.channel, s.work, m).value;
            Places(ch.queue, s.lost, s.work.(pc := pc), job) == Places(s.channel.queue, s.lost, s.work, job)
  {
    hide TasksOf, JobsOf, Holders;
    var ch := s.channel;
    if ch.queue != [] { assert ch.queue == [ch.queue[0]] + ch.queue[1..]; }
  }

  // ---- Giving up, and returning ----

  lemma EnterKeepsBooks(c: Config, s: State, pc: Pc)
    requires QueueBooks(c, s.channel, s.work.pc) && IdBooks(s.channel) && !LeaseInHand(s.work.pc) && !LeaseInHand(pc)
    requires DrainBooks(s.channel, s.work.pc, s.expired, s.lost) && Late(pc) && (s.expired || Late(s.work.pc))
        && s.channel.receiverClosed
    requires pc.Returned? ==> s.expired || s.work.active == map[]
    requires pc in {AwaitingTasks, AbortingTasks} ==> s.work.active.Keys == s.work.running.Keys
    requires pc.Sweeping? ==> s.expired
    requires pc in {AwaitingTasks, AbortingTasks, Sweeping, Returned}
    requires |s.work.running| <= c.maxConcurrent
    requires (forall t :: t in s.work.running ==> t < s.work.nextTask)
        && (forall t :: t in s.work.active ==> t < s.work.nextTask)
    ensures var s' := EnterPc(s, pc);
            && QueueBooks(c, s'.channel, s'.work.pc) && IdBooks(s'.channel)
            && DrainBooks(s'.channel, s'.work.pc, s'.expired, s'.lost)
            && TaskBooks(c, s'.work, s'.expired)
            && s'.channel.sent == s.channel.sent
  {
    hide Holders;
  }

  /** Moving on with nothing in hand: only the queue can be dropped. */
  lemma EnterKeepsJobs(s: State, job: nat, lost: seq<nat>, pc: Pc)
    requires InHand(s.work.pc).Some? ==> s.lost == lost + [InHand(s.work.pc).value]
    requires InHand(s.work.pc).None? ==> s.lost == lost
    requires InHand(pc).None?
    ensures var s' := EnterPc(s, pc);
            Places(s'.channel.queue, s'.lost, s'.work, job) == Places(s.channel.queue, lost, s.work, job)
  {
    hide TasksOf, JobsOf;
  }

  lemma GiveUpKeepsBooks(c: Config, s: State)
    requires Books(c, s) && Step(c, s, GiveUpMark).Some?
    ensures Books(c, Step(c, s, GiveUpMark).value)
  {
    hide Holders, QueueBooks, IdBooks, Places;
    var pc, job := AfterTimeout(s.work).value, InHand(s.work.pc).value;
    var s1 := s.(lost := s.lost + [job]);
    var s' := EnterPc(s1, pc);
    EnterKeepsBooks(c, s1, pc);
    forall j ensures Places(s'.channel.queue, s'.lost, s'.work, j) == if j in s'.channel.sent then 1 else 0 {
      EnterKeepsJobs(s1, j, s.lost, pc);
      assert Places(s.channel.queue, s.lost, s.work, j) == if j in s.channel.sent then 1 else 0;
    }
  }

  lemma FinishKeepsBooks(c: Config, s: State)
    requires Books(c, s) && Step(c, s, FinishSweep).Some?
    ensures Books(c, Step(c, s, FinishSweep).value)
  {
    hide Holders, QueueBooks, IdBooks, Places;
    var s' := EnterPc(s, Returned);
    EnterKeepsBooks(c, s, Returned);
    forall j ensures Places(s'.channel.queue, s'.lost, s'.work, j) == if j in s'.channel.sent then 1 else 0 {
      EnterKeepsJobs(s, j, s.lost, Returned);
      assert Places(s.channel.queue, s.lost, s.work, j) == if j in s.channel.sent then 1 else 0;
    }
  }

  // ---- Every move ----

  lemma TaskEndKeepsBooks(c: Config, s: State, t: nat, e: Ending)
    requires Books(c, s) && Step(c, s, TaskEnds(t, e)).Some?
    ensures Books(c, Step(c, s, TaskEnds(t, e)).value)
  {
    hide Holders, QueueBooks, IdBooks, DrainBooks;
    var w, w' := s.work, Step(c, s, TaskEnds(t, e)).value.work;
    assert w'.running.Keys == w.running.Keys;
    assert |w'.running.Keys| == |w'.running| && |w.running.Keys| == |w.running|;
    forall j ensures Places(s.channel.queue, s.lost, w', j) == if j in s.channel.sent then 1 else 0 {
      assert Places(s.channel.queue, s.lost, w, j) == if j in s.channel.sent then 1 else 0;
    }
  }

  lemma OnTasksKeepsBooks(c: Config, s: State, m: DispatchMove)
    requires Books(c, s) && Step(c, s, OnTasks(m)).Some?
    ensures Books(c, Step(c, s, OnTasks(m)).value)
  {
    hide WorkStep, Holders, IdBooks, InWork;
    WorkKeepsTasks(c, s.work, s.expired, m);
    WorkKeepsPhase(s.channel, s.work, s.expired, m, s.lost);
    var w' := WorkStep(s.work, s.expired, m).value;
    forall j ensures Places(s.channel.queue, s.lost, w', j) == if j in s.channel.sent then 1 else 0 {
      WorkKeepsJobs(s.work, s.expired, m, j);
      assert Places(s.channel.queue, s.lost, s.work, j) == if j in s.channel.sent then 1 else 0;
    }
  }

  lemma OnChannelKeepsBooks(c: Config, s: State, m: DispatchMove)
    requires Books(c, s) && Step(c, s, OnChannel(m)).Some?
    ensures Books(c, Step(c, s, OnChannel(m)).value)
  {
    hide ChannelStep, QueueBooks, TaskBooks, DrainBooks, IdBooks, Places;
    ChannelMoveKeepsBooks(c, s, m);
    var (ch, pc) := ChannelStep(c, s.gate, s.channel, s.work, m).value;
    forall j ensures Places(ch.queue, s.lost, s.work.(pc := pc), j) == if j in ch.sent then 1 else 0 {
      ChannelMoveKeepsJobs(c, s, m, j);
      assert Places(s.channel.queue, s.lost, s.work, j) == if j in s.channel.sent then 1 else 0;
    }
  }

  /** The channel after a submission's move, before a returned dispatcher drops anything. */
  lemma SubmittedBooks(c: Config, s: State, id: nat, m: SubmitMove)
    requires Books(c, s) && SubmitOn(c, s.gate, s.channel, id, m).Some?
    ensures var ch := SubmitOn(c, s.gate, s.channel, id, m).value;
            && QueueBooks(c, ch, s.work.pc) && IdBooks(ch) && JobBooks(ch, s.lost, s.work)
            && ch.receiverClosed == s.channel.receiverClosed
            && (Late(s.work.pc) && !s.expired ==> ch.queue == [] && Holders(ch.submissions, Slot) == {})
  {
    hide SubmitOn, Holders, TaskBooks, InWork, Late, Drains;
    SubmitKeepsQueue(c, s.gate, s.channel, id, m, s.work.pc);
    SubmitKeepsIds(c, s.gate, s.channel, id, m);
    if s.channel.receiverClosed && Holders(s.channel.submissions, Slot) == {} {
      SubmitAddsNoPermit(c, s.gate, s.channel, id, m);
    }
    if m.Send? { PlacesAfterSend(s.channel, s.lost, s.work, id); }
    SameJobs(s.channel, SubmitOn(c, s.gate, s.channel, id, m).value, s.lost, s.work, id, m.Send?);
  }

  lemma SubmitKeepsBooks(c: Config, s: State, id: nat, m: SubmitMove)
    requires Books(c, s) && Step(c, s, Submit(id, m)).Some?
    ensures Books(c, Step(c, s, Submit(id, m)).value)
  {
    hide SubmitOn, Holders, TaskBooks, JobBooks, IdBooks;
    var ch := SubmitOn(c, s.gate, s.channel, id, m).value;
    SubmittedBooks(c, s, id, m);
    if s.work.pc.Returned? {
      PlacesAfterDrop(ch, s.lost, s.work, s.work);
      DroppedIds(ch);
    }
  }

  lemma DroppedIds(ch: Channel)
    requires IdBooks(ch)
    ensures IdBooks(ch.(queue := [], depth := ch.depth - |ch.queue|))
  {}

  lemma SameJobs(ch: Channel, ch': Channel, lost: seq<nat>, w: Work, id: nat, sends: bool)
    requires JobBooks(ch, lost, w)
    requires if sends then JobBooks(ch.(queue := ch.queue + [id], sent := ch.sent + {id}), lost, w)
                          && ch'.queue == ch.queue + [id] && ch'.sent == ch.sent + {id}
             else ch'.queue == ch.queue && ch'.sent == ch.sent
    ensures JobBooks(ch', lost, w)
  {
    hide Places;
    var like := if sends then ch.(queue := ch.queue + [id], sent := ch.sent + {id}) else ch;
    forall job ensures Places(ch'.queue, lost, w, job) == if job in ch'.sent then 1 else 0 {
      assert Places(like.queue, lost, w, job) == if job in like.sent then 1 else 0;
    }
  }

  lemma StepKeepsBooks(c: Config, s: State, a: Action)
    requires Books(c, s) && Step(c, s, a).Some?
    ensures Books(c, Step(c, s, a).value)
  {
    match a {
      case Submit(id, m) => SubmitKeepsBooks(c, s, id, m);
      case TaskEnds(t, e) => TaskEndKeepsBooks(c, s, t, e);
      case OnTasks(m) => OnTasksKeepsBooks(c, s, m);
      case OnChannel(m) => OnChannelKeepsBooks(c, s, m);
      case GiveUpMark => GiveUpKeepsBooks(c, s);
      case FinishSweep => FinishKeepsBooks(c, s);
      case Shutdown(_) => hide Places, Holders;
      case Expire => ExpireKeepsBooks(c, s);
    }
  }

  lemma ExpireKeepsBooks(c: Config, s: State)
    requires Books(c, s) && Step(c, s, Expire).Some?
    ensures Books(c, Step(c, s, Expire).value)
  {
    hide Places, Holders;
  }

  lemma {:induction false} RunKeepsBooks(c: Config, s: State, actions: seq<Action>)
    requires Books(c, s) && Run(c, s, actions).Some?
    ensures Books(c, Run(c, s, actions).value)
    decreases |actions|
  {
    hide Step, Books;
    if actions != [] {
      StepKeepsBooks(c, s, actions[0]);
      RunKeepsBooks(c, Step(c, s, actions[0]).value, actions[1..]);
    }
  }

  lemma StartHasBooks(c: Config)
    ensures Books(c, Start())
  {
    assert Holders(map[], Slot) == {} && Holders(map[], Lease) == {};
    forall job ensures Places([], [], Start().work, job) == 0 {
      assert TasksOf(map[], job) == {} && JobsOf([]) == [];
    }
  }

  /** In every interleaving: depth, capacity, concurrency, tracked tasks and each job's whereabouts are in order. */
  lemma BooksAlwaysBalance(c: Config, actions: seq<Action>)
    requires Run(c, Start(), actions).Some?
    ensures Books(c, Run(c, Start(), actions).value)
  {
    StartHasBooks(c);
    RunKeepsBooks(c, Start(), actions);
  }

  /**
   * A dispatcher that returns before its deadline has settled every job ever sent, exactly once, and
   * nothing is left that could still be sent: no slot, no lease, no queued job.
   */
  lemma EveryJobSettledOnce(c: Config, actions: seq<Action>)
    requires Run(c, Start(), actions).Some?
    requires Run(c, Start(), actions).value.work.pc.Returned? && !Run(c, Start(), actions).value.expired
    ensures var s := Run(c, Start(), actions).value;
            && (forall job :: multiset(JobsOf(s.work.settled))[job] == if job in s.channel.sent then 1 else 0)
            && s.channel.queue == [] && s.channel.depth == 0 && Holders(s.channel.submissions, Slot) == {}
                && s.lost == []
  {
    BooksAlwaysBalance(c, actions);
    hide Run;
    var s := Run(c, Start(), actions).value;
    forall job ensures multiset(JobsOf(s.work.settled))[job] == if job in s.channel.sent then 1 else 0 {
      assert Places(s.channel.queue, s.lost, s.work, job) == if job in s.channel.sent then 1 else 0;
      assert TasksOf(s.work.active, job) == {};
    }
    assert forall id :: id in Holders(s.channel.submissions, Lease) ==> id in Holders(s.channel.submissions, Slot);
    assert Holders(s.channel.submissions, Lease) == {};
  }
}
