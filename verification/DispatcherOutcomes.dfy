/** Which outcome a job gets: before the deadline, exactly what its task came to. */
module DispatcherOutcomes {
  import opened Text
  import opened Dispatcher
  import opened DispatcherBooks

  // ---- What happened to a job, read off a run ----

  /** The jobs whose task was spawned, and how the ended ones ended. */
  datatype History = History(started: set<nat>, fates: map<nat, Ending>)

  const NOTHING_YET := History({}, map[])

  /** The job a running task works on. */
  function JobOf(w: Work, t: nat): Option<nat> {
    if t in w.active then Some(w.active[t])
    else
      match w.pc
      case Spawned(u, job) => if u == t then Some(job) else None
      case _ => None
  }

  function Remember(h: History, s: State, a: Action): History {
    match a
    case TaskEnds(t, e) =>
      if JobOf(s.work, t).Some? then h.(fates := h.fates[JobOf(s.work, t).value := e]) else h
    case OnTasks(m) =>
      if m.SpawnTask? && s.work.pc.Dequeued? then h.(started := h.started + {s.work.pc.job}) else h
    case _ => h
  }

  function HistoryOf(c: Config, s: State, actions: seq<Action>, h: History): History
    decreases |actions|
  {
    if actions == [] || Step(c, s, actions[0]).None? then h
    else HistoryOf(c, Step(c, s, actions[0]).value, actions[1..], Remember(h, s, actions[0]))
  }

  /** What a job with this history is to be told. */
  function Due(h: History, job: nat): Outcome {
    if job !in h.fates then Interrupted
    else
      match h.fates[job]
      case Finished(ok) => if ok then Ran else Failed
      case Panicked => Failed
      case Cancelled => Interrupted
  }

  // ---- The invariant ----

  /** The job is past its spawning. */
  predicate Began(w: Work, job: nat) {
    || (exists t :: t in w.active && w.active[t] == job)
    || (exists i :: 0 <= i < |w.settled| && w.settled[i].job == job)
    || (w.pc.Spawned? && w.pc.job == job) || (w.pc.Marking? && w.pc.job == job)
  }

  /** A running task has a spawned job, whose fate is known exactly when the task has ended. */
  predicate TaskFits(w: Work, h: History, t: nat)
    requires t in w.running
  {
    var job := JobOf(w, t);
    && job.Some? && job.value in h.started
    && match w.running[t]
       case Live => job.value !in h.fates
       case Ended(e) => job.value in h.fates && h.fates[job.value] == e
  }

  predicate PcFits(w: Work, h: History) {
    match w.pc
    case Joined(_, t, e) => t in w.active ==> w.active[t] in h.fates && h.fates[w.active[t]] == e
    case Marking(_, job, o) => job in h.fates && o == Due(h, job)
    case _ => true
  }

  predicate SettledFit(w: Work, h: History) {
    forall i :: 0 <= i < |w.settled| ==> w.settled[i].outcome == Due(h, w.settled[i].job)
  }

  /** Spawned jobs without a fate yet are being run. */
  predicate StartedFit(w: Work, h: History) {
    && h.fates.Keys <= h.started && (forall job :: job in h.started ==> Began(w, job))
    && forall job :: job in h.started && job !in h.fates ==> IsRun(w, job)
  }

  predicate IsRun(w: Work, job: nat) {
    exists t :: t in w.running && JobOf(w, t) == Some(job)
  }

  predicate Fated(w: Work, h: History) {
    && (forall t :: t in w.running ==> TaskFits(w, h, t))
    && PcFits(w, h) && SettledFit(w, h) && StartedFit(w, h)
    && forall job :: job in h.fates ==> !h.fates[job].Cancelled?
  }

  /** A job is in one place only. */
  predicate Single(w: Work, job: nat) {
    && (forall t, u :: t in w.active && u in w.active && w.active[t] == job && w.active[u] == job ==> t == u)
    && (InHand(w.pc) == Some(job) ==> forall t :: t in w.active ==> w.active[t] != job)
    && (Told(w, job) ==> InHand(w.pc) != Some(job) && forall t :: t in w.active ==> w.active[t] != job)
  }

  predicate Told(w: Work, job: nat) {
    exists i :: 0 <= i < |w.settled| && w.settled[i].job == job
  }

  lemma PlacesAreSingle(queue: seq<nat>, lost: seq<nat>, w: Work, job: nat)
    requires Places(queue, lost, w, job) <= 1
    ensures Single(w, job)
  {
    var tasks := TasksOf(w.active, job);
    forall t, u | t in w.active && u in w.active && w.active[t] == job && w.active[u] == job ensures t == u {
      assert {t, u} <= tasks;
      if t != u { SubsetSize({t, u}, tasks); }
    }
    forall t | t in w.active && w.active[t] == job ensures InHand(w.pc) != Some(job) && !Told(w, job) {
      assert {t} <= tasks;
      SubsetSize({t}, tasks);
      ToldCounts(w, job);
    }
    ToldCounts(w, job);
  }

  lemma SubsetSize(a: set<nat>, b: set<nat>)
    requires a <= b
    ensures |a| <= |b|
  {
    assert b == a + (b - a);
  }

  lemma ToldCounts(w: Work, job: nat)
    ensures Told(w, job) ==> multiset(JobsOf(w.settled))[job] >= 1
  {
    if Told(w, job) {
      var i :| 0 <= i < |w.settled| && w.settled[i].job == job;
      assert JobsOf(w.settled)[i] == job;
      assert job in JobsOf(w.settled);
    }
  }

  lemma JobsAreSingle(c: Config, s: State, job: nat)
    requires Books(c, s)
    ensures Single(s.work, job)
  {
    assert Places(s.channel.queue, s.lost, s.work, job) <= 1;
    PlacesAreSingle(s.channel.queue, s.lost, s.work, job);
  }

  /** A job still to be spawned, or drained, has no history. */
  lemma HandIsNew(w: Work, h: History, job: nat)
    requires Fated(w, h) && Single(w, job) && InHand(w.pc) == Some(job) && !w.pc.Spawned? && !w.pc.Marking?
    ensures job !in h.started && job !in h.fates
  {}

  // ---- One move ----

  lemma EndKeepsTasks(w: Work, h: History, t: nat, e: Ending, w': Work, h': History)
    requires Fated(w, h) && t in w.running && w.running[t].Live? && JobOf(w, t).Some? && Single(w, JobOf(w, t).value)
    requires w' == w.(running := w.running[t := Ended(e)]) && h' == h.(fates := h.fates[JobOf(w, t).value := e])
    ensures forall u :: u in w'.running ==> TaskFits(w', h', u)
  {
    hide StartedFit, SettledFit, PcFits, Told;
    var job := JobOf(w, t).value;
    forall u | u in w'.running ensures TaskFits(w', h', u) {
      assert TaskFits(w, h, u) && JobOf(w', u) == JobOf(w, u);
      assert JobOf(w, u) == Some(job) ==> u == t;
    }
  }

  lemma EndKeepsStarted(w: Work, h: History, t: nat, e: Ending, w': Work, h': History)
    requires Fated(w, h) && t in w.running && w.running[t].Live? && JobOf(w, t).Some?
    requires w' == w.(running := w.running[t := Ended(e)]) && h' == h.(fates := h.fates[JobOf(w, t).value := e])
    ensures StartedFit(w', h')
  {
    hide SettledFit, PcFits, Began;
    assert TaskFits(w, h, t);
    forall j | j in h'.started ensures Began(w', j) { BeganStays(w, w', j); }
    forall j | j in h'.started && j !in h'.fates ensures IsRun(w', j) {
      var u :| u in w.running && JobOf(w, u) == Some(j);
      assert JobOf(w', u) == Some(j);
    }
  }

  lemma BeganStays(w: Work, w': Work, job: nat)
    requires w'.active == w.active && w'.settled == w.settled && w'.pc == w.pc
    ensures Began(w, job) ==> Began(w', job)
  {}

  lemma EndKeepsFated(w: Work, h: History, t: nat, e: Ending)
    requires Fated(w, h) && t in w.running && w.running[t].Live? && !e.Cancelled?
    requires JobOf(w, t).Some? && Single(w, JobOf(w, t).value)
    ensures var w' := w.(running := w.running[t := Ended(e)]);
            Fated(w', h.(fates := h.fates[JobOf(w, t).value := e]))
  {
    var w', h' := w.(running := w.running[t := Ended(e)]), h.(fates := h.fates[JobOf(w, t).value := e]);
    EndKeepsTasks(w, h, t, e, w', h');
    EndKeepsStarted(w, h, t, e, w', h');
    EndKeepsTold(w, h, t, e);
    hide StartedFit, SettledFit, TaskFits, PcFits;
    RunningHasJob(w, h, t);
  }

  lemma EndKeepsTold(w: Work, h: History, t: nat, e: Ending)
    requires Fated(w, h) && t in w.running && w.running[t].Live? && JobOf(w, t).Some? && Single(w, JobOf(w, t).value)
    ensures var w' := w.(running := w.running[t := Ended(e)]);
            var h' := h.(fates := h.fates[JobOf(w, t).value := e]);
            SettledFit(w', h') && PcFits(w', h')
  {
    hide StartedFit;
    assert TaskFits(w, h, t);
    var job := JobOf(w, t).value;
    var h' := h.(fates := h.fates[job := e]);
    forall i | 0 <= i < |w.settled| ensures w.settled[i].outcome == Due(h', w.settled[i].job) {
      assert w.settled[i].job == job ==> Told(w, job);
    }
    assert w.pc.Joined? && w.pc.task in w.active ==> w.active[w.pc.task] != job;
  }

  lemma JoinKeepsFated(w: Work, h: History, loop: Loop, t: nat)
    requires Fated(w, h) && JoinIn(w, loop, t).Some? && t in w.active
    requires !w.pc.Spawned? && !w.pc.Marking?
    ensures Fated(JoinIn(w, loop, t).value, h)
  {
    var w' := JoinIn(w, loop, t).value;
    assert TaskFits(w, h, t);
    forall u | u in w'.running ensures TaskFits(w', h, u) { assert TaskFits(w, h, u); }
    forall j | j in h.started && j !in h.fates ensures IsRun(w', j) {
      var u :| u in w.running && JobOf(w, u) == Some(j);
      assert u != t && JobOf(w', u) == Some(j);
    }
    forall j | j in h.started ensures Began(w', j) { assert Began(w, j); }
  }

  lemma HandleKeepsFated(w: Work, h: History, loop: Loop, t: nat, e: Ending)
    requires Fated(w, h) && w.pc == Joined(loop, t, e) && t in w.active && t !in w.running
    ensures Fated(Handle(w, loop, t, e), h)
  {
    hide Began;
    var w', job := Handle(w, loop, t, e), w.active[t];
    forall u | u in w'.running ensures TaskFits(w', h, u) { assert TaskFits(w, h, u); }
    SettleKeeps(w, w', h);
    assert w'.settled != w.settled ==> w'.settled[|w.settled|].job == job;
    forall j | j in h.started && j !in h.fates ensures IsRun(w', j) {
      var u :| u in w.running && JobOf(w, u) == Some(j);
      assert JobOf(w', u) == Some(j);
    }
    forall j | j in h.started ensures Began(w', j) { HandledBegan(w, w', t, j); }
  }

  /** One more outcome, if it is the due one, keeps the outcomes right. */
  lemma SettleKeeps(w: Work, w': Work, h: History)
    requires SettledFit(w, h)
    requires |w'.settled| <= |w.settled| + 1 && w.settled <= w'.settled
    requires w'.settled != w.settled ==> w'.settled[|w.settled|].outcome == Due(h, w'.settled[|w.settled|].job)
    ensures SettledFit(w', h)
  {
    forall i | 0 <= i < |w'.settled| ensures w'.settled[i].outcome == Due(h, w'.settled[i].job) {
      if i < |w.settled| { assert w'.settled[i] == w.settled[i]; }
    }
  }

  lemma HandledBegan(w: Work, w': Work, t: nat, job: nat)
    requires t in w.active && w'.active == w.active - {t} && w.settled <= w'.settled
    requires !w.pc.Spawned? && !w.pc.Marking?
    requires (w'.pc.Marking? && w'.pc.job == w.active[t])
             || (exists i :: 0 <= i < |w'.settled| && w'.settled[i].job == w.active[t])
    ensures Began(w, job) ==> Began(w', job)
  {
    if Told(w, job) {
      var i :| 0 <= i < |w.settled| && w.settled[i].job == job;
      assert w'.settled[i] == w.settled[i];
    } else if Began(w, job) {
      var u :| u in w.active && w.active[u] == job;
      if u != t { assert u in w'.active && w'.active[u] == job; }
    }
  }

  lemma SpawnKeepsFated(w: Work, h: History, job: nat)
    requires Fated(w, h) && w.pc == Dequeued(job) && Single(w, job)
    requires w.nextTask !in w.running && w.nextTask !in w.active
    ensures Fated(WorkStep(w, false, SpawnTask).value, h.(started := h.started + {job}))
  {
    var w', h' := WorkStep(w, false, SpawnTask).value, h.(started := h.started + {job});
    HandIsNew(w, h, job);
    forall u | u in w'.running ensures TaskFits(w', h', u) {
      if u != w.nextTask { assert TaskFits(w, h, u); }
    }
    forall j | j in h'.started && j !in h'.fates ensures IsRun(w', j) {
      if j == job {
        assert JobOf(w', w.nextTask) == Some(job);
      } else {
        var u :| u in w.running && JobOf(w, u) == Some(j);
        assert JobOf(w', u) == Some(j);
      }
    }
    forall j | j in h'.started ensures Began(w', j) { if j != job { assert Began(w, j); } }
  }

  lemma TrackKeepsFated(w: Work, h: History, t: nat, job: nat)
    requires Fated(w, h) && w.pc == Spawned(t, job) && t !in w.active
    ensures Fated(WorkStep(w, false, Track).value, h)
  {
    hide Began;
    var w' := WorkStep(w, false, Track).value;
    forall u | u in w'.running ensures TaskFits(w', h, u) {
      assert TaskFits(w, h, u) && JobOf(w', u) == JobOf(w, u);
    }
    forall j | j in h.started && j !in h.fates ensures IsRun(w', j) {
      var u :| u in w.running && JobOf(w, u) == Some(j);
      assert JobOf(w', u) == Some(j);
    }
    forall j | j in h.started ensures Began(w', j) { TrackedBegan(w, t, job, j); }
  }

  lemma TrackedBegan(w: Work, t: nat, job: nat, j: nat)
    requires w.pc == Spawned(t, job) && t !in w.active
    ensures Began(w, j) ==> Began(w.(pc := Selecting, active := w.active[t := job]), j)
  {
    var active := w.active[t := job];
    assert active[t] == job;
    assert forall u :: u in w.active ==> u in active && active[u] == w.active[u];
  }

  lemma MarkKeepsFated(w: Work, h: History, job: nat, o: Outcome, pc: Pc)
    requires Fated(w, h) && InHand(w.pc) == Some(job) && !w.pc.Spawned? && o == Due(h, job)
    requires !pc.Spawned? && !pc.Joined? && !pc.Marking?
    ensures Fated(Settle(w, job, o, pc), h)
  {
    var w' := Settle(w, job, o, pc);
    SettleKeeps(w, w', h);
    forall u | u in w'.running ensures TaskFits(w', h, u) { assert TaskFits(w, h, u); }
    forall j | j in h.started && j !in h.fates ensures IsRun(w', j) {
      var u :| u in w.running && JobOf(w, u) == Some(j);
      assert JobOf(w', u) == Some(j);
    }
    forall j | j in h.started ensures Began(w', j) {
      assert Began(w, j);
      assert w'.settled[|w.settled|].job == job;
      assert forall i :: 0 <= i < |w.settled| ==> w'.settled[i] == w.settled[i];
    }
  }

  /** The dispatcher moves on without touching a task. */
  lemma PcKeepsFated(w: Work, h: History, pc: Pc)
    requires Fated(w, h) && !w.pc.Spawned? && !w.pc.Joined? && !w.pc.Marking?
    requires !pc.Spawned? && !pc.Joined? && !pc.Marking?
    ensures Fated(w.(pc := pc), h)
  {
    var w' := w.(pc := pc);
    forall u | u in w'.running ensures TaskFits(w', h, u) { assert TaskFits(w, h, u); }
    forall j | j in h.started && j !in h.fates ensures IsRun(w', j) {
      var u :| u in w.running && JobOf(w, u) == Some(j);
      assert JobOf(w', u) == Some(j);
    }
    forall j | j in h.started ensures Began(w', j) { assert Began(w, j); }
  }

  lemma WorkKeepsFated(c: Config, w: Work, h: History, m: DispatchMove)
    requires Fated(w, h) && TaskBooks(c, w, false) && WorkStep(w, false, m).Some?
    requires InHand(w.pc).Some? ==> Single(w, InHand(w.pc).value)
    ensures Fated(WorkStep(w, false, m).value,
                  if m.SpawnTask? && w.pc.Dequeued? then h.(started := h.started + {w.pc.job}) else h)
  {
    hide Fated, Single, Handle;
    match w.pc
    case Selecting => JoinKeepsFated(w, h, Main, m.task);
    case Dequeued(job) => SpawnKeepsFated(w, h, job);
    case Spawned(t, job) => TrackKeepsFated(w, h, t, job);
    case Joined(loop, t, e) => HandleKeepsFated(w, h, loop, t, e);
    case Marking(loop, job, o) => { MarkedIsDue(w, h); MarkKeepsFated(w, h, job, o, Resume(loop)); }
    case DrainMarking(job) => { DrainedIsDue(w, h, job); MarkKeepsFated(w, h, job, Interrupted, Draining); }
    case AwaitingTasks =>
      if m.Join? { JoinKeepsFated(w, h, Waiting, m.task); } else { PcKeepsFated(w, h, Sweeping); }
    case AbortingTasks =>
      if m.Join? { JoinKeepsFated(w, h, Aborting, m.task); } else { PcKeepsFated(w, h, Sweeping); }
    case _ =>
  }

  lemma MarkedIsDue(w: Work, h: History)
    requires Fated(w, h) && w.pc.Marking?
    ensures w.pc.outcome == Due(h, w.pc.job)
  {}

  lemma DrainedIsDue(w: Work, h: History, job: nat)
    requires Fated(w, h) && w.pc == DrainMarking(job) && Single(w, job)
    ensures Interrupted == Due(h, job)
  {
    HandIsNew(w, h, job);
  }

  // ---- Runs ----

  lemma StepKeepsFated(c: Config, s: State, a: Action, h: History)
    requires Books(c, s) && Step(c, s, a).Some? && !Step(c, s, a).value.expired
    requires Fated(s.work, h)
    ensures !s.expired && Fated(Step(c, s, a).value.work, Remember(h, s, a))
  {
    hide Fated, WorkStep, QueueBooks, JobBooks, IdBooks, Single;
    var s' := Step(c, s, a).value;
    match a
    case TaskEnds(t, e) => {
      JobsAreSingle(c, s, if JobOf(s.work, t).Some? then JobOf(s.work, t).value else 0);
      RunningHasJob(s.work, h, t);
      EndKeepsFated(s.work, h, t, e);
    }
    case OnTasks(m) => {
      if InHand(s.work.pc).Some? { JobsAreSingle(c, s, InHand(s.work.pc).value); }
      WorkKeepsFated(c, s.work, h, m);
    }
    case OnChannel(m) => PcKeepsFated(s.work, h, s'.work.pc);
    case FinishSweep => {
      PcKeepsFated(s.work, h, Returned);
      assert s'.work == s.work.(pc := Returned);
    }
    case _ =>
  }

  lemma RunningHasJob(w: Work, h: History, t: nat)
    requires Fated(w, h) && t in w.running
    ensures JobOf(w, t).Some?
  {
    assert TaskFits(w, h, t);
  }

  lemma {:induction false} RunKeepsFated(c: Config, s: State, actions: seq<Action>, h: History)
    requires Books(c, s) && Run(c, s, actions).Some? && !Run(c, s, actions).value.expired
    requires Fated(s.work, h)
    ensures Fated(Run(c, s, actions).value.work, HistoryOf(c, s, actions, h))
    decreases |actions|
  {
    hide Step, Books, Fated, Remember;
    if actions != [] {
      var s1 := Step(c, s, actions[0]).value;
      StepKeepsBooks(c, s, actions[0]);
      ExpiryStays(c, s1, actions[1..]);
      StepKeepsFated(c, s, actions[0], h);
      RunKeepsFated(c, s1, actions[1..], Remember(h, s, actions[0]));
    }
  }

  lemma {:induction false} ExpiryStays(c: Config, s: State, actions: seq<Action>)
    requires Run(c, s, actions).Some?
    ensures s.expired ==> Run(c, s, actions).value.expired
    decreases |actions|
  {
    if actions != [] { ExpiryStays(c, Step(c, s, actions[0]).value, actions[1..]); }
  }

  lemma StartIsFated()
    ensures Fated(Start().work, NOTHING_YET)
  {}

  /**
   * Every job is told what its task came to: Ran exactly if it finished well, Failed exactly if it finished badly or
   * panicked, Interrupted exactly if it was never spawned. No task was cancelled.
   */
  predicate ToldTheTruth(w: Work, h: History) {
    && h.started == h.fates.Keys && (forall job :: job in h.fates ==> !h.fates[job].Cancelled?)
    && forall i :: 0 <= i < |w.settled| ==>
         var (job, outcome) := (w.settled[i].job, w.settled[i].outcome);
         && (outcome.Interrupted? <==> job !in h.started)
         && (outcome.Ran? <==> job in h.started && h.fates[job] == Finished(true))
         && (outcome.Failed? <==> job in h.started && h.fates[job] in {Finished(false), Panicked})
  }

  /** Once nothing runs, every spawned job has a fate, and what was told is due. */
  lemma NothingRuns(w: Work, h: History)
    requires Fated(w, h) && w.running == map[]
    ensures ToldTheTruth(w, h)
  {
    hide Began;
    assert forall job :: job in h.started && job !in h.fates ==> IsRun(w, job);
    assert h.started == h.fates.Keys;
  }

  lemma ReturnedRunsNothing(c: Config, s: State)
    requires Books(c, s) && s.work.pc.Returned?
    ensures s.work.running == map[]
  {
    hide QueueBooks, JobBooks, IdBooks, DrainBooks;
  }

  /** That is how a dispatcher that returns before its deadline leaves the jobs, whatever the interleaving. */
  lemma EveryOutcomeIsDue(c: Config, actions: seq<Action>)
    requires Run(c, Start(), actions).Some?
    requires Run(c, Start(), actions).value.work.pc.Returned? && !Run(c, Start(), actions).value.expired
    ensures ToldTheTruth(Run(c, Start(), actions).value.work, HistoryOf(c, Start(), actions, NOTHING_YET))
  {
    hide Run, HistoryOf, Step, Books, Fated, ToldTheTruth;
    StartHasBooks(c);
    BooksAlwaysBalance(c, actions);
    StartIsFated();
    RunKeepsFated(c, Start(), actions, NOTHING_YET);
    var s := Run(c, Start(), actions).value;
    ReturnedRunsNothing(c, s);
    NothingRuns(s.work, HistoryOf(c, Start(), actions, NOTHING_YET));
  }
}
