/** What becomes of an ordinary request's permits: taken at admission, kept for the configured time, given back. */
module CapacityProgress {
  import opened Text
  import opened Capacity

  // ---- Runs ----

  lemma {:induction false} RunJoins(c: Config, s: State, a: seq<Action>, b: seq<Action>)
    requires Run(c, s, a).Some?
    ensures Run(c, s, a + b) == Run(c, Run(c, s, a).value, b)
    decreases |a|
  {
    hide Step;
    if a == [] {
      assert a + b == b;
    } else {
      assert (a + b)[0] == a[0] && (a + b)[1..] == a[1..] + b;
      RunJoins(c, Step(c, s, a[0]).value, a[1..], b);
    }
  }

  lemma {:induction false} PrefixRuns(c: Config, s: State, a: seq<Action>, b: seq<Action>)
    requires Run(c, s, a + b).Some?
    ensures Run(c, s, a).Some? && Run(c, Run(c, s, a).value, b) == Run(c, s, a + b)
    decreases |a|
  {
    hide Step;
    if a == [] {
      assert a + b == b;
    } else {
      assert (a + b)[0] == a[0] && (a + b)[1..] == a[1..] + b;
      PrefixRuns(c, Step(c, s, a[0]).value, a[1..], b);
    }
  }

  /** The time that passes during these moves. */
  function Ticks(actions: seq<Action>): nat {
    if actions == [] then 0 else (if actions[0].Tick? then actions[0].elapsed else 0) + Ticks(actions[1..])
  }

  /** No poll of this body ends or fails, and nobody drops it. */
  predicate Undisturbed(actions: seq<Action>, id: nat) {
    forall i :: 0 <= i < |actions| ==> !Disturbs(actions[i], id)
  }

  predicate Disturbs(a: Action, id: nat) {
    a == DropBody(id) || a == PollBody(id, End) || a == PollBody(id, Failure)
  }

  // ---- From the response to the timeout ----

  /** Streaming, its permits in the slot, its expiry asleep. */
  predicate Streams(r: Request) {
    r.phase.Streaming? && r.place.InSlot? && r.body.Idle? && r.expiry.Sleeping?
  }

  lemma StepLeavesStreaming(c: Config, s: State, a: Action, id: nat)
    requires id in s.requests && Streams(s.requests[id]) && Step(c, s, a).Some? && !Disturbs(a, id)
    requires s.now < s.requests[id].deadline
    ensures var s' := Step(c, s, a).value;
            && id in s'.requests && s'.requests[id] == s.requests[id]
            && s'.now == s.now + if a.Tick? then a.elapsed else 0
  {}

  lemma {:induction false} RunLeavesStreaming(c: Config, s: State, actions: seq<Action>, id: nat)
    requires id in s.requests && Streams(s.requests[id]) && Run(c, s, actions).Some? && Undisturbed(actions, id)
    requires s.now + Ticks(actions) < s.requests[id].deadline
    ensures var s' := Run(c, s, actions).value;
            id in s'.requests && s'.requests[id] == s.requests[id] && s'.now == s.now + Ticks(actions)
    decreases |actions|
  {
    hide Step;
    if actions != [] {
      StepLeavesStreaming(c, s, actions[0], id);
      RunLeavesStreaming(c, Step(c, s, actions[0]).value, actions[1..], id);
    }
  }

  lemma RespondStarts(c: Config, s: State, id: nat)
    requires Step(c, s, Respond(id)).Some?
    ensures id in s.requests && s.requests[id].phase.Handling?
    ensures var s' := Step(c, s, Respond(id)).value;
            && s'.now == s.now && id in s'.requests && Streams(s'.requests[id])
            && s'.requests[id].deadline == s.now + c.timeout
            && s'.requests[id].global == s.requests[id].global && s'.requests[id].sync == s.requests[id].sync
  {}

  /**
   * Over any run: from its response on, until the configured time has passed, a request whose body neither ends, fails
   * nor is dropped keeps every permit it had; frames are handed on; and its expiry cannot wake.
   */
  lemma ResponseKeepsPermits(c: Config, before: seq<Action>, after: seq<Action>, id: nat)
    requires Run(c, Start(c), before + ([Respond(id)] + after)).Some?
    requires Undisturbed(after, id) && Ticks(after) < c.timeout
    ensures Run(c, Start(c), before).Some? && id in Run(c, Start(c), before).value.requests
    ensures var held := Run(c, Start(c), before).value.requests[id];
            var s := Run(c, Start(c), before + ([Respond(id)] + after)).value;
            && id in s.requests && s.requests[id].body.Idle? && s.requests[id].global == held.global
            && s.requests[id].sync == held.sync && Step(c, s, ExpiryWake(id)).None?
            && Step(c, s, PollBody(id, Data)) == Some(s) && Step(c, s, PollBody(id, Pending)) == Some(s)
  {
    hide Run, Step, Streams;
    PrefixRuns(c, Start(c), before, [Respond(id)] + after);
    var s0 := Run(c, Start(c), before).value;
    RespondThen(c, s0, after, id);
    RespondStarts(c, s0, id);
    var s1 := Step(c, s0, Respond(id)).value;
    RunLeavesStreaming(c, s1, after, id);
    StillStreams(c, Run(c, s1, after).value, id);
  }

  lemma RespondThen(c: Config, s: State, after: seq<Action>, id: nat)
    requires Run(c, s, [Respond(id)] + after).Some?
    ensures Step(c, s, Respond(id)).Some?
    ensures Run(c, s, [Respond(id)] + after) == Run(c, Step(c, s, Respond(id)).value, after)
  {
    hide Step;
    assert ([Respond(id)] + after)[1..] == after;
  }

  lemma StillStreams(c: Config, s: State, id: nat)
    requires id in s.requests && Streams(s.requests[id]) && s.now < s.requests[id].deadline
    ensures s.requests[id].body.Idle? && Step(c, s, ExpiryWake(id)).None?
    ensures Step(c, s, PollBody(id, Data)) == Some(s) && Step(c, s, PollBody(id, Pending)) == Some(s)
  {}

  // ---- At the timeout ----

  lemma StepKeepsDeadline(c: Config, s: State, a: Action, id: nat)
    requires id in s.requests && s.requests[id].phase.Streaming? && Step(c, s, a).Some?
    ensures var s' := Step(c, s, a).value;
            && id in s'.requests && s'.requests[id].phase.Streaming?
            && s'.requests[id].deadline == s.requests[id].deadline
            && s'.now == s.now + if a.Tick? then a.elapsed else 0
  {}

  lemma {:induction false} RunKeepsDeadline(c: Config, s: State, actions: seq<Action>, id: nat)
    requires id in s.requests && s.requests[id].phase.Streaming? && Run(c, s, actions).Some?
    ensures var s' := Run(c, s, actions).value;
            && id in s'.requests && s'.requests[id].phase.Streaming?
            && s'.requests[id].deadline == s.requests[id].deadline && s'.now == s.now + Ticks(actions)
    decreases |actions|
  {
    hide Step;
    if actions != [] {
      StepKeepsDeadline(c, s, actions[0], id);
      RunKeepsDeadline(c, Step(c, s, actions[0]).value, actions[1..], id);
    }
  }

  lemma TimeIsUp(c: Config, before: seq<Action>, after: seq<Action>, id: nat)
    requires Run(c, Start(c), before + ([Respond(id)] + after)).Some? && Ticks(after) >= c.timeout
    ensures var s := Run(c, Start(c), before + ([Respond(id)] + after)).value;
            id in s.requests && s.requests[id].phase.Streaming? && s.now >= s.requests[id].deadline
  {
    hide Run, Step;
    PrefixRuns(c, Start(c), before, [Respond(id)] + after);
    var s0 := Run(c, Start(c), before).value;
    RespondThen(c, s0, after, id);
    RespondStarts(c, s0, id);
    RunKeepsDeadline(c, Step(c, s0, Respond(id)).value, after, id);
  }

  /**
   * Once the configured time has passed since the response, the expiry's own moves are enabled for a body that nobody
   * has polled since, and give back every permit: it needs no one's help.
   */
  lemma TimeoutReleases(c: Config, before: seq<Action>, after: seq<Action>, id: nat)
    requires Run(c, Start(c), before + ([Respond(id)] + after)).Some? && Ticks(after) >= c.timeout
    requires var s := Run(c, Start(c), before + ([Respond(id)] + after)).value;
             id in s.requests ==>
               s.requests[id].body.Idle? && s.requests[id].global && !s.requests[id].expiry.ReturningExpired?
    ensures var s := Run(c, Start(c), before + ([Respond(id)] + after)).value;
            id in s.requests && AllBack(s, id, Run(c, s, ExpiryMoves(id, s.requests[id])))
  {
    hide Run, Step, ExpiryMoves, AllBack;
    TimeIsUp(c, before, after, id);
    ExpiryAloneReleases(c, before + ([Respond(id)] + after), id);
  }

  /** And any poll of such a body, whatever it would have yielded, is turned into a release. */
  lemma LatePollReleases(c: Config, before: seq<Action>, after: seq<Action>, id: nat, outcome: Outcome)
    requires Run(c, Start(c), before + ([Respond(id)] + after)).Some? && Ticks(after) >= c.timeout
    requires var s := Run(c, Start(c), before + ([Respond(id)] + after)).value;
             id in s.requests && s.requests[id].body.Idle? && s.requests[id].place.InSlot?
    ensures var s := Run(c, Start(c), before + ([Respond(id)] + after)).value;
            GivenBack(s, id, Run(c, s, [PollBody(id, outcome)] + BodyMoves(id, s.requests[id])))
  {
    hide Run, Step, GivenBack, BodyMoves;
    TimeIsUp(c, before, after, id);
    PermitsAreConserved(c, before + ([Respond(id)] + after));
    var s := Run(c, Start(c), before + ([Respond(id)] + after)).value;
    BodyGivesBack(c, s, PollBody(id, outcome), id);
  }

  // ---- The body gives its permits back itself ----

  /** The body task's own moves once it is to release. */
  function BodyMoves(id: nat, r: Request): seq<Action> {
    [BodyTake(id), BodyReturnGlobal(id)] + if r.sync then [BodyReturnSync(id)] else []
  }

  /** The run ended with this request's permits in their pools, and no other change to them. */
  ghost predicate GivenBack(s: State, id: nat, end: Option<State>) {
    && id in s.requests && end.Some? && id in end.value.requests
    && !end.value.requests[id].global && !end.value.requests[id].sync
    && end.value.global == s.global + (if s.requests[id].global then 1 else 0)
    && end.value.sync == s.sync + (if s.requests[id].sync then 1 else 0)
  }

  /** What makes the body release: its end, a failure, its being dropped, or a poll past the deadline. */
  predicate Releases(s: State, a: Action, id: nat) {
    || Disturbs(a, id)
    || (a.PollBody? && a.id == id && id in s.requests && s.now >= s.requests[id].deadline)
  }

  lemma ReleaseStarts(c: Config, s: State, a: Action, id: nat)
    requires id in s.requests && s.requests[id].body.Idle? && Releases(s, a, id)
    ensures Step(c, s, a).Some?
    ensures var s1 := Step(c, s, a).value;
            && s1.global == s.global && s1.sync == s.sync && id in s1.requests && s1.requests[id].body.Taking?
            && s1.requests[id].place == s.requests[id].place && (s1.requests[id].body.last <==> a.DropBody?)
            && s1.requests[id].global == s.requests[id].global && s1.requests[id].sync == s.requests[id].sync
  {}

  /** A body that was dropped is gone; one that only ended can still be polled. */
  ghost predicate Leaves(id: nat, dropped: bool, end: Option<State>) {
    end.Some? && id in end.value.requests && end.value.requests[id].body == if dropped then Gone else Idle
  }

  /** The body task takes the permits out of the slot and returns them, one lane after the other. */
  lemma TakingGivesBack(c: Config, s: State, id: nat)
    requires id in s.requests && s.requests[id].body.Taking? && s.requests[id].place.InSlot? && s.requests[id].global
    ensures GivenBack(s, id, Run(c, s, BodyMoves(id, s.requests[id])))
    ensures Leaves(id, s.requests[id].body.last, Run(c, s, BodyMoves(id, s.requests[id])))
  {
    var r, s1 := s.requests[id], Step(c, s, BodyTake(id)).value;
    var tail := if r.sync then [BodyReturnSync(id)] else [];
    assert BodyMoves(id, r) == [BodyTake(id)] + ([BodyReturnGlobal(id)] + tail);
    FirstMove(c, s, BodyTake(id), [BodyReturnGlobal(id)] + tail);
    FirstMove(c, s1, BodyReturnGlobal(id), tail);
    var s2 := Step(c, s1, BodyReturnGlobal(id)).value;
    if r.sync {
      assert tail == [BodyReturnSync(id)] + [];
      FirstMove(c, s2, BodyReturnSync(id), []);
    }
  }

  lemma BodyGivesBack(c: Config, s: State, a: Action, id: nat)
    requires Balanced(c, s) && id in s.requests && s.requests[id].body.Idle? && s.requests[id].place.InSlot?
    requires Releases(s, a, id)
    ensures GivenBack(s, id, Run(c, s, [a] + BodyMoves(id, s.requests[id])))
    ensures Leaves(id, a.DropBody?, Run(c, s, [a] + BodyMoves(id, s.requests[id])))
  {
    assert Sound(s.requests[id]);
    hide Balanced, Step, Run, Releases;
    ReleaseStarts(c, s, a, id);
    FirstMove(c, s, a, BodyMoves(id, s.requests[id]));
    TakingGivesBack(c, Step(c, s, a).value, id);
  }

  /** In every reachable state, a body that ends, fails or is dropped gives every permit back by its own moves. */
  lemma EndedBodyReleases(c: Config, actions: seq<Action>, a: Action, id: nat)
    requires Run(c, Start(c), actions).Some? && Disturbs(a, id)
    requires var s := Run(c, Start(c), actions).value;
             id in s.requests && s.requests[id].body.Idle? && s.requests[id].place.InSlot?
    ensures var s := Run(c, Start(c), actions).value;
            && GivenBack(s, id, Run(c, s, [a] + BodyMoves(id, s.requests[id])))
            && Leaves(id, a.DropBody?, Run(c, s, [a] + BodyMoves(id, s.requests[id])))
  {
    hide Run, Step, GivenBack, Leaves, BodyMoves;
    PermitsAreConserved(c, actions);
    BodyGivesBack(c, Run(c, Start(c), actions).value, a, id);
  }

  // ---- A dropped body ----

  /** Dropped: its last release is due, under way, or over. */
  predicate IsDropped(r: Request) {
    r.body.Gone? || ((r.body.Taking? || r.body.Returning?) && r.body.last)
  }

  predicate Touches(a: Action, id: nat) {
    (a.PollBody? || a.DropBody?) && a.id == id
  }

  lemma StepKeepsDropped(c: Config, s: State, a: Action, id: nat)
    requires id in s.requests && IsDropped(s.requests[id]) && Sound(s.requests[id]) && Step(c, s, a).Some?
    ensures var s' := Step(c, s, a).value;
            id in s'.requests && IsDropped(s'.requests[id]) && !Touches(a, id)
  {}

  lemma {:induction false} RunKeepsDropped(c: Config, s: State, actions: seq<Action>, id: nat)
    requires Balanced(c, s) && id in s.requests && IsDropped(s.requests[id]) && Run(c, s, actions).Some?
    ensures forall i :: 0 <= i < |actions| ==> !Touches(actions[i], id)
    decreases |actions|
  {
    hide Step, Sound, IsDropped, Touches;
    if actions != [] {
      StepKeepsDropped(c, s, actions[0], id);
      StepKeepsBalance(c, s, actions[0]);
      RunKeepsDropped(c, Step(c, s, actions[0]).value, actions[1..], id);
    }
  }

  /** In every run, nobody polls or drops a body again once it was dropped. */
  lemma DroppedIsLeftAlone(c: Config, before: seq<Action>, after: seq<Action>, id: nat)
    requires Run(c, Start(c), before + ([DropBody(id)] + after)).Some?
    ensures forall i :: 0 <= i < |after| ==> !Touches(after[i], id)
  {
    hide Touches, Sound;
    PrefixRuns(c, Start(c), before, [DropBody(id)] + after);
    PermitsAreConserved(c, before);
    var s := Run(c, Start(c), before).value;
    assert ([DropBody(id)] + after)[0] == DropBody(id) && ([DropBody(id)] + after)[1..] == after;
    StepKeepsBalance(c, s, DropBody(id));
    RunKeepsDropped(c, Step(c, s, DropBody(id)).value, after, id);
  }

  // ---- Admission ----

  /** A request that found no permit is shed and leaves no trace. */
  lemma NoPermitNoRequest(c: Config, s: State, id: nat, syncPath: bool)
    requires id !in s.requests && s.global == 0
    ensures Step(c, s, Admit(id, syncPath)) == Some(s)
  {}

  /** One that found a permit takes it, and is handled, or asks for the second lane first. */
  lemma AdmissionTakesOne(c: Config, s: State, id: nat, syncPath: bool)
    requires id !in s.requests && s.global > 0
    ensures var end := Step(c, s, Admit(id, syncPath));
            && end.Some? && end.value.global == s.global - 1 && end.value.sync == s.sync && end.value.now == s.now
            && id in end.value.requests && end.value.requests[id].global && !end.value.requests[id].sync
            && end.value.requests[id].phase == (if syncPath then NeedsSync else Handling)
            && forall other :: other in s.requests ==>
                 other in end.value.requests && end.value.requests[other] == s.requests[other]
  {}

  /** A sync request with room in both lanes holds a permit of each; without, it ends refused with the first back. */
  lemma SyncNeedsBothLanes(c: Config, s: State, id: nat)
    requires id !in s.requests && s.global > 0
    ensures s.sync > 0 ==>
              var end := Run(c, s, [Admit(id, true), AdmitSync(id)]);
              && end.Some? && id in end.value.requests
              && end.value.global == s.global - 1 && end.value.sync == s.sync - 1
              && end.value.requests[id].phase.Handling? && end.value.requests[id].global && end.value.requests[id].sync
    ensures s.sync == 0 ==>
              var end := Run(c, s, [Admit(id, true), AdmitSync(id), UnwindGlobal(id)]);
              && end.Some? && id in end.value.requests && end.value.global == s.global && end.value.sync == s.sync
              && end.value.requests[id].phase.Refused?
              && !end.value.requests[id].global && !end.value.requests[id].sync
  {
    var s1 := Step(c, s, Admit(id, true)).value;
    var s2 := Step(c, s1, AdmitSync(id)).value;
    FirstMove(c, s, Admit(id, true), [AdmitSync(id)]);
    FirstMove(c, s1, AdmitSync(id), []);
    assert [Admit(id, true), AdmitSync(id)] == [Admit(id, true)] + [AdmitSync(id)];
    assert [AdmitSync(id)] == [AdmitSync(id)] + [];
    if s.sync == 0 {
      FirstMove(c, s, Admit(id, true), [AdmitSync(id), UnwindGlobal(id)]);
      FirstMove(c, s1, AdmitSync(id), [UnwindGlobal(id)]);
      FirstMove(c, s2, UnwindGlobal(id), []);
      assert [UnwindGlobal(id)] == [UnwindGlobal(id)] + [];
      assert [AdmitSync(id), UnwindGlobal(id)] == [AdmitSync(id)] + [UnwindGlobal(id)];
      assert [Admit(id, true), AdmitSync(id), UnwindGlobal(id)]
          == [Admit(id, true)] + [AdmitSync(id), UnwindGlobal(id)];
    }
  }

  /** A handler that is cancelled gives back what it holds, by its own moves. */
  lemma CancelGivesBack(c: Config, actions: seq<Action>, id: nat)
    requires Run(c, Start(c), actions).Some?
    requires var s := Run(c, Start(c), actions).value; id in s.requests && s.requests[id].phase.Handling?
    ensures var s := Run(c, Start(c), actions).value;
            var unwind := (if s.requests[id].sync then [UnwindSync(id)] else []) + [UnwindGlobal(id)];
            GivenBack(s, id, Run(c, s, [Cancel(id)] + unwind))
  {
    PermitsAreConserved(c, actions);
    var s := Run(c, Start(c), actions).value;
    assert Sound(s.requests[id]);
    hide Balanced;
    var r, s1 := s.requests[id], Step(c, s, Cancel(id)).value;
    var unwind := (if r.sync then [UnwindSync(id)] else []) + [UnwindGlobal(id)];
    FirstMove(c, s, Cancel(id), unwind);
    if r.sync {
      var s2 := Step(c, s1, UnwindSync(id)).value;
      assert unwind == [UnwindSync(id)] + [UnwindGlobal(id)];
      FirstMove(c, s1, UnwindSync(id), [UnwindGlobal(id)]);
      FirstMove(c, s2, UnwindGlobal(id), []);
    } else {
      FirstMove(c, s1, UnwindGlobal(id), []);
    }
    assert [UnwindGlobal(id)] == [UnwindGlobal(id)] + [] && [] + [UnwindGlobal(id)] == [UnwindGlobal(id)];
  }
}
