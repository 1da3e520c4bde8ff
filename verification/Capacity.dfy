/**
 * Request capacity: permits of two lanes, taken at admission and owned by the response body until it
 * ends, fails, is dropped, or reaches its deadline. Every step below is one atomic move of one task;
 * runs interleave them freely.
 */
module Capacity {
  import opened Basics
  import opened Text

  datatype Config = Config(maxGlobal: nat, maxSync: nat, timeout: nat)

  /** The task that releases a stalled body: it can be aborted while it sleeps, not once it has woken. */
  datatype Expiry = NotStarted | Sleeping | Woken | ReturningExpired | Finished | Aborted

  /** What the task that owns the body is doing with the lease. */
  datatype Body = NoBody | Idle | Taking(last: bool) | Returning(last: bool) | Gone

  datatype Phase = NeedsSync | Handling | Unwinding | Streaming | Refused

  /** Where a request's permits are. */
  datatype Place = WithHandler | InSlot | WithBody | WithExpiry | Nowhere

  datatype Request = Request(
    phase: Phase, place: Place, global: bool, sync: bool, deadline: nat, expiry: Expiry, body: Body)

  datatype State = State(now: nat, global: nat, sync: nat, requests: map<nat, Request>)

  datatype Outcome = Data | Pending | End | Failure

  datatype Action =
    | Tick(elapsed: nat)
    | Admit(id: nat, syncPath: bool)
    | AdmitSync(id: nat)
    | Cancel(id: nat)
    | UnwindSync(id: nat)
    | UnwindGlobal(id: nat)
    | Respond(id: nat)
    | PollBody(id: nat, outcome: Outcome)
    | DropBody(id: nat)
    | BodyTake(id: nat)
    | BodyReturnGlobal(id: nat)
    | BodyReturnSync(id: nat)
    | ExpiryWake(id: nat)
    | ExpiryTake(id: nat)
    | ExpiryReturnGlobal(id: nat)
    | ExpiryReturnSync(id: nat)

  function Put(s: State, id: nat, r: Request): State {
    s.(requests := s.requests[id := r])
  }

  /** Aborting the expiry task only stops it in its sleep. */
  function AbortExpiry(e: Expiry): Expiry {
    if e.Sleeping? then Aborted else e
  }

  /** The body task is done with one release. */
  function AfterRelease(last: bool): Body {
    if last then Gone else Idle
  }

  /** The permits are back once neither lane is held. */
  function Settle(r: Request): Request {
    if r.global || r.sync then r
    else
      r.(place := Nowhere,
         body := if r.body.Returning? then AfterRelease(r.body.last) else r.body,
         expiry := if r.expiry.ReturningExpired? then Finished else r.expiry,
         phase := if r.phase.Unwinding? then Refused else r.phase)
  }

  function ReturnGlobal(s: State, id: nat, r: Request): State {
    Put(s, id, Settle(r.(global := false))).(global := s.global + 1)
  }

  function ReturnSync(s: State, id: nat, r: Request): State {
    Put(s, id, Settle(r.(sync := false))).(sync := s.sync + 1)
  }

  /** One move; None when it is not enabled. A refused admission is a move that changes nothing. */
  function Step(c: Config, s: State, a: Action): Option<State> {
    match a
    case Tick(elapsed) => Some(s.(now := s.now + elapsed))
    case Admit(id, syncPath) =>
      if id in s.requests then None
      else if s.global == 0 then Some(s)
      else
        var phase := if syncPath then NeedsSync else Handling;
        Some(Put(s, id, Request(phase, WithHandler, true, false, 0, NotStarted, NoBody)).(global := s.global - 1))
    case _ =>
      if a.id !in s.requests then None else Move(c, s, a, a.id, s.requests[a.id])
  }

  function Move(c: Config, s: State, a: Action, id: nat, r: Request): Option<State>
    requires !a.Tick? && !a.Admit?
  {
    match a
    case AdmitSync(_) =>
      if !r.phase.NeedsSync? then None
      else if s.sync == 0 then Some(Put(s, id, r.(phase := Unwinding)))
      else Some(Put(s, id, r.(phase := Handling, sync := true)).(sync := s.sync - 1))
    case Cancel(_) => if r.phase.Handling? then Some(Put(s, id, r.(phase := Unwinding))) else None
    case UnwindSync(_) => if r.phase.Unwinding? && r.sync then Some(ReturnSync(s, id, r)) else None
    case UnwindGlobal(_) => if r.phase.Unwinding? && !r.sync && r.global then Some(ReturnGlobal(s, id, r)) else None
    case Respond(_) =>
      if !r.phase.Handling? then None
      else Some(Put(s, id, r.(phase := Streaming, place := InSlot, deadline := s.now + c.timeout, expiry := Sleeping,
          body := Idle)))
    case PollBody(_, outcome) =>
      if !r.body.Idle? then None
      else if s.now >= r.deadline || outcome.End? || outcome.Failure?
      then Some(Put(s, id, r.(expiry := AbortExpiry(r.expiry), body := Taking(false))))
      else Some(s)
    case DropBody(_) =>
      if !r.body.Idle? then None else Some(Put(s, id, r.(expiry := AbortExpiry(r.expiry), body := Taking(true))))
    case BodyTake(_) =>
      if !r.body.Taking? then None
      else if r.place.InSlot? then Some(Put(s, id, r.(place := WithBody, body := Returning(r.body.last))))
      else Some(Put(s, id, r.(body := AfterRelease(r.body.last))))
    case BodyReturnGlobal(_) => if r.place.WithBody? && r.global then Some(ReturnGlobal(s, id, r)) else None
    case BodyReturnSync(_) => if r.place.WithBody? && !r.global && r.sync then Some(ReturnSync(s, id, r)) else None
    case ExpiryWake(_) =>
      if r.expiry.Sleeping? && s.now >= r.deadline then Some(Put(s, id, r.(expiry := Woken))) else None
    case ExpiryTake(_) =>
      if !r.expiry.Woken? then None
      else if r.place.InSlot? && !r.body.Gone?
          then Some(Put(s, id, r.(place := WithExpiry, expiry := ReturningExpired)))
      else Some(Put(s, id, r.(expiry := Finished)))
    case ExpiryReturnGlobal(_) => if r.place.WithExpiry? && r.global then Some(ReturnGlobal(s, id, r)) else None
    case ExpiryReturnSync(_) => if r.place.WithExpiry? && !r.global && r.sync then Some(ReturnSync(s, id, r)) else None
  }

  function Start(c: Config): State { State(0, c.maxGlobal, c.maxSync, map[]) }

  function Run(c: Config, s: State, actions: seq<Action>): Option<State>
    decreases |actions|
  {
    if actions == [] then Some(s)
    else match Step(c, s, actions[0]) case None => None case Some(s1) => Run(c, s1, actions[1..])
  }

  // ---- The invariant ----

  /** One request's books: who holds its permits fits what each task is doing. */
  predicate Sound(r: Request) {
    && (r.place.Nowhere? <==> !r.global && !r.sync)
    && (r.phase.NeedsSync? ==> r.place.WithHandler? && r.global && !r.sync)
    && (r.phase.Handling? || r.phase.Unwinding? ==> r.place.WithHandler? && r.global)
    && (r.place.WithHandler? ==> r.phase.NeedsSync? || r.phase.Handling? || r.phase.Unwinding?)
    && (r.phase.Refused? ==> r.place.Nowhere?)
    && (r.phase.Streaming? <==> !r.body.NoBody?) && (r.phase.Streaming? <==> !r.expiry.NotStarted?)
    && (r.place.InSlot? ==>
          r.global && !r.body.Gone? && (r.expiry.Sleeping? || r.expiry.Woken? || (r.expiry.Aborted? && r.body.Taking?)))
    && (r.place.WithBody? <==> r.body.Returning?)
    && (r.place.WithExpiry? <==> r.expiry.ReturningExpired?)
    && (r.body.Gone? || r.body.Taking? || r.body.Returning? ==> !r.expiry.Sleeping?)
    && (r.expiry.Aborted? && r.body.Idle? ==> r.place.Nowhere?)
  }

  datatype Lane = GlobalLane | SyncLane

  function Held(r: Request, lane: Lane): (n: nat)
    ensures n <= 1
  {
    match lane case GlobalLane => (if r.global then 1 else 0) case SyncLane => (if r.sync then 1 else 0)
  }

  function Free(s: State, lane: Lane): nat {
    match lane case GlobalLane => s.global case SyncLane => s.sync
  }

  function Capacity(c: Config, lane: Lane): nat {
    match lane case GlobalLane => c.maxGlobal case SyncLane => c.maxSync
  }

  /** The requests that hold a permit of the lane. */
  function Holders(requests: map<nat, Request>, lane: Lane): set<nat> {
    set id | id in requests && Held(requests[id], lane) == 1
  }

  /** Both lanes conserve their permits and every request is sound. */
  ghost predicate Balanced(c: Config, s: State) {
    && (forall lane :: Free(s, lane) + |Holders(s.requests, lane)| == Capacity(c, lane))
    && forall id :: id in s.requests ==> Sound(s.requests[id])
  }

  /** Replacing one request changes a lane's holders by that request alone. */
  lemma HoldersAfterPut(requests: map<nat, Request>, id: nat, r: Request, lane: Lane)
    ensures |Holders(requests[id := r], lane)| ==
            |Holders(requests, lane)| - (if id in requests then Held(requests[id], lane) else 0) + Held(r, lane)
  {
    hide Held;
    var before, after := Holders(requests, lane), Holders(requests[id := r], lane);
    assert after - {id} == before - {id};
    assert id in after <==> Held(r, lane) == 1;
    assert id in before <==> id in requests && Held(requests[id], lane) == 1;
    SizeSplits(before, id);
    SizeSplits(after, id);
  }

  /** What a move does to its request, and to the free permits. */
  lemma MoveIsPut(c: Config, s: State, a: Action)
    requires !a.Tick? && !a.Admit? && a.id in s.requests && Sound(s.requests[a.id])
    requires Move(c, s, a, a.id, s.requests[a.id]).Some?
    ensures var s' := Move(c, s, a, a.id, s.requests[a.id]).value;
            var r, r' := s.requests[a.id], s'.requests[a.id];
            && s' == Put(s, a.id, r').(global := s'.global, sync := s'.sync)
            && (forall lane :: Free(s', lane) + Held(r', lane) == Free(s, lane) + Held(r, lane))
            && Sound(r')
  {
    var r := s.requests[a.id];
    assert s.requests[a.id := r] == s.requests;
  }

  lemma StepKeepsBalance(c: Config, s: State, a: Action)
    requires Balanced(c, s) && Step(c, s, a).Some?
    ensures Balanced(c, Step(c, s, a).value)
  {
    hide Move, Sound, Holders;
    var s' := Step(c, s, a).value;
    if a.Tick? || (a.Admit? && s.global == 0) {
      assert s'.requests == s.requests;
      assert forall lane :: Free(s', lane) == Free(s, lane);
    } else {
      if a.Admit? {
        NewIsSound(a.syncPath);
      } else {
        MoveIsPut(c, s, a);
      }
      forall lane ensures Free(s', lane) + |Holders(s'.requests, lane)| == Capacity(c, lane) {
        HoldersAfterPut(s.requests, a.id, s'.requests[a.id], lane);
      }
    }
  }

  lemma NewIsSound(syncPath: bool)
    ensures Sound(Request(if syncPath then NeedsSync else Handling, WithHandler, true, false, 0, NotStarted, NoBody))
  {}

  lemma {:induction false} RunKeepsBalance(c: Config, s: State, actions: seq<Action>)
    requires Balanced(c, s) && Run(c, s, actions).Some?
    ensures Balanced(c, Run(c, s, actions).value)
    decreases |actions|
  {
    hide Step, Balanced;
    if actions != [] {
      StepKeepsBalance(c, s, actions[0]);
      RunKeepsBalance(c, Step(c, s, actions[0]).value, actions[1..]);
    }
  }

  lemma StartIsBalanced(c: Config)
    ensures Balanced(c, Start(c))
  {
    assert forall lane :: Holders(Start(c).requests, lane) == {};
  }

  /** In every interleaving, free and held permits add up to the configured maximum in both lanes. */
  lemma PermitsAreConserved(c: Config, actions: seq<Action>)
    requires Run(c, Start(c), actions).Some?
    ensures Balanced(c, Run(c, Start(c), actions).value)
  {
    StartIsBalanced(c);
    RunKeepsBalance(c, Start(c), actions);
  }

  // ---- Each permit returns once ----

  function HeldBy(s: State, id: nat, lane: Lane): (n: nat)
    ensures n <= 1
  {
    if id in s.requests then Held(s.requests[id], lane) else 0
  }

  predicate IsFor(a: Action, id: nat) { !a.Tick? && a.id == id }

  /** Moves of a request that take a permit of the lane out of the pool. */
  function Takes(c: Config, s: State, actions: seq<Action>, id: nat, lane: Lane): nat
    decreases |actions|
  {
    if actions == [] || Step(c, s, actions[0]).None? then 0
    else
      var s1 := Step(c, s, actions[0]).value;
      (if IsFor(actions[0], id) && Free(s1, lane) < Free(s, lane) then 1 else 0) + Takes(c, s1, actions[1..], id, lane)
  }

  /** Moves of a request that put one back. */
  function Gives(c: Config, s: State, actions: seq<Action>, id: nat, lane: Lane): nat
    decreases |actions|
  {
    if actions == [] || Step(c, s, actions[0]).None? then 0
    else
      var s1 := Step(c, s, actions[0]).value;
      (if IsFor(actions[0], id) && Free(s1, lane) > Free(s, lane) then 1 else 0) + Gives(c, s1, actions[1..], id, lane)
  }

  /** A request takes a lane's permit at its admission to that lane, and only there. */
  predicate MayTake(s: State, id: nat, lane: Lane) {
    id !in s.requests || (lane.SyncLane? && s.requests[id].phase.NeedsSync?)
  }

  lemma StepAccounts(c: Config, s: State, a: Action, id: nat, lane: Lane)
    requires Balanced(c, s) && Step(c, s, a).Some?
    ensures var s1 := Step(c, s, a).value;
            && (IsFor(a, id) ==> Free(s1, lane) + HeldBy(s1, id, lane) == Free(s, lane) + HeldBy(s, id, lane))
            && (!IsFor(a, id) ==> HeldBy(s1, id, lane) == HeldBy(s, id, lane))
            && (IsFor(a, id) && Free(s1, lane) < Free(s, lane) ==> MayTake(s, id, lane) && !MayTake(s1, id, lane))
            && (MayTake(s1, id, lane) ==> MayTake(s, id, lane))
  {
    if !a.Tick? && !a.Admit? { MoveIsPut(c, s, a); }
  }

  /**
   * Over any run a request takes each lane's permit at most once, and what it took it gives back once or still holds.
   */
  lemma {:induction false} PermitsReturnOnce(c: Config, s: State, actions: seq<Action>, id: nat, lane: Lane)
    requires Balanced(c, s) && Run(c, s, actions).Some?
    ensures var s' := Run(c, s, actions).value;
            && HeldBy(s, id, lane) + Takes(c, s, actions, id, lane) == Gives(c, s, actions, id, lane)
                + HeldBy(s', id, lane)
            && Takes(c, s, actions, id, lane) <= if MayTake(s, id, lane) then 1 else 0
    decreases |actions|
  {
    hide Step, Balanced, MayTake, HeldBy;
    if actions != [] {
      StepAccounts(c, s, actions[0], id, lane);
      StepKeepsBalance(c, s, actions[0]);
      PermitsReturnOnce(c, Step(c, s, actions[0]).value, actions[1..], id, lane);
    }
  }

  // ---- The deadline ----

  /**
   * In every reachable state: once the expiry task has finished, or the body is gone, the request
   * holds nothing, except what another task has already taken out of the slot and is handing back.
   */
  lemma NothingOutlivesExpiry(c: Config, actions: seq<Action>, id: nat)
    requires Run(c, Start(c), actions).Some? && id in Run(c, Start(c), actions).value.requests
    ensures var r := Run(c, Start(c), actions).value.requests[id];
            && (r.expiry.Finished? && !r.body.Returning? ==> !r.global && !r.sync)
            && (r.body.Gone? && !r.expiry.ReturningExpired? ==> !r.global && !r.sync)
            && (r.phase.Refused? ==> !r.global && !r.sync)
  {
    PermitsAreConserved(c, actions);
    hide Run, Step;
    assert Sound(Run(c, Start(c), actions).value.requests[id]);
  }

  /** The expiry task's own remaining moves. */
  function ExpiryMoves(id: nat, r: Request): seq<Action> {
    (if r.expiry.Sleeping? then [ExpiryWake(id)] else [])
    + [ExpiryTake(id), ExpiryReturnGlobal(id)] + if r.sync then [ExpiryReturnSync(id)] else []
  }

  /** A body nobody polls still gives its permits back at its deadline: the expiry task needs no one's help. */
  lemma ExpiryAloneReleases(c: Config, actions: seq<Action>, id: nat)
    requires Run(c, Start(c), actions).Some?
    requires var s := Run(c, Start(c), actions).value;
             id in s.requests && s.requests[id].body.Idle? && s.requests[id].global
                 && !s.requests[id].expiry.ReturningExpired?
             && s.now >= s.requests[id].deadline
    ensures var s := Run(c, Start(c), actions).value;
            AllBack(s, id, Run(c, s, ExpiryMoves(id, s.requests[id])))
  {
    PermitsAreConserved(c, actions);
    var s := Run(c, Start(c), actions).value;
    assert Sound(s.requests[id]);
    ExpiryRuns(c, s, id);
  }

  /** The run ended with everything back. */
  ghost predicate AllBack(s: State, id: nat, end: Option<State>) {
    && id in s.requests && end.Some? && id in end.value.requests
    && var r, r' := s.requests[id], end.value.requests[id];
    && !r'.global && !r'.sync && r'.expiry.Finished?
    && end.value.global == s.global + (if r.global then 1 else 0)
    && end.value.sync == s.sync + (if r.sync then 1 else 0)
  }

  lemma FirstMove(c: Config, s: State, a: Action, rest: seq<Action>)
    requires Step(c, s, a).Some?
    ensures Run(c, s, [a] + rest) == Run(c, Step(c, s, a).value, rest)
  {
    assert ([a] + rest)[1..] == rest;
  }

  lemma SyncComesBack(c: Config, s: State, id: nat)
    requires id in s.requests && s.requests[id].place.WithExpiry? && s.requests[id].expiry.ReturningExpired?
    requires !s.requests[id].global && s.requests[id].sync
    ensures AllBack(s, id, Run(c, s, [ExpiryReturnSync(id)]))
  {
    FirstMove(c, s, ExpiryReturnSync(id), []);
    assert [ExpiryReturnSync(id)] + [] == [ExpiryReturnSync(id)];
  }

  lemma BothComeBack(c: Config, s: State, id: nat)
    requires id in s.requests && s.requests[id].place.WithExpiry? && s.requests[id].expiry.ReturningExpired?
    requires s.requests[id].global
    ensures AllBack(s, id, Run(c, s, [ExpiryReturnGlobal(id)] + if s.requests[id].sync then [ExpiryReturnSync(id)]
        else []))
  {
    var tail := if s.requests[id].sync then [ExpiryReturnSync(id)] else [];
    FirstMove(c, s, ExpiryReturnGlobal(id), tail);
    var s1 := Step(c, s, ExpiryReturnGlobal(id)).value;
    if s.requests[id].sync { SyncComesBack(c, s1, id); }
  }

  lemma ExpiryRuns(c: Config, s: State, id: nat)
    requires id in s.requests && s.requests[id].body.Idle? && s.requests[id].place.InSlot? && s.requests[id].global
    requires s.now >= s.requests[id].deadline && (s.requests[id].expiry.Sleeping? || s.requests[id].expiry.Woken?)
    decreases s.requests[id].expiry.Sleeping?
    ensures AllBack(s, id, Run(c, s, ExpiryMoves(id, s.requests[id])))
  {
    var r := s.requests[id];
    var tail := if r.sync then [ExpiryReturnSync(id)] else [];
    if r.expiry.Sleeping? {
      var s1 := Step(c, s, ExpiryWake(id)).value;
      FirstMove(c, s, ExpiryWake(id), ExpiryMoves(id, s1.requests[id]));
      ExpiryRuns(c, s1, id);
      assert ExpiryMoves(id, r) == [ExpiryWake(id)] + ExpiryMoves(id, s1.requests[id]);
    } else {
      var s1 := Step(c, s, ExpiryTake(id)).value;
      FirstMove(c, s, ExpiryTake(id), [ExpiryReturnGlobal(id)] + tail);
      BothComeBack(c, s1, id);
      assert ExpiryMoves(id, r) == [ExpiryTake(id)] + ([ExpiryReturnGlobal(id)] + tail);
    }
  }
}
