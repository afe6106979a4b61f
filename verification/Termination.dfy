/**
 * `terminate_match_unified` (services/scheduler.py) for one match: any number of calls interleave
 * step by step. The Redis lock may expire, a call may crash or fail anywhere, a commit may be lost
 * on the way back, and another path may deactivate the match directly.
 */
module Termination {
  import opened Wrappers

  /** Time to live of the lock, in milliseconds. */
  const MATCH_LOCK_TTL_MS: nat := 10_000

  /** Longest wait of a call made for a user, in milliseconds. */
  const MANUAL_WAIT_MS: nat := 5_000

  datatype Lock = Free | Held(token: nat, expires: nat)

  datatype Outcome = ReturnedTrue | ReturnedFalse | Raised

  /** Where a call is in the pipeline. */
  datatype Call =
    | NotStarted
    | Acquiring(token: nat, manual: bool, deadline: nat)
    | Locked(token: nat)                        // owns the lock, as far as it knows
    | Updated(token: nat)                       // conditional UPDATE matched the row, not committed
    | Committed(token: nat)
    | Winner(token: nat)                        // about to run the side effects
    | Releasing(token: nat, outcome: Outcome)
    | Finished(outcome: Outcome)
    | Crashed

  datatype State = State(
    now: nat,
    lock: Lock,
    used: set<nat>,                             // tokens drawn so far
    active: bool,                               // committed value of the row's is_active
    rowLock: Option<nat>,                       // call holding the database row lock
    calls: seq<Call>,
    deactivations: nat,                         // times is_active went from true to false
    effects: nat,                               // times the side effects were run
    closedBy: Option<nat>                       // call whose acknowledged commit closed the match
  )

  datatype Fetch = RowFound | RowMissing | FetchFails

  datatype Event =
    | Tick(time: nat)
    | Begin(c: nat, token: nat, manual: bool)
    | TryLock(c: nat)
    | Update(c: nat)
    | UpdateFails(c: nat)
    | Commit(c: nat)
    | CommitFails(c: nat)
    | CommitLost(c: nat)                        // committed, but the reply never arrives
    | FetchRow(c: nat, fetch: Fetch)
    | RunEffects(c: nat, ok: bool)
    | Release(c: nat, reachable: bool)          // token-checked delete of the lock key
    | Crash(c: nat)
    | DeactivateElsewhere

  predicate LockLive(s: State) { s.lock.Held? && s.now < s.lock.expires }

  predicate Enabled(s: State, e: Event) {
    match e
    case Tick(time) => s.now <= time
    case Begin(c, token, _) => c < |s.calls| && s.calls[c].NotStarted? && token !in s.used
    case TryLock(c) => c < |s.calls| && s.calls[c].Acquiring?
    case Update(c) => c < |s.calls| && s.calls[c].Locked? && s.rowLock.None?
    case UpdateFails(c) => c < |s.calls| && s.calls[c].Locked?
    case Commit(c) => c < |s.calls| && s.calls[c].Updated?
    case CommitFails(c) => c < |s.calls| && s.calls[c].Updated?
    case CommitLost(c) => c < |s.calls| && s.calls[c].Updated?
    case FetchRow(c, _) => c < |s.calls| && s.calls[c].Committed?
    case RunEffects(c, _) => c < |s.calls| && s.calls[c].Winner?
    case Release(c, _) => c < |s.calls| && s.calls[c].Releasing?
    case Crash(c) => c < |s.calls| && !s.calls[c].Finished?
    case DeactivateElsewhere => s.rowLock.None?
  }

  function Deactivate(s: State): State {
    s.(active := false, deactivations := s.deactivations + if s.active then 1 else 0)
  }

  function Apply(s: State, e: Event): (s': State)
    requires Enabled(s, e)
    ensures |s'.calls| == |s.calls|
  {
    match e
    case Tick(time) => s.(now := time)
    case Begin(c, token, manual) =>
      s.(used := s.used + {token},
         calls := s.calls[c := Acquiring(token, manual, s.now + if manual then MANUAL_WAIT_MS else 0)])
    case TryLock(c) =>
      var call := s.calls[c];
      if !LockLive(s) then
        s.(lock := Held(call.token, s.now + MATCH_LOCK_TTL_MS), calls := s.calls[c := Locked(call.token)])
      else if !call.manual || s.now >= call.deadline then
        s.(calls := s.calls[c := Finished(ReturnedFalse)])
      else s
    case Update(c) =>
      var token := s.calls[c].token;
      if s.active then s.(rowLock := Some(c), calls := s.calls[c := Updated(token)])
      else s.(calls := s.calls[c := Releasing(token, ReturnedFalse)])
    case UpdateFails(c) => s.(calls := s.calls[c := Releasing(s.calls[c].token, Raised)])
    case Commit(c) =>
      Deactivate(s).(rowLock := None, closedBy := Some(c), calls := s.calls[c := Committed(s.calls[c].token)])
    case CommitFails(c) => s.(rowLock := None, calls := s.calls[c := Releasing(s.calls[c].token, Raised)])
    case CommitLost(c) =>
      Deactivate(s).(rowLock := None, calls := s.calls[c := Releasing(s.calls[c].token, Raised)])
    case FetchRow(c, fetch) =>
      var token := s.calls[c].token;
      s.(calls := s.calls[c :=
        match fetch
        case RowFound => Winner(token)
        case RowMissing => Releasing(token, ReturnedFalse)
        case FetchFails => Releasing(token, Raised)])
    case RunEffects(c, ok) =>
      s.(effects := s.effects + 1,
         calls := s.calls[c := Releasing(s.calls[c].token, if ok then ReturnedTrue else Raised)])
    case Release(c, reachable) =>
      var call := s.calls[c];
      var mine := reachable && LockLive(s) && s.lock.token == call.token;
      s.(lock := if mine then Free else s.lock, calls := s.calls[c := Finished(call.outcome)])
    case Crash(c) =>
      s.(rowLock := if s.rowLock == Some(c) then None else s.rowLock, calls := s.calls[c := Crashed])
    case DeactivateElsewhere => Deactivate(s)
  }

  predicate Initial(s: State) {
    && s.lock.Free? && s.used == {} && s.active && s.rowLock.None?
    && s.deactivations == 0 && s.effects == 0 && s.closedBy.None?
    && forall c :: 0 <= c < |s.calls| ==> s.calls[c].NotStarted?
  }

  predicate Runs(s: State, events: seq<Event>)
    decreases |events|
  {
    events == [] || (Enabled(s, events[0]) && Runs(Apply(s, events[0]), events[1..]))
  }

  function Run(s: State, events: seq<Event>): State
    requires Runs(s, events)
    decreases |events|
  {
    if events == [] then s else Run(Apply(s, events[0]), events[1..])
  }

  // ---------------------------------------------------------------- invariant

  predicate HasToken(call: Call) { !call.NotStarted? && !call.Finished? && !call.Crashed? }

  /** The call's commit was acknowledged and it may still run the side effects. */
  predicate BeforeEffects(call: Call) { call.Committed? || call.Winner? }

  predicate TrueReturned(call: Call) {
    (call.Releasing? || call.Finished?) && call.outcome == ReturnedTrue
  }

  /** The call's own commit closed the match. */
  predicate Won(call: Call) { BeforeEffects(call) || TrueReturned(call) }

  ghost predicate Tokens(s: State) {
    && (forall c :: 0 <= c < |s.calls| && HasToken(s.calls[c]) ==> s.calls[c].token in s.used)
    && (forall c, d :: 0 <= c < d < |s.calls| && HasToken(s.calls[c]) && HasToken(s.calls[d]) ==>
          s.calls[c].token != s.calls[d].token)
  }

  ghost predicate Row(s: State) {
    && (forall c :: 0 <= c < |s.calls| && s.calls[c].Updated? ==> s.rowLock == Some(c))
    && (s.rowLock.Some? ==> s.rowLock.value < |s.calls| && s.calls[s.rowLock.value].Updated? && s.active)
    && s.deactivations == if s.active then 0 else 1
  }

  ghost predicate Closing(s: State) {
    && (s.closedBy.Some? ==> !s.active)
    && (forall c :: 0 <= c < |s.calls| && Won(s.calls[c]) ==> s.closedBy == Some(c))
    && s.effects <= 1
    && (s.effects == 1 ==> s.closedBy.Some?)
    && (s.effects == 1 ==> forall c :: 0 <= c < |s.calls| ==> !BeforeEffects(s.calls[c]))
    && (forall c :: 0 <= c < |s.calls| && TrueReturned(s.calls[c]) ==> s.effects == 1)
  }

  ghost predicate Inv(s: State) { Tokens(s) && Row(s) && Closing(s) }

  lemma InitialInv(s: State)
    requires Initial(s)
    ensures Inv(s)
  {
  }

  /** The call an event belongs to, if any. */
  function Actor(e: Event): Option<nat> {
    match e
    case Tick(_) => None
    case DeactivateElsewhere => None
    case Begin(c, _, _) => Some(c)
    case TryLock(c) => Some(c)
    case Update(c) => Some(c)
    case UpdateFails(c) => Some(c)
    case Commit(c) => Some(c)
    case CommitFails(c) => Some(c)
    case CommitLost(c) => Some(c)
    case FetchRow(c, _) => Some(c)
    case RunEffects(c, _) => Some(c)
    case Release(c, _) => Some(c)
    case Crash(c) => Some(c)
  }

  lemma OnlyActorMoves(s: State, e: Event, c: nat)
    requires Enabled(s, e) && c < |s.calls| && Actor(e) != Some(c)
    ensures Apply(s, e).calls[c] == s.calls[c]
  {
  }

  /** The acting call keeps its token, or has just drawn a fresh one. */
  lemma ActorToken(s: State, e: Event, c: nat)
    requires Enabled(s, e) && Actor(e) == Some(c) && HasToken(Apply(s, e).calls[c])
    ensures Apply(s, e).calls[c].token in Apply(s, e).used || HasToken(s.calls[c])
    ensures if HasToken(s.calls[c]) then Apply(s, e).calls[c].token == s.calls[c].token
            else Apply(s, e).calls[c].token !in s.used
  {
  }

  lemma StepTokens(s: State, e: Event)
    requires Tokens(s) && Enabled(s, e)
    ensures Tokens(Apply(s, e))
  {
    var t := Apply(s, e);
    forall c | 0 <= c < |t.calls| && HasToken(t.calls[c])
      ensures t.calls[c].token in t.used
      ensures if HasToken(s.calls[c]) then t.calls[c].token == s.calls[c].token else t.calls[c].token !in s.used
    {
      if Actor(e) == Some(c) {
        ActorToken(s, e, c);
      } else {
        OnlyActorMoves(s, e, c);
      }
    }
    forall c, d | 0 <= c < d < |t.calls| && HasToken(t.calls[c]) && HasToken(t.calls[d])
      ensures t.calls[c].token != t.calls[d].token
    {
      if Actor(e) == Some(c) {
        OnlyActorMoves(s, e, d);
      } else {
        OnlyActorMoves(s, e, c);
      }
    }
  }

  lemma StepRow(s: State, e: Event)
    requires Row(s) && Enabled(s, e)
    ensures Row(Apply(s, e))
  {
  }

  /** A commit meets an open match; only the call that closed it may go on to the side effects. */
  lemma ActorCloses(s: State, e: Event, c: nat)
    requires Row(s) && Closing(s) && Enabled(s, e) && Actor(e) == Some(c)
    ensures
      var t := Apply(s, e);
      && (Won(t.calls[c]) ==> t.closedBy == Some(c))
      && (TrueReturned(t.calls[c]) ==> t.effects == 1)
      && (t.effects == 1 ==> !BeforeEffects(t.calls[c]))
      && t.effects <= 1
  {
  }

  /** Outside the acting call nothing changes but who closed the match, and that only while it is open. */
  lemma StepShared(s: State, e: Event)
    requires Row(s) && Closing(s) && Enabled(s, e)
    ensures
      var t := Apply(s, e);
      && (t.closedBy.Some? ==> !t.active)
      && (t.effects == 1 ==> t.closedBy.Some?)
      && (t.closedBy == s.closedBy || s.closedBy.None?)
      && s.effects <= t.effects
      && (t.effects == s.effects || (Actor(e).Some? && s.closedBy == Actor(e)))
  {
  }

  lemma StepClosing(s: State, e: Event)
    requires Row(s) && Closing(s) && Enabled(s, e)
    ensures Closing(Apply(s, e))
  {
    var t := Apply(s, e);
    StepShared(s, e);
    forall c | 0 <= c < |t.calls|
      ensures Won(t.calls[c]) ==> t.closedBy == Some(c)
      ensures TrueReturned(t.calls[c]) ==> t.effects == 1
      ensures t.effects == 1 ==> !BeforeEffects(t.calls[c])
      ensures t.effects <= 1
    {
      if Actor(e) == Some(c) {
        ActorCloses(s, e, c);
      } else {
        OnlyActorMoves(s, e, c);
        if Actor(e).Some? {
          ActorCloses(s, e, Actor(e).value);
        }
      }
    }
    if Actor(e).Some? {
      ActorCloses(s, e, Actor(e).value);
    }
  }

  lemma {:induction false} RunInv(s: State, events: seq<Event>)
    requires Inv(s) && Runs(s, events)
    ensures Inv(Run(s, events)) && |Run(s, events).calls| == |s.calls|
    ensures !s.active ==> !Run(s, events).active
    decreases |events|
  {
    if events != [] {
      StepTokens(s, events[0]);
      StepRow(s, events[0]);
      StepClosing(s, events[0]);
      RunInv(Apply(s, events[0]), events[1..]);
    }
  }

  // ---------------------------------------------------------------- main results

  /**
   * In every run at most one call returns True; the side effects run at most once, and only after
   * the match was closed; and the match is closed by exactly one transition, never reopened.
   */
  lemma AtMostOneTermination(s: State, events: seq<Event>)
    requires Initial(s) && Runs(s, events)
    ensures
      var r := Run(s, events);
      && (forall c, d ::
            0 <= c < |r.calls| && 0 <= d < |r.calls| && TrueReturned(r.calls[c]) && TrueReturned(r.calls[d]) ==>
              c == d)
      && (forall c :: 0 <= c < |r.calls| && TrueReturned(r.calls[c]) ==> !r.active && r.effects == 1)
      && r.effects <= 1 && (r.effects == 1 ==> !r.active)
      && r.deactivations == (if r.active then 0 else 1)
  {
    InitialInv(s);
    RunInv(s, events);
  }

  /** Once closed, a match stays closed, whatever happens next. */
  lemma ClosedForGood(s: State, before: seq<Event>, after: seq<Event>)
    requires Initial(s) && Runs(s, before) && !Run(s, before).active && Runs(Run(s, before), after)
    ensures !Run(Run(s, before), after).active
  {
    InitialInv(s);
    RunInv(s, before);
    RunInv(Run(s, before), after);
  }

  /** The call is the owner of the lock key and the key has not expired. */
  predicate OwnsLock(s: State, c: nat)
    requires c < |s.calls|
  {
    HasToken(s.calls[c]) && !s.calls[c].Acquiring? && LockLive(s) && s.lock.token == s.calls[c].token
  }

  /**
   * At most one call owns an unexpired lock, and nothing but its own release or crash, or the
   * passing of time, takes the lock from it: the release of a call whose lock expired does not.
   */
  lemma LockIsExclusive(s: State, events: seq<Event>, e: Event, c: nat)
    requires Initial(s) && Runs(s, events) && c < |s.calls|
    requires Enabled(Run(s, events), e)
    ensures |Run(s, events).calls| == |Apply(Run(s, events), e).calls| == |s.calls|
    ensures
      var r := Run(s, events);
      && (forall d :: 0 <= d < |r.calls| && OwnsLock(r, c) && OwnsLock(r, d) ==> c == d)
      && (OwnsLock(r, c) && !e.Tick? && (e.Release? || e.Crash? ==> e.c != c) ==>
            Apply(r, e).lock == r.lock && (OwnsLock(Apply(r, e), c)))
  {
    InitialInv(s);
    RunInv(s, events);
  }

  /**
   * The lock alone does not keep two calls apart: after it expires, both can be past it. The
   * conditional UPDATE still lets only one of them win.
   */
  lemma LockAloneIsNotEnough()
    ensures exists s, events ::
      Initial(s) && Runs(s, events) &&
      var r := Run(s, events);
      |r.calls| == 2 && r.calls[0].Locked? && r.calls[1].Locked? && r.active
  {
    var s := State(0, Free, {}, true, None, [NotStarted, NotStarted], 0, 0, None);
    var e0, e1, e2 := Begin(0, 0, false), TryLock(0), Tick(MATCH_LOCK_TTL_MS);
    var e3, e4 := Begin(1, 1, false), TryLock(1);
    var s1 := Apply(s, e0);
    var s2 := Apply(s1, e1);
    var s3 := Apply(s2, e2);
    var s4 := Apply(s3, e3);
    var s5 := Apply(s4, e4);
    OneMore(s4, e4, [], s5);
    OneMore(s3, e3, [e4], s5);
    OneMore(s2, e2, [e3] + [e4], s5);
    OneMore(s1, e1, [e2] + ([e3] + [e4]), s5);
    OneMore(s, e0, [e1] + ([e2] + ([e3] + [e4])), s5);
    assert Initial(s);
  }

  lemma OneMore(s: State, e: Event, rest: seq<Event>, end: State)
    requires Enabled(s, e) && Runs(Apply(s, e), rest) && Run(Apply(s, e), rest) == end
    ensures Runs(s, [e] + rest) && Run(s, [e] + rest) == end
  {
    assert ([e] + rest)[1..] == rest;
  }

  // ---------------------------------------------------------------- when exactly one call terminates

  /** A step that the pipeline's promise of exactly one termination does not survive. */
  predicate Fault(e: Event) {
    || e.Crash? || e.UpdateFails? || e.CommitFails? || e.CommitLost? || e.DeactivateElsewhere?
    || (e.FetchRow? && !e.fetch.RowFound?)
    || (e.RunEffects? && !e.ok)
  }

  /** Past the lock, and the match not yet closed by it. */
  predicate AboutToClose(call: Call) { call.Locked? || call.Updated? }

  predicate Beginning(call: Call) { call.NotStarted? || call.Acquiring? }

  /** While the match is open some call past the lock is still at work, or nobody has got there yet. */
  ghost predicate OpenMatch(s: State) {
    && s.effects == 0
    && (forall c :: 0 <= c < |s.calls| ==>
          Beginning(s.calls[c]) || AboutToClose(s.calls[c]) || s.calls[c] == Finished(ReturnedFalse))
    && (s.lock.Held? || (exists c :: 0 <= c < |s.calls| && s.calls[c].Finished?) ==>
          exists c :: 0 <= c < |s.calls| && AboutToClose(s.calls[c]))
  }

  /** Once it is closed, the call that closed it is on its way to returning True, or has done so. */
  ghost predicate ClosedMatch(s: State) {
    && s.closedBy.Some? && s.closedBy.value < |s.calls| && Won(s.calls[s.closedBy.value])
    && s.effects == if TrueReturned(s.calls[s.closedBy.value]) then 1 else 0
  }

  ghost predicate OnTrack(s: State) {
    && (if s.active then OpenMatch(s) else ClosedMatch(s))
    && forall c :: 0 <= c < |s.calls| ==> !s.calls[c].Crashed?
  }

  lemma StepOpen(s: State, e: Event)
    requires Row(s) && OnTrack(s) && s.active && Enabled(s, e) && !Fault(e)
    ensures OnTrack(Apply(s, e))
  {
    var t := Apply(s, e);
    if t.active {
      forall c | 0 <= c < |t.calls|
        ensures Beginning(t.calls[c]) || AboutToClose(t.calls[c]) || t.calls[c] == Finished(ReturnedFalse)
        ensures AboutToClose(s.calls[c]) ==> AboutToClose(t.calls[c])
      {
        if Actor(e) != Some(c) {
          OnlyActorMoves(s, e, c);
        }
      }
      if t.lock.Held? || exists c :: 0 <= c < |t.calls| && t.calls[c].Finished? {
        SomebodyAtWork(s, e);
      }
    }
  }

  lemma SomebodyAtWork(s: State, e: Event)
    requires OpenMatch(s) && s.active && Enabled(s, e) && !Fault(e) && Apply(s, e).active
    requires
      var t := Apply(s, e);
      t.lock.Held? || exists c :: 0 <= c < |t.calls| && t.calls[c].Finished?
    ensures exists c :: 0 <= c < |s.calls| && AboutToClose(Apply(s, e).calls[c])
  {
    var t := Apply(s, e);
    if e.TryLock? && !LockLive(s) {
      assert AboutToClose(t.calls[e.c]);
    } else {
      var c :| 0 <= c < |s.calls| && AboutToClose(s.calls[c]);
      assert AboutToClose(t.calls[c]);
    }
  }

  lemma StepClosed(s: State, e: Event)
    requires Row(s) && Closing(s) && OnTrack(s) && !s.active && Enabled(s, e) && !Fault(e)
    ensures OnTrack(Apply(s, e))
  {
    var t, w := Apply(s, e), s.closedBy.value;
    if Actor(e) != Some(w) {
      OnlyActorMoves(s, e, w);
    }
    forall c | 0 <= c < |t.calls| ensures !t.calls[c].Crashed? {
      if Actor(e) != Some(c) {
        OnlyActorMoves(s, e, c);
      }
    }
  }

  lemma {:induction false} RunOnTrack(s: State, events: seq<Event>)
    requires Row(s) && Closing(s) && OnTrack(s) && Runs(s, events)
    requires forall i :: 0 <= i < |events| ==> !Fault(events[i])
    ensures OnTrack(Run(s, events)) && |Run(s, events).calls| == |s.calls|
    decreases |events|
  {
    if events != [] {
      StepRow(s, events[0]);
      StepClosing(s, events[0]);
      if s.active {
        StepOpen(s, events[0]);
      } else {
        StepClosed(s, events[0]);
      }
      RunOnTrack(Apply(s, events[0]), events[1..]);
    }
  }

  /** A failure the call passes on to its caller. */
  predicate Raises(e: Event) {
    || e.UpdateFails? || e.CommitFails? || e.CommitLost?
    || (e.FetchRow? && e.fetch.FetchFails?)
    || (e.RunEffects? && !e.ok)
  }

  predicate FailedIn(events: seq<Event>, w: nat) {
    exists i :: 0 <= i < |events| && Raises(events[i]) && Actor(events[i]) == Some(w)
  }

  predicate HasRaised(call: Call) { (call.Releasing? || call.Finished?) && call.outcome == Raised }

  lemma StepRaised(s: State, e: Event, w: nat)
    requires w < |s.calls| && Enabled(s, e)
    ensures
      var now := Apply(s, e).calls[w];
      if s.calls[w].Crashed? then now.Crashed?
      else now.Crashed? || (HasRaised(now) <==> HasRaised(s.calls[w]) || (Raises(e) && Actor(e) == Some(w)))
  {
    if Actor(e) != Some(w) {
      OnlyActorMoves(s, e, w);
    }
  }

  lemma FailedFirst(events: seq<Event>, w: nat)
    requires events != []
    ensures FailedIn(events, w) <==> (Raises(events[0]) && Actor(events[0]) == Some(w)) || FailedIn(events[1..], w)
  {
    var more := events[1..];
    assert forall i :: 0 <= i < |more| ==> more[i] == events[i + 1];
    if FailedIn(events, w) {
      var i :| 0 <= i < |events| && Raises(events[i]) && Actor(events[i]) == Some(w);
      if i > 0 {
        assert more[i - 1] == events[i];
      }
    }
  }

  lemma {:induction false} CrashedStays(s: State, events: seq<Event>, w: nat)
    requires w < |s.calls| && Runs(s, events) && s.calls[w].Crashed?
    ensures |Run(s, events).calls| == |s.calls| && Run(s, events).calls[w].Crashed?
    decreases |events|
  {
    if events != [] {
      StepRaised(s, events[0], w);
      CrashedStays(Apply(s, events[0]), events[1..], w);
    }
  }

  lemma {:induction false} RaisedSince(s: State, events: seq<Event>, w: nat)
    requires w < |s.calls| && Runs(s, events)
    ensures |Run(s, events).calls| == |s.calls|
    ensures Run(s, events).calls[w].Crashed? ||
            (HasRaised(Run(s, events).calls[w]) <==> HasRaised(s.calls[w]) || FailedIn(events, w))
    decreases |events|
  {
    if events != [] {
      var t := Apply(s, events[0]);
      StepRaised(s, events[0], w);
      FailedFirst(events, w);
      RaisedSince(t, events[1..], w);
      if t.calls[w].Crashed? {
        CrashedStays(t, events[1..], w);
      }
    }
  }

  /** In every run, a finished call has raised exactly when a failure struck that call. */
  lemma RaisesIff(s: State, events: seq<Event>, w: nat)
    requires Initial(s) && Runs(s, events) && w < |s.calls|
    ensures |Run(s, events).calls| == |s.calls|
    ensures Run(s, events).calls[w].Finished? ==>
              (Run(s, events).calls[w] == Finished(Raised) <==> FailedIn(events, w))
  {
    RaisedSince(s, events, w);
  }

  /**
   * The promise of the pipeline: when no call crashes or fails and nobody else closes the match, then
   * however the calls interleave and the lock expires, once all are finished the match is closed, the
   * side effects have been run exactly once, exactly one call has returned True, and all others False.
   */
  lemma ExactlyOneTermination(s: State, events: seq<Event>) returns (winner: nat)
    requires Initial(s) && s.calls != [] && Runs(s, events)
    requires forall i :: 0 <= i < |events| ==> !Fault(events[i])
    requires forall c :: 0 <= c < |Run(s, events).calls| ==> Run(s, events).calls[c].Finished?
    ensures
      var r := Run(s, events);
      && !r.active && r.effects == 1 && r.deactivations == 1
      && winner < |r.calls|
      && forall c :: 0 <= c < |r.calls| ==> r.calls[c] == Finished(if c == winner then ReturnedTrue else ReturnedFalse)
  {
    InitialInv(s);
    RunOnTrack(s, events);
    AtMostOneTermination(s, events);
    var r := Run(s, events);
    assert r.calls[0].Finished?;
    winner := r.closedBy.value;
    forall c | 0 <= c < |r.calls|
      ensures r.calls[c] == Finished(if c == winner then ReturnedTrue else ReturnedFalse)
    {
      RaisesIff(s, events, c);
    }
  }

  predicate Ended(call: Call) { call.Finished? || call.Crashed? }

  const ALONE := State(0, Free, {}, true, None, [NotStarted], 0, 0, None)

  lemma {:induction false} RunMore(s: State, events: seq<Event>, e: Event)
    requires Runs(s, events) && Enabled(Run(s, events), e)
    ensures Runs(s, events + [e]) && Run(s, events + [e]) == Apply(Run(s, events), e)
    decreases |events|
  {
    if events == [] {
      assert [] + [e] == [e] && [e][1..] == [];
    } else {
      assert (events + [e])[1..] == events[1..] + [e];
      RunMore(Apply(s, events[0]), events[1..], e);
    }
  }

  /** A call on its own up to its step `n`. */
  function Steps(n: nat): seq<Event>
    requires n <= 5
  {
    if n == 0 then []
    else Steps(n - 1) + [
        if n == 1 then Begin(0, 0, false)
        else if n == 2 then TryLock(0)
        else if n == 3 then Update(0)
        else if n == 4 then Commit(0)
        else FetchRow(0, RowFound)
      ]
  }

  function StateAfter(n: nat): State
    requires n <= 5
  {
    var closed := n >= 4;
    State(0, if n < 2 then Free else Held(0, MATCH_LOCK_TTL_MS), if n == 0 then {} else {0}, !closed,
          if n == 3 then Some(0) else None,
          [if n == 0 then NotStarted else if n == 1 then Acquiring(0, false, 0) else if n == 2 then Locked(0)
           else if n == 3 then Updated(0) else if n == 4 then Committed(0) else Winner(0)],
          if closed then 1 else 0, 0, if closed then Some(0) else None)
  }

  lemma {:induction false} StepsRun(n: nat)
    requires n <= 5
    ensures Runs(ALONE, Steps(n)) && Run(ALONE, Steps(n)) == StateAfter(n)
    ensures |Steps(n)| == n && forall i :: 0 <= i < n ==> !Fault(Steps(n)[i])
  {
    if n > 0 {
      StepsRun(n - 1);
      RunMore(ALONE, Steps(n - 1), Steps(n)[n - 1]);
    }
  }

  /** How far a call has come when the fault strikes. */
  function StruckAt(fault: Event): nat {
    match fault
    case UpdateFails(_) => 2
    case DeactivateElsewhere => 2
    case CommitFails(_) => 3
    case CommitLost(_) => 3
    case RunEffects(_, _) => 5
    case _ => 4
  }

  /** What the call still does after the fault. */
  function AfterFault(fault: Event): seq<Event> {
    if fault.Crash? then []
    else if fault.DeactivateElsewhere? then [Update(0), Release(0, true)]
    else [Release(0, true)]
  }

  function FaultyRun(fault: Event): seq<Event> { Steps(StruckAt(fault)) + [fault] + AfterFault(fault) }

  lemma OnlyFault(fault: Event)
    requires Fault(fault)
    ensures forall i :: 0 <= i < |FaultyRun(fault)| ==> (Fault(FaultyRun(fault)[i]) <==> i == StruckAt(fault))
  {
    StepsRun(StruckAt(fault));
  }

  lemma FaultyRunEnds(fault: Event)
    requires Fault(fault) && (fault.DeactivateElsewhere? || fault.c == 0)
    ensures Runs(ALONE, FaultyRun(fault))
    ensures
      var struck := Apply(StateAfter(StruckAt(fault)), fault);
      Run(ALONE, FaultyRun(fault)) ==
        if fault.Crash? then struck
        else if fault.DeactivateElsewhere? then Apply(Apply(struck, Update(0)), Release(0, true))
        else Apply(struck, Release(0, true))
  {
    var n := StruckAt(fault);
    var struck := Steps(n) + [fault];
    StepsRun(n);
    RunMore(ALONE, Steps(n), fault);
    if fault.Crash? {
      assert struck + [] == struck;
    } else if fault.DeactivateElsewhere? {
      RunMore(ALONE, struck, Update(0));
      RunMore(ALONE, struck + [Update(0)], Release(0, true));
      assert struck + [Update(0)] + [Release(0, true)] == struck + [Update(0), Release(0, true)];
    } else {
      RunMore(ALONE, struck, Release(0, true));
    }
  }

  /**
   * Every one of these faults alone breaks the promise: there is a run of a single call in which it is
   * the only fault, no call returns True, and the side effects are not run unless they are what fails.
   */
  lemma EveryFaultBreaksThePromise(fault: Event)
    requires Fault(fault) && (fault.DeactivateElsewhere? || fault.c == 0)
    ensures
      var events := FaultyRun(fault);
      && Initial(ALONE) && Runs(ALONE, events)
      && (forall i :: 0 <= i < |events| ==> (Fault(events[i]) <==> i == StruckAt(fault)))
      && var r := Run(ALONE, events);
      && |r.calls| == 1 && Ended(r.calls[0]) && !TrueReturned(r.calls[0])
      && (r.effects == 0 || fault.RunEffects?)
      && (!r.active || fault.UpdateFails? || fault.CommitFails?)
  {
    OnlyFault(fault);
    FaultyRunEnds(fault);
  }

  // ---------------------------------------------------------------- which call returns True

  /** A fault strikes the call itself. */
  predicate Struck(events: seq<Event>, w: nat) {
    exists i :: 0 <= i < |events| && Fault(events[i]) && Actor(events[i]) == Some(w)
  }

  /** The call can no longer win: it failed, lost, gave up or crashed. */
  predicate Lost(call: Call) {
    call.Crashed? || ((call.Releasing? || call.Finished?) && call.outcome != ReturnedTrue)
  }

  lemma StepLost(s: State, e: Event, w: nat)
    requires w < |s.calls| && Enabled(s, e) && Lost(s.calls[w])
    ensures Lost(Apply(s, e).calls[w]) && e != Commit(w)
  {
    if Actor(e) != Some(w) {
      OnlyActorMoves(s, e, w);
    }
  }

  lemma {:induction false} LostStaysLost(s: State, events: seq<Event>, w: nat)
    requires w < |s.calls| && Runs(s, events) && Lost(s.calls[w])
    ensures |Run(s, events).calls| == |s.calls| && Lost(Run(s, events).calls[w])
    decreases |events|
  {
    if events != [] {
      StepLost(s, events[0], w);
      LostStaysLost(Apply(s, events[0]), events[1..], w);
    }
  }

  /** A call wins by its commit, keeps that without a fault of its own, and loses it by one. */
  lemma StepWon(s: State, e: Event, w: nat)
    requires w < |s.calls| && Enabled(s, e)
    ensures
      var now := Apply(s, e).calls[w];
      if Fault(e) && Actor(e) == Some(w) then Lost(now)
      else Won(now) <==> Won(s.calls[w]) || e == Commit(w)
  {
    if Actor(e) != Some(w) {
      OnlyActorMoves(s, e, w);
    }
  }

  lemma {:induction false} WonIff(s: State, events: seq<Event>, w: nat)
    requires w < |s.calls| && Runs(s, events)
    ensures |Run(s, events).calls| == |s.calls|
    ensures Won(Run(s, events).calls[w]) <==> (Won(s.calls[w]) || Commit(w) in events) && !Struck(events, w)
    decreases |events|
  {
    if events != [] {
      var e, more := events[0], events[1..];
      StepWon(s, e, w);
      WonIff(Apply(s, e), more, w);
      StruckFirst(events, w);
      if Fault(e) && Actor(e) == Some(w) {
        LostStaysLost(Apply(s, e), more, w);
      }
    }
  }

  lemma StruckFirst(events: seq<Event>, w: nat)
    requires events != []
    ensures Struck(events, w) <==> (Fault(events[0]) && Actor(events[0]) == Some(w)) || Struck(events[1..], w)
  {
    var more := events[1..];
    assert forall i :: 0 <= i < |more| ==> more[i] == events[i + 1];
    if Struck(events, w) {
      var i :| 0 <= i < |events| && Fault(events[i]) && Actor(events[i]) == Some(w);
      if i > 0 {
        assert more[i - 1] == events[i];
      }
    }
  }

  /**
   * Whatever faults a run has: once all calls have ended, a call has returned True exactly when its own
   * commit closed the match and no fault struck that call; faults of the other calls do no harm. So
   * the promise of exactly one is kept exactly when there is such a call.
   */
  lemma ReturnsTrueIff(s: State, events: seq<Event>, w: nat)
    requires Initial(s) && Runs(s, events) && w < |s.calls|
    requires forall c :: 0 <= c < |Run(s, events).calls| ==> Ended(Run(s, events).calls[c])
    ensures |Run(s, events).calls| == |s.calls|
    ensures
      var r := Run(s, events);
      && (TrueReturned(r.calls[w]) <==> Commit(w) in events && !Struck(events, w))
      && (TrueReturned(r.calls[w]) ==>
            && !r.active && r.effects == 1
            && forall c :: 0 <= c < |r.calls| && TrueReturned(r.calls[c]) ==> c == w)
  {
    WonIff(s, events, w);
    AtMostOneTermination(s, events);
  }

  // ---------------------------------------------------------------- waiting for the lock

  /**
   * Whoever finds no live lock gets it, for ten seconds; who finds one gives up at once, or, when
   * acting for a user, at the deadline.
   */
  lemma TryLockOutcome(s: State, c: nat)
    requires Enabled(s, TryLock(c))
    ensures
      var t, call := Apply(s, TryLock(c)), s.calls[c];
      if !LockLive(s) then
        t.calls[c] == Locked(call.token) && t.lock == Held(call.token, s.now + 10_000) && OwnsLock(t, c)
      else
        && t.lock == s.lock
        && (t.calls[c] == Finished(ReturnedFalse) <==> !call.manual || s.now >= call.deadline)
        && (t.calls[c] != Finished(ReturnedFalse) ==> t == s)
  {
  }

  lemma {:induction false} StillAcquiring(s: State, events: seq<Event>, c: nat)
    requires c < |s.calls| && Runs(s, events) && !s.calls[c].NotStarted?
    ensures |Run(s, events).calls| == |s.calls| && !Run(s, events).calls[c].NotStarted?
    ensures Run(s, events).calls[c].Acquiring? ==> Run(s, events).calls[c] == s.calls[c]
    decreases |events|
  {
    if events != [] {
      var t := Apply(s, events[0]);
      if Actor(events[0]) != Some(c) {
        OnlyActorMoves(s, events[0], c);
      }
      StillAcquiring(t, events[1..], c);
    }
  }

  /** A call for a user never gives up the lock before five seconds have passed since it began. */
  lemma UserCallsWait(s: State, c: nat, token: nat, events: seq<Event>)
    requires Enabled(s, Begin(c, token, true)) && Runs(Apply(s, Begin(c, token, true)), events)
    requires Enabled(Run(Apply(s, Begin(c, token, true)), events), TryLock(c))
    ensures
      var r := Run(Apply(s, Begin(c, token, true)), events);
      Apply(r, TryLock(c)).calls[c] == Finished(ReturnedFalse) ==> r.now >= s.now + 5_000
  {
    StillAcquiring(Apply(s, Begin(c, token, true)), events, c);
  }

  /** A release that reaches the server frees the lock of its owner and nobody else's. */
  lemma ReleaseFreesOwnLock(s: State, c: nat)
    requires Enabled(s, Release(c, true))
    ensures
      var t := Apply(s, Release(c, true));
      && (if OwnsLock(s, c) then t.lock.Free? else t.lock == s.lock)
      && t.calls[c] == Finished(s.calls[c].outcome)
  {
  }
}
