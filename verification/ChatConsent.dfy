/**
 * The consent handshake (bot/handlers/anonymous_chat.py): both partners of a match answer whether to
 * open the anonymous chat. The two handlers run at the same time, each in its own session: it reads
 * the row, commits its own answer, refreshes, and opens the chat when it sees both flags.
 */
module ChatConsent {

  datatype Side = One | Two

  /** The row of the match, as committed. */
  datatype Row = Row(active: bool, chatApproved: bool, oneApproved: bool, twoApproved: bool)

  datatype Phase =
    | NotStarted
    | HasRead                                   // found the match active and not yet approved
    | HasCommitted                              // own approval committed, not refreshed yet
    | HasRefreshed(both: bool)
    | Opened
    | Waiting                                   // saw only its own approval
    | Rejected
    | TurnedAway                                // match inactive or chat already open when read

  datatype State = State(row: Row, one: Phase, two: Phase, chatting: bool)

  /** What each partner answers. */
  datatype Answers = Answers(one: bool, two: bool)

  datatype Event = Step(side: Side) | DeactivateElsewhere

  function Answer(a: Answers, side: Side): bool { if side.One? then a.one else a.two }

  function PhaseOf(s: State, side: Side): Phase { if side.One? then s.one else s.two }

  function WithPhase(s: State, side: Side, p: Phase): State {
    if side.One? then s.(one := p) else s.(two := p)
  }

  function Approve(row: Row, side: Side): Row {
    if side.One? then row.(oneApproved := true) else row.(twoApproved := true)
  }

  predicate Done(p: Phase) { p.Opened? || p.Waiting? || p.Rejected? || p.TurnedAway? }

  predicate Enabled(s: State, e: Event) { e.Step? ==> !Done(PhaseOf(s, e.side)) }

  /** The next step of a handler. */
  function Advance(a: Answers, s: State, side: Side): State
    requires !Done(PhaseOf(s, side))
  {
    match PhaseOf(s, side)
    case NotStarted =>
      WithPhase(s, side, if !s.row.active || s.row.chatApproved then TurnedAway else HasRead)
    case HasRead =>
      if Answer(a, side) then WithPhase(s.(row := Approve(s.row, side)), side, HasCommitted)
      else WithPhase(s.(row := s.row.(active := false)), side, Rejected)
    case HasCommitted => WithPhase(s, side, HasRefreshed(s.row.oneApproved && s.row.twoApproved))
    case HasRefreshed(both) =>
      if both then
        WithPhase(s.(row := s.row.(chatApproved := true, oneApproved := true, twoApproved := true), chatting := true),
                  side, Opened)
      else WithPhase(s, side, Waiting)
  }

  function Apply(a: Answers, s: State, e: Event): State
    requires Enabled(s, e)
  {
    match e
    case Step(side) => Advance(a, s, side)
    case DeactivateElsewhere => s.(row := s.row.(active := false))
  }

  predicate Runs(a: Answers, s: State, events: seq<Event>)
    decreases |events|
  {
    events == [] || (Enabled(s, events[0]) && Runs(a, Apply(a, s, events[0]), events[1..]))
  }

  function Run(a: Answers, s: State, events: seq<Event>): State
    requires Runs(a, s, events)
    decreases |events|
  {
    if events == [] then s else Run(a, Apply(a, s, events[0]), events[1..])
  }

  const START := State(Row(true, false, false, false), NotStarted, NotStarted, false)

  // ---------------------------------------------------------------- invariants

  predicate Flag(row: Row, side: Side) { if side.One? then row.oneApproved else row.twoApproved }

  function Other(side: Side): Side { if side.One? then Two else One }

  /** A flag is set only by its owner's approval; the chat is open only with both flags set. */
  predicate SideSafe(a: Answers, s: State, side: Side) {
    var p := PhaseOf(s, side);
    && (Flag(s.row, side) ==> Answer(a, side))
    && (Flag(s.row, side) <==> p.HasCommitted? || p.HasRefreshed? || p.Opened? || p.Waiting?)
    && ((p.HasRefreshed? && p.both) || p.Opened? ==> Flag(s.row, One) && Flag(s.row, Two))
    && (p.Opened? ==> s.row.chatApproved)
    && (p.Rejected? ==> !Answer(a, side))
  }

  predicate Safe(a: Answers, s: State) {
    && SideSafe(a, s, One) && SideSafe(a, s, Two)
    && (s.row.chatApproved <==> s.one.Opened? || s.two.Opened?)
    && (s.chatting <==> s.row.chatApproved)
  }

  /** A side that saw only its own flag was refreshed before the other side committed. */
  predicate SeesLater(s: State, side: Side) {
    var p, q := PhaseOf(s, side), PhaseOf(s, Other(side));
    ((p.HasRefreshed? && !p.both) || p.Waiting?) ==>
      || q.NotStarted? || q.HasRead? || q.HasCommitted? || (q.HasRefreshed? && q.both)
      || q.Opened? || q.Rejected? || q.TurnedAway?
  }

  /** As long as nobody else deactivates the match, only a rejection closes it. */
  predicate Undisturbed(a: Answers, s: State) {
    && SeesLater(s, One) && SeesLater(s, Two)
    && (s.row.active <==> !s.one.Rejected? && !s.two.Rejected?)
    && (s.one.TurnedAway? ==> s.two.Rejected?)
    && (s.two.TurnedAway? ==> s.one.Rejected?)
  }

  lemma StepSafe(a: Answers, s: State, e: Event)
    requires Safe(a, s) && Enabled(s, e)
    ensures Safe(a, Apply(a, s, e))
  {
  }

  lemma {:induction false} RunSafe(a: Answers, s: State, events: seq<Event>)
    requires Safe(a, s) && Runs(a, s, events)
    ensures Safe(a, Run(a, s, events))
    decreases |events|
  {
    if events != [] {
      StepSafe(a, s, events[0]);
      RunSafe(a, Apply(a, s, events[0]), events[1..]);
    }
  }

  lemma StepUndisturbed(a: Answers, s: State, side: Side)
    requires Safe(a, s) && Undisturbed(a, s) && !Done(PhaseOf(s, side))
    ensures Undisturbed(a, Advance(a, s, side))
  {
  }

  lemma {:induction false} RunUndisturbed(a: Answers, s: State, events: seq<Event>)
    requires Safe(a, s) && Undisturbed(a, s) && Runs(a, s, events)
    requires forall i :: 0 <= i < |events| ==> events[i].Step?
    ensures Undisturbed(a, Run(a, s, events))
    decreases |events|
  {
    if events != [] {
      StepSafe(a, s, events[0]);
      StepUndisturbed(a, s, events[0].side);
      RunUndisturbed(a, Apply(a, s, events[0]), events[1..]);
    }
  }

  // ---------------------------------------------------------------- main results

  /**
   * Whatever the order of steps, and even if the match is closed from outside, a handler opens the
   * chat only when both partners have approved and both flags are committed.
   */
  lemma OpensOnlyWithBothFlags(a: Answers, events: seq<Event>)
    requires Runs(a, START, events)
    ensures
      var r := Run(a, START, events);
      && (r.one.Opened? || r.two.Opened? ==> r.row.oneApproved && r.row.twoApproved && a.one && a.two)
      && (r.chatting <==> r.one.Opened? || r.two.Opened?)
  {
    RunSafe(a, START, events);
  }

  /**
   * No activation is lost: when both handlers are done and nobody else closed the match, the chat is
   * open exactly when both partners approved.
   */
  lemma OpensExactlyWhenBothApprove(a: Answers, events: seq<Event>)
    requires Runs(a, START, events) && forall i :: 0 <= i < |events| ==> events[i].Step?
    requires Done(Run(a, START, events).one) && Done(Run(a, START, events).two)
    ensures
      var r := Run(a, START, events);
      && (r.chatting <==> a.one && a.two)
      && (r.one.Opened? || r.two.Opened? <==> a.one && a.two)
      && (r.row.active <==> a.one && a.two)
  {
    RunSafe(a, START, events);
    RunUndisturbed(a, START, events);
  }

  predicate Committed(p: Phase) { p.HasCommitted? || Refreshed(p) }

  predicate Refreshed(p: Phase) { p.HasRefreshed? || p.Opened? || p.Waiting? }

  /** In some state of the run the handler has refreshed while the other one has not committed. */
  predicate RefreshedFirst(a: Answers, s: State, events: seq<Event>, side: Side)
    requires Runs(a, s, events)
    decreases |events|
  {
    || (Refreshed(PhaseOf(s, side)) && !Committed(PhaseOf(s, Other(side))))
    || (events != [] && RefreshedFirst(a, Apply(a, s, events[0]), events[1..], side))
  }

  /** The handler has seen only its own flag. */
  predicate SawOne(p: Phase) { p.Waiting? || (p.HasRefreshed? && !p.both) }

  lemma StepSawOne(a: Answers, s: State, e: Event, side: Side)
    requires Safe(a, s) && Enabled(s, e) && a.one && a.two && e.Step?
    ensures
      var t := Apply(a, s, e);
      SawOne(PhaseOf(t, side)) <==>
        SawOne(PhaseOf(s, side)) || (Refreshed(PhaseOf(t, side)) && !Committed(PhaseOf(t, Other(side))))
  {
  }

  lemma {:induction false} SawOneMeans(a: Answers, s: State, events: seq<Event>, side: Side)
    requires Safe(a, s) && Runs(a, s, events) && a.one && a.two
    requires forall i :: 0 <= i < |events| ==> events[i].Step?
    ensures SawOne(PhaseOf(Run(a, s, events), side)) <==>
              SawOne(PhaseOf(s, side)) || RefreshedFirst(a, s, events, side)
    decreases |events|
  {
    if events != [] {
      StepSafe(a, s, events[0]);
      StepSawOne(a, s, events[0], side);
      SawOneMeans(a, Apply(a, s, events[0]), events[1..], side);
    }
  }

  /**
   * Both approve and nobody else closes the match: a handler leaves the opening to the other one
   * exactly when it refreshed before the other one committed; so both handlers open the chat exactly
   * when neither did.
   */
  lemma BothOpenIff(a: Answers, events: seq<Event>)
    requires a.one && a.two
    requires Runs(a, START, events) && forall i :: 0 <= i < |events| ==> events[i].Step?
    requires Done(Run(a, START, events).one) && Done(Run(a, START, events).two)
    ensures
      var r := Run(a, START, events);
      && (r.one.Opened? <==> !RefreshedFirst(a, START, events, One))
      && (r.two.Opened? <==> !RefreshedFirst(a, START, events, Two))
      && !(RefreshedFirst(a, START, events, One) && RefreshedFirst(a, START, events, Two))
  {
    RunSafe(a, START, events);
    RunUndisturbed(a, START, events);
    SawOneMeans(a, START, events, One);
    SawOneMeans(a, START, events, Two);
  }

  /** Both handlers may open the chat: when both commit before either refreshes. */
  lemma BothMayOpen()
    ensures exists events ::
      Runs(Answers(true, true), START, events) &&
      Run(Answers(true, true), START, events).one.Opened? && Run(Answers(true, true), START, events).two.Opened?
  {
    var a, x, y := Answers(true, true), Step(One), Step(Two);
    var s2 := Advance(a, Advance(a, START, One), Two);
    var s4 := Advance(a, Advance(a, s2, One), Two);
    var s6 := Advance(a, Advance(a, s4, One), Two);
    var s8 := Advance(a, Advance(a, s6, One), Two);
    TwoMore(a, s6, [], s8);
    TwoMore(a, s4, [x, y], s8);
    TwoMore(a, s2, [x, y, x, y], s8);
    TwoMore(a, START, [x, y, x, y, x, y], s8);
  }

  lemma TwoMore(a: Answers, s: State, rest: seq<Event>, end: State)
    requires !Done(s.one) && !Done(Advance(a, s, One).two)
    requires Runs(a, Advance(a, Advance(a, s, One), Two), rest)
    requires Run(a, Advance(a, Advance(a, s, One), Two), rest) == end
    ensures Runs(a, s, [Step(One), Step(Two)] + rest) && Run(a, s, [Step(One), Step(Two)] + rest) == end
  {
    var events := [Step(One), Step(Two)] + rest;
    assert events[1..] == [Step(Two)] + rest;
    assert events[1..][1..] == rest;
  }

  // ---------------------------------------------------------------- handlers that come too late

  lemma {:induction false} DoneForGood(a: Answers, s: State, events: seq<Event>, side: Side)
    requires Runs(a, s, events) && Done(PhaseOf(s, side))
    ensures PhaseOf(Run(a, s, events), side) == PhaseOf(s, side)
    decreases |events|
  {
    if events != [] {
      DoneForGood(a, Apply(a, s, events[0]), events[1..], side);
    }
  }

  /**
   * A handler that has not read the row by the time the match is closed, or its chat open, does
   * nothing: it ends turned away; a handler that has read an open match never does.
   */
  lemma LateHandlerIsTurnedAway(a: Answers, before: seq<Event>, after: seq<Event>, side: Side)
    requires Runs(a, START, before) && PhaseOf(Run(a, START, before), side).NotStarted?
    requires Runs(a, Run(a, START, before), [Step(side)] + after)
    ensures
      var s := Run(a, START, before);
      var r := Run(a, s, [Step(side)] + after);
      PhaseOf(r, side).TurnedAway? <==> !s.row.active || s.row.chatApproved
  {
    var s := Run(a, START, before);
    var t := Apply(a, s, Step(side));
    assert ([Step(side)] + after)[1..] == after;
    if !s.row.active || s.row.chatApproved {
      DoneForGood(a, t, after, side);
    } else {
      NotTurnedAway(a, t, after, side);
    }
  }

  lemma {:induction false} NotTurnedAway(a: Answers, s: State, events: seq<Event>, side: Side)
    requires Runs(a, s, events) && !PhaseOf(s, side).NotStarted? && !PhaseOf(s, side).TurnedAway?
    ensures !PhaseOf(Run(a, s, events), side).TurnedAway?
    decreases |events|
  {
    if events != [] {
      NotTurnedAway(a, Apply(a, s, events[0]), events[1..], side);
    }
  }

  /** If the match is closed before either handler reads it, nobody opens the chat, whatever they answer. */
  lemma ClosedMatchNeverOpens(a: Answers, events: seq<Event>)
    requires Runs(a, START, [DeactivateElsewhere] + events)
    ensures
      var r := Run(a, START, [DeactivateElsewhere] + events);
      !r.chatting && !r.one.Opened? && !r.two.Opened? && !r.row.oneApproved && !r.row.twoApproved
  {
    assert ([DeactivateElsewhere] + events)[1..] == events;
    StaysShut(a, Apply(a, START, DeactivateElsewhere), events);
  }

  predicate Shut(s: State) {
    && !s.row.active && !s.row.oneApproved && !s.row.twoApproved && !s.chatting
    && (s.one.NotStarted? || s.one.TurnedAway?) && (s.two.NotStarted? || s.two.TurnedAway?)
  }

  lemma {:induction false} StaysShut(a: Answers, s: State, events: seq<Event>)
    requires Runs(a, s, events) && Shut(s)
    ensures Shut(Run(a, s, events))
    decreases |events|
  {
    if events != [] {
      StaysShut(a, Apply(a, s, events[0]), events[1..]);
    }
  }
}
