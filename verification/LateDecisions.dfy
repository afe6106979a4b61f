/**
 * The administrator's handlers read an order without a lock (bot/handlers/payments.py) and write their
 * decision later, when a callback or another administrator may have decided meanwhile. The same runs
 * as in CoinOrders, with each such decision in two steps.
 */
module LateDecisions {
  import opened Wrappers
  import opened CoinOrders

  datatype Move =
    | Step(e: Event)                 // anything but an administrator's decision
    | Reads(order: int)                         // the handler finds the order open
    | Writes(order: int, settle: bool, credited: nat)

  /** `seen`: the orders an administrator has found open. */
  datatype Desk = Desk(now: State, seen: set<int>)

  /** A write needs the row, not that it still is as it was read. */
  predicate CanWrite(cfg: Config, s: State, o: int, settle: bool) {
    o in s.orders && o !in s.locked && (settle ==> Payable(cfg, s, o))
  }

  function Written(cfg: Config, s: State, o: int, settle: bool, credited: nat): State
    requires CanWrite(cfg, s, o, settle)
  {
    if settle then Settle(cfg, s, o, credited, true, Completed) else WithStatus(s, o, Rejected)
  }

  predicate Enabled(cfg: Config, s: Desk, e: Move) {
    match e
    case Step(e) => !e.AdminVerifies? && !e.AdminRejects? && CoinOrders.Enabled(s.now, e)
    case Reads(o) => o in s.now.orders && Open(s.now.orders[o].status)
    case Writes(o, settle, _) => o in s.seen && CanWrite(cfg, s.now, o, settle)
  }

  function Apply(cfg: Config, s: Desk, e: Move): Desk
    requires Enabled(cfg, s, e)
  {
    match e
    case Step(e) => s.(now := CoinOrders.Apply(cfg, s.now, e))
    case Reads(o) => s.(seen := s.seen + {o})
    case Writes(o, settle, credited) => s.(now := Written(cfg, s.now, o, settle, credited))
  }

  predicate Runs(cfg: Config, s: Desk, events: seq<Move>)
    decreases |events|
  {
    events == [] || (Enabled(cfg, s, events[0]) && Runs(cfg, Apply(cfg, s, events[0]), events[1..]))
  }

  function Run(cfg: Config, s: Desk, events: seq<Move>): Desk
    requires Runs(cfg, s, events)
    decreases |events|
  {
    if events == [] then s else Run(cfg, Apply(cfg, s, events[0]), events[1..])
  }

  // ---------------------------------------------------------------- one late decision

  /** A decided order keeps its status. */
  predicate StaysDecided(s: State, t: State, o: int) {
    o in s.orders && !Open(s.orders[o].status) ==> o in t.orders && t.orders[o].status == s.orders[o].status
  }

  /** The write does no harm: the order is still open, or it is rejected again. */
  predicate Timely(s: State, o: int, settle: bool)
    requires o in s.orders
  {
    Open(s.orders[o].status) || (!settle && s.orders[o].status.Rejected?)
  }

  /** A late settlement or rejection keeps the credits in step with the status exactly if nobody has settled since. */
  lemma LateDecisionCreditsIff(cfg: Config, s: State, o: int, settle: bool, credited: nat)
    requires OnceAtMost(s, o) && CanWrite(cfg, s, o, settle)
    ensures OnceAtMost(Written(cfg, s, o, settle, credited), o) <==> !Settled(s.orders[o].status)
  {
    if settle {
      SettleCounts(cfg, s, o, credited, true, Completed, o);
    }
  }

  /** It leaves a decision standing exactly if there is none yet, or it is the same. */
  lemma LateDecisionFinalIff(cfg: Config, s: State, o: int, settle: bool, credited: nat)
    requires CanWrite(cfg, s, o, settle)
    ensures StaysDecided(s, Written(cfg, s, o, settle, credited), o) <==>
              || Open(s.orders[o].status)
              || s.orders[o].status == (if settle then Completed else Rejected)
  {
  }

  /** What one step has to keep: every order's credits in step with its status, and every decision. */
  ghost predicate Keeps(s: State, t: State) {
    (forall o :: OnceAtMost(t, o)) && (forall o :: StaysDecided(s, t, o))
  }

  ghost predicate Good(s: State) { LocksHoldPending(s) && forall o :: OnceAtMost(s, o) }

  lemma WriteKeepsIff(cfg: Config, s: State, o: int, settle: bool, credited: nat)
    requires Good(s) && CanWrite(cfg, s, o, settle)
    ensures Keeps(s, Written(cfg, s, o, settle, credited)) <==> Timely(s, o, settle)
  {
    var t := Written(cfg, s, o, settle, credited);
    LateDecisionCreditsIff(cfg, s, o, settle, credited);
    LateDecisionFinalIff(cfg, s, o, settle, credited);
    forall p | p != o ensures OnceAtMost(t, p) && StaysDecided(s, t, p) {
      assert OnceAtMost(s, p);
      if settle {
        SettleCounts(cfg, s, o, credited, true, Completed, p);
      }
    }
  }

  lemma WriteKeepsLocks(cfg: Config, s: State, o: int, settle: bool, credited: nat)
    requires LocksHoldPending(s) && CanWrite(cfg, s, o, settle)
    ensures LocksHoldPending(Written(cfg, s, o, settle, credited))
  {
  }

  lemma StepKeeps(cfg: Config, s: State, e: Event)
    requires Good(s) && CoinOrders.Enabled(s, e)
    ensures Good(CoinOrders.Apply(cfg, s, e)) && Keeps(s, CoinOrders.Apply(cfg, s, e))
  {
    var t := CoinOrders.Apply(cfg, s, e);
    StepLocks(cfg, s, e);
    forall o ensures OnceAtMost(t, o) && StaysDecided(s, t, o) {
      assert OnceAtMost(s, o);
      StepOnce(cfg, s, e, o);
      if o in s.orders && !Open(s.orders[o].status) {
        StepKeepsDecision(cfg, s, e, o);
      }
    }
  }

  // ---------------------------------------------------------------- whole runs

  /** Every step of the run keeps credits and decisions. */
  ghost predicate AllKept(cfg: Config, s: Desk, events: seq<Move>)
    requires Runs(cfg, s, events)
    decreases |events|
  {
    events == [] ||
    var t := Apply(cfg, s, events[0]);
    Keeps(s.now, t.now) && AllKept(cfg, t, events[1..])
  }

  /** Every decision written meets an order that is still open, or rejects a rejected one. */
  predicate AllTimely(cfg: Config, s: Desk, events: seq<Move>)
    requires Runs(cfg, s, events)
    decreases |events|
  {
    events == [] ||
    (&& (events[0].Writes? ==> Timely(s.now, events[0].order, events[0].settle))
     && AllTimely(cfg, Apply(cfg, s, events[0]), events[1..]))
  }

  /**
   * With decisions that rest on earlier reads, a run credits every order once exactly if it ends
   * approved or completed, at every step, and never reverses a decision, if and only if no decision
   * is written over another one.
   */
  lemma {:induction false} KeptIffTimely(cfg: Config, s: Desk, events: seq<Move>)
    requires Good(s.now) && Runs(cfg, s, events)
    ensures AllKept(cfg, s, events) <==> AllTimely(cfg, s, events)
    decreases |events|
  {
    if events != [] {
      var e, t := events[0], Apply(cfg, s, events[0]);
      match e
      case Step(step) =>
        StepKeeps(cfg, s.now, step);
        KeptIffTimely(cfg, t, events[1..]);
      case Reads(_) =>
        NothingWritten(s.now);
        KeptIffTimely(cfg, t, events[1..]);
      case Writes(o, settle, credited) =>
        WriteKeepsIff(cfg, s.now, o, settle, credited);
        WriteKeepsLocks(cfg, s.now, o, settle, credited);
        if Timely(s.now, o, settle) {
          KeptIffTimely(cfg, t, events[1..]);
        }
    }
  }

  lemma NothingWritten(s: State)
    requires Good(s)
    ensures Keeps(s, s)
  {
  }

  /** The run with every decision taken at the moment it is written. */
  function Atomic(events: seq<Move>): seq<Event> {
    if events == [] then []
    else
      (match events[0]
       case Step(e) => [e]
       case Reads(_) => []
       case Writes(o, settle, credited) => [if settle then AdminVerifies(o, credited, false) else AdminRejects(o)])
      + Atomic(events[1..])
  }

  /** A timely run is one of atomic decisions, so all that is proved of those holds of it. */
  lemma {:induction false} TimelyIsAtomic(cfg: Config, s: Desk, events: seq<Move>)
    requires Runs(cfg, s, events) && AllTimely(cfg, s, events)
    ensures CoinOrders.Runs(cfg, s.now, Atomic(events))
    ensures CoinOrders.Run(cfg, s.now, Atomic(events)) == Run(cfg, s, events).now
    decreases |events|
  {
    if events != [] {
      var e, rest := events[0], Atomic(events[1..]);
      TimelyIsAtomic(cfg, Apply(cfg, s, e), events[1..]);
      match e
      case Step(step) =>
        OneMore(cfg, s.now, step, rest);
      case Reads(_) =>
        assert Atomic(events) == rest;
      case Writes(o, settle, credited) =>
        var step := if settle then AdminVerifies(o, credited, false) else AdminRejects(o);
        WriteIsDecision(cfg, s.now, o, settle, credited);
        OneMore(cfg, s.now, step, rest);
    }
  }

  lemma WriteIsDecision(cfg: Config, s: State, o: int, settle: bool, credited: nat)
    requires CanWrite(cfg, s, o, settle) && Timely(s, o, settle)
    ensures
      var step := if settle then AdminVerifies(o, credited, false) else AdminRejects(o);
      CoinOrders.Enabled(s, step) && CoinOrders.Apply(cfg, s, step) == Written(cfg, s, o, settle, credited)
  {
    if !settle && s.orders[o].status.Rejected? {
      assert s.orders[o := s.orders[o].(status := Rejected)] == s.orders;
    }
  }

  lemma OneMore(cfg: Config, s: State, e: Event, rest: seq<Event>)
    requires CoinOrders.Enabled(s, e) && CoinOrders.Runs(cfg, CoinOrders.Apply(cfg, s, e), rest)
    ensures CoinOrders.Runs(cfg, s, [e] + rest)
    ensures CoinOrders.Run(cfg, s, [e] + rest) == CoinOrders.Run(cfg, CoinOrders.Apply(cfg, s, e), rest)
  {
    assert ([e] + rest)[1..] == rest;
  }

  // ---------------------------------------------------------------- a failing run

  /** The callback approves an order between the administrator's read and write. */
  function OvertakenRun(settle: bool): seq<Move> {
    [Step(Place(1, 7, 3, "A", false)), Step(CallbackBegins(1, "A", true)), Reads(1),
     Step(CallbackEnds(1, Verified, 100, false)), Writes(1, settle, 100)]
  }

  function Shop(): Config { Config(10, map[3 := 100]) }

  function Start(): Desk {
    Desk(State(map[], map[7 := Account(0, 0, 0, None)], [], [], {}), {})
  }

  /** After the callback: the order is approved and credited, and was seen open. */
  function Approval(): Desk {
    Desk(State(map[1 := Order(7, 3, "A", Approved)], map[7 := Account(100, 100, 0, None)],
                           [CoinTx(7, 100, 1, Bought)], [], {}), {1})
  }

  predicate Goes(cfg: Config, s: Desk, m: Move, next: Desk) { Enabled(cfg, s, m) && Apply(cfg, s, m) == next }

  lemma BeforeOneMore(cfg: Config, s: Desk, m: Move, rest: seq<Move>, end: Desk)
    requires Enabled(cfg, s, m) && Runs(cfg, Apply(cfg, s, m), rest) && Run(cfg, Apply(cfg, s, m), rest) == end
    ensures Runs(cfg, s, [m] + rest) && Run(cfg, s, [m] + rest) == end
  {
    assert ([m] + rest)[1..] == rest;
  }

  lemma FiveMoves(cfg: Config, m0: Move, m1: Move, m2: Move, m3: Move, m4: Move,
                  s0: Desk, s1: Desk, s2: Desk, s3: Desk, s4: Desk, s5: Desk)
    requires Goes(cfg, s0, m0, s1) && Goes(cfg, s1, m1, s2) && Goes(cfg, s2, m2, s3)
    requires Goes(cfg, s3, m3, s4) && Goes(cfg, s4, m4, s5)
    ensures Runs(cfg, s0, [m0, m1, m2, m3, m4]) && Run(cfg, s0, [m0, m1, m2, m3, m4]) == s5
  {
    BeforeOneMore(cfg, s4, m4, [], s5);
    assert [m4] + [] == [m4] && [m3] + [m4] == [m3, m4] && [m2] + [m3, m4] == [m2, m3, m4];
    BeforeOneMore(cfg, s3, m3, [m4], s5);
    BeforeOneMore(cfg, s2, m2, [m3, m4], s5);
    BeforeOneMore(cfg, s1, m1, [m2, m3, m4], s5);
    assert [m1] + [m2, m3, m4] == [m1, m2, m3, m4];
    BeforeOneMore(cfg, s0, m0, [m1, m2, m3, m4], s5);
    assert [m0] + [m1, m2, m3, m4] == [m0, m1, m2, m3, m4];
  }

  /** The order placed, and locked by the callback while the gateway is asked. */
  function Placed(locked: set<int>): State {
    State(map[1 := Order(7, 3, "A", Pending)], map[7 := Account(0, 0, 0, None)], [], [], locked)
  }

  lemma CallbackApproves()
    ensures Goes(Shop(), Desk(Placed({1}), {1}), Step(CallbackEnds(1, Verified, 100, false)), Approval())
  {
    var s := Placed({1});
    assert s.locked - {1} == {};
    assert s.accounts[7 := Account(100, 100, 0, None)] == map[7 := Account(100, 100, 0, None)];
    assert [] + [CoinTx(7, 100, 1, Bought)] == [CoinTx(7, 100, 1, Bought)];
    assert s.orders[1 := Order(7, 3, "A", Approved)] == map[1 := Order(7, 3, "A", Approved)];
  }

  lemma OrderIsPlaced()
    ensures Goes(Shop(), Start(), Step(Place(1, 7, 3, "A", false)), Desk(Placed({}), {}))
    ensures Goes(Shop(), Desk(Placed({}), {}), Step(CallbackBegins(1, "A", true)), Desk(Placed({1}), {}))
    ensures Goes(Shop(), Desk(Placed({1}), {}), Reads(1), Desk(Placed({1}), {1}))
  {
    var order := Order(7, 3, "A", Pending);
    assert map[][1 := order] == map[1 := order];
    assert {} + {1} == {1};
  }

  lemma LateWrite(settle: bool)
    ensures Enabled(Shop(), Approval(), Writes(1, settle, 100))
    ensures
      var r := Apply(Shop(), Approval(), Writes(1, settle, 100)).now;
      && Credits(r.coinLog, 1) == (if settle then 2 else 1)
      && 1 in r.orders && r.orders[1].status == (if settle then Completed else Rejected)
      && !OnceAtMost(r, 1) && !StaysDecided(Approval().now, r, 1)
  {
    var one := CoinTx(7, 100, 1, Bought);
    LogCoin([], one, 1, 7);
    LogCoin([one], one, 1, 7);
    assert [] + [one] == [one];
  }

  /**
   * The failing run: settled late, the order is credited a second time; rejected late, it is credited
   * and rejected, and the decision of the callback is reversed.
   */
  lemma OvertakenDecision(settle: bool)
    ensures Initial(Start().now) && Runs(Shop(), Start(), OvertakenRun(settle))
    ensures
      var r := Run(Shop(), Start(), OvertakenRun(settle)).now;
      && Credits(r.coinLog, 1) == (if settle then 2 else 1)
      && 1 in r.orders && r.orders[1].status == (if settle then Completed else Rejected)
      && !OnceAtMost(r, 1) && !StaysDecided(Approval().now, r, 1)
  {
    OrderIsPlaced();
    CallbackApproves();
    LateWrite(settle);
    FiveMoves(Shop(), Step(Place(1, 7, 3, "A", false)), Step(CallbackBegins(1, "A", true)), Reads(1),
              Step(CallbackEnds(1, Verified, 100, false)), Writes(1, settle, 100),
              Start(), Desk(Placed({}), {}), Desk(Placed({1}), {}), Desk(Placed({1}), {1}), Approval(),
              Apply(Shop(), Approval(), Writes(1, settle, 100)));
  }
}
