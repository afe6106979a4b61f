/**
 * VIP time accounting (services/vip_subscription.py): activation extends the running subscription,
 * a worker expires what is due, and the activity check reads the user's row. Instants and durations
 * are whole microseconds.
 */
module VipSubscription {
  import opened Wrappers

  const DAY: nat := 86_400_000_000
  const VIP_QUOTA := 5

  datatype VipUser = VipUser(isVip: bool, expiresAt: Option<int>, quota: int)

  datatype Sub = Sub(user: int, plan: string, startedAt: int, expiresAt: int, active: bool)

  datatype State = State(users: map<int, VipUser>, subs: seq<Sub>)

  datatype Activation = Activated | UnknownPlan | UnknownUser

  /** Duration of each plan in days. */
  type Plans = map<string, nat>

  function Deactivated(subs: seq<Sub>, user: int): (r: seq<Sub>)
    ensures |r| == |subs|
  {
    seq(|subs|, i requires 0 <= i < |subs| => if subs[i].user == user then subs[i].(active := false) else subs[i])
  }

  function NewExpiry(u: VipUser, now: int, duration: nat): int {
    if u.isVip && u.expiresAt.Some? && u.expiresAt.value > now then u.expiresAt.value + duration
    else now + duration
  }

  function Activate(plans: Plans, s: State, now: int, user: int, plan: string): (State, Activation) {
    if plan !in plans then (s, UnknownPlan)
    else if user !in s.users then (s, UnknownUser)
    else
      var expiry := NewExpiry(s.users[user], now, plans[plan] * DAY);
      (State(s.users[user := VipUser(true, Some(expiry), VIP_QUOTA)],
             Deactivated(s.subs, user) + [Sub(user, plan, now, expiry, true)]), Activated)
  }

  predicate IsVipActive(s: State, now: int, user: int) {
    user in s.users && s.users[user].isVip && s.users[user].expiresAt.Some? && s.users[user].expiresAt.value > now
  }

  predicate Due(sub: Sub, now: int) { sub.active && sub.expiresAt < now }

  /** The subscriptions after the worker has looked at the first `n`. */
  function Swept(subs: seq<Sub>, now: int, n: nat): (r: seq<Sub>)
    ensures |r| == |subs|
  {
    seq(|subs|, i requires 0 <= i < |subs| => if i < n && Due(subs[i], now) then subs[i].(active := false) else subs[i])
  }

  predicate HasActive(subs: seq<Sub>, user: int) {
    exists i :: 0 <= i < |subs| && subs[i].active && subs[i].user == user
  }

  predicate HadDue(subs: seq<Sub>, now: int, user: int, n: nat) {
    exists i :: 0 <= i < n && i < |subs| && Due(subs[i], now) && subs[i].user == user
  }

  /** Users lose their status when something of theirs was due and nothing active is left. */
  function Demoted(users: map<int, VipUser>, subs: seq<Sub>, now: int, n: nat): map<int, VipUser> {
    map u | u in users ::
      if HadDue(subs, now, u, n) && !HasActive(Swept(subs, now, n), u)
      then users[u].(isVip := false, quota := 0) else users[u]
  }

  function CountDue(subs: seq<Sub>, now: int, n: nat): nat
    requires n <= |subs|
  {
    if n == 0 then 0 else CountDue(subs, now, n - 1) + if Due(subs[n - 1], now) then 1 else 0
  }

  function Expire(s: State, now: int): State {
    State(Demoted(s.users, s.subs, now, |s.subs|), Swept(s.subs, now, |s.subs|))
  }

  class VipManager {
    const plans: Plans
    var users: map<int, VipUser>
    var subs: seq<Sub>

    constructor (plans: Plans, users: map<int, VipUser>)
      ensures this.plans == plans && Contents() == State(users, [])
    {
      this.plans, this.users, subs := plans, users, [];
    }

    function Contents(): State
      reads this
    {
      State(users, subs)
    }

    method ActivateSubscription(now: int, user: int, plan: string) returns (result: Activation)
      modifies this
      ensures (Contents(), result) == Activate(plans, old(Contents()), now, user, plan)
    {
      if plan !in plans {
        return UnknownPlan;
      }
      var expiry := now + plans[plan] * DAY;
      if user !in users {
        return UnknownUser;
      }
      var row := users[user];
      if row.isVip && row.expiresAt.Some? && row.expiresAt.value > now {
        expiry := row.expiresAt.value + plans[plan] * DAY;
      }
      subs := Deactivated(subs, user) + [Sub(user, plan, now, expiry, true)];
      users := users[user := VipUser(true, Some(expiry), VIP_QUOTA)];
      return Activated;
    }

    /** One due subscription after the other; the user is demoted once no other one is active. */
    method ExpireDueSubscriptions(now: int) returns (count: nat)
      modifies this
      ensures Contents() == Expire(old(Contents()), now)
      ensures count == CountDue(old(subs), now, |old(subs)|)
    {
      count := 0;
      var i := 0;
      while i < |subs|
        invariant 0 <= i <= |subs|
        invariant subs == Swept(old(subs), now, i)
        invariant users == Demoted(old(users), old(subs), now, i)
        invariant count == CountDue(old(subs), now, i)
      {
        var sub := subs[i];
        SweepStep(old(users), old(subs), now, i);
        if Due(sub, now) {
          subs := subs[i := sub.(active := false)];
          assert subs == Swept(old(subs), now, i + 1);
          if !HasActive(subs, sub.user) && sub.user in users {
            users := users[sub.user := users[sub.user].(isVip := false, quota := 0)];
          }
          count := count + 1;
        }
        i := i + 1;
      }
    }
  }

  /** One more subscription looked at: who still has an active one, and who had one due. */
  lemma SweepUser(subs: seq<Sub>, now: int, i: nat, u: int)
    requires i < |subs|
    ensures HadDue(subs, now, u, i + 1) <==> HadDue(subs, now, u, i) || (Due(subs[i], now) && subs[i].user == u)
    ensures subs[i].user != u || !Due(subs[i], now) ==>
              (HasActive(Swept(subs, now, i), u) <==> HasActive(Swept(subs, now, i + 1), u))
    ensures subs[i].user == u && Due(subs[i], now) ==> HasActive(Swept(subs, now, i), u)
  {
    var a, b := Swept(subs, now, i), Swept(subs, now, i + 1);
    assert forall k :: 0 <= k < |subs| && k != i ==> a[k] == b[k];
    assert a[i] == subs[i];
    if subs[i].user != u || !Due(subs[i], now) {
      if HasActive(a, u) {
        var k :| 0 <= k < |a| && a[k].active && a[k].user == u;
        assert b[k].active && b[k].user == u;
      }
      if HasActive(b, u) {
        var k :| 0 <= k < |b| && b[k].active && b[k].user == u;
        assert a[k].active && a[k].user == u;
      }
    }
  }

  lemma SweepStep(users: map<int, VipUser>, subs: seq<Sub>, now: int, i: nat)
    requires i < |subs|
    ensures
      var u := subs[i].user;
      var next := Demoted(users, subs, now, i + 1);
      if Due(subs[i], now) && !HasActive(Swept(subs, now, i + 1), u) && u in users
      then
        && next == Demoted(users, subs, now, i)[u := users[u].(isVip := false, quota := 0)]
        && Demoted(users, subs, now, i)[u] == users[u]
      else next == Demoted(users, subs, now, i)
  {
    forall u | u in users
      ensures HadDue(subs, now, u, i + 1) <==> HadDue(subs, now, u, i) || (Due(subs[i], now) && subs[i].user == u)
      ensures subs[i].user != u || !Due(subs[i], now) ==>
              (HasActive(Swept(subs, now, i), u) <==> HasActive(Swept(subs, now, i + 1), u))
      ensures subs[i].user == u && Due(subs[i], now) ==> HasActive(Swept(subs, now, i), u)
    {
      SweepUser(subs, now, i, u);
    }
  }

  // ---------------------------------------------------------------- purchases and the time they cover

  datatype Purchase = Purchase(time: int, duration: nat)

  /** A stretch of VIP time, `until` excluded. */
  datatype Interval = Interval(from: int, until: int)

  /** Each purchase covers its full duration, starting when the time covered before it ends. */
  function Cover(bought: seq<Purchase>): (cover: seq<Interval>)
    ensures |cover| == |bought|
  {
    if bought == [] then []
    else
      var before := Cover(bought[..|bought| - 1]);
      var last := bought[|bought| - 1];
      var end := if before != [] then before[|before| - 1].until else last.time;
      var from := if end > last.time then end else last.time;
      before + [Interval(from, from + last.duration)]
  }

  predicate Covered(cover: seq<Interval>, t: int) {
    exists i :: 0 <= i < |cover| && cover[i].from <= t < cover[i].until
  }

  function TotalLength(cover: seq<Interval>): int {
    if cover == [] then 0
    else TotalLength(cover[..|cover| - 1]) + (cover[|cover| - 1].until - cover[|cover| - 1].from)
  }

  function TotalBought(bought: seq<Purchase>): nat {
    if bought == [] then 0 else TotalBought(bought[..|bought| - 1]) + bought[|bought| - 1].duration
  }

  predicate InOrder(bought: seq<Purchase>) {
    forall i, j :: 0 <= i <= j < |bought| ==> bought[i].time <= bought[j].time
  }

  predicate Disjoint(cover: seq<Interval>) {
    forall i, j :: 0 <= i < j < |cover| ==> cover[i].until <= cover[j].from
  }

  predicate Starts(bought: seq<Purchase>, cover: seq<Interval>) {
    |cover| == |bought| && forall i :: 0 <= i < |bought| ==> bought[i].time <= cover[i].from <= cover[i].until
  }

  lemma ExtendDisjoint(cover: seq<Interval>, last: Interval)
    requires Disjoint(cover) && forall i :: 0 <= i < |cover| ==> cover[i].from <= cover[i].until
    requires cover != [] ==> cover[|cover| - 1].until <= last.from
    ensures Disjoint(cover + [last])
  {
    var n := |cover|;
    forall i | 0 <= i < n ensures cover[i].until <= last.from {
      assert i < n - 1 ==> cover[i].until <= cover[n - 1].from;
    }
  }

  /** No purchased time is lost or counted twice. */
  lemma CoverIsExact(bought: seq<Purchase>)
    ensures TotalLength(Cover(bought)) == TotalBought(bought)
    ensures Disjoint(Cover(bought)) && Starts(bought, Cover(bought))
  {
    CoverTotal(bought);
    CoverInOrder(bought);
  }

  lemma {:induction false} CoverTotal(bought: seq<Purchase>)
    ensures TotalLength(Cover(bought)) == TotalBought(bought)
  {
    if bought != [] {
      var n := |bought| - 1;
      CoverTotal(bought[..n]);
      LastCover(bought);
      AddInterval(Cover(bought[..n]), Cover(bought)[n]);
    }
  }

  lemma {:induction false} CoverInOrder(bought: seq<Purchase>)
    ensures Disjoint(Cover(bought)) && Starts(bought, Cover(bought))
  {
    if bought != [] {
      var n := |bought| - 1;
      CoverInOrder(bought[..n]);
      LastCover(bought);
      ExtendDisjoint(Cover(bought[..n]), Cover(bought)[n]);
    }
  }

  /** The stretch of the last purchase. */
  lemma LastCover(bought: seq<Purchase>)
    requires bought != []
    ensures
      var n := |bought| - 1;
      var before, last := Cover(bought[..n]), Cover(bought)[n];
      && Cover(bought) == before + [last]
      && bought[n].time <= last.from && last.until == last.from + bought[n].duration
      && (n > 0 ==> before[n - 1].until <= last.from)
      && (last.from != bought[n].time ==> n > 0 && last.from == before[n - 1].until)
  {
  }

  lemma AddInterval(cover: seq<Interval>, last: Interval)
    ensures TotalLength(cover + [last]) == TotalLength(cover) + (last.until - last.from)
  {
    assert (cover + [last])[..|cover|] == cover;
  }

  /** From the last purchase on, an instant is covered exactly when it lies before the last end. */
  lemma {:induction false} CoveredUntilEnd(bought: seq<Purchase>, t: int)
    requires bought != [] && InOrder(bought) && bought[|bought| - 1].time <= t
    ensures Covered(Cover(bought), t) <==> t < Cover(bought)[|bought| - 1].until
  {
    var n := |bought| - 1;
    var cover, init := Cover(bought), bought[..n];
    CoverIsExact(bought);
    LastCover(bought);
    if t < cover[n].until && t < cover[n].from {
      assert init != [] && Cover(init)[n - 1].until == cover[n].from;
      CoveredUntilEnd(init, t);
      var i :| 0 <= i < |Cover(init)| && Cover(init)[i].from <= t < Cover(init)[i].until;
      assert cover[i] == Cover(init)[i];
    } else if t < cover[n].until {
      assert cover[n].from <= t < cover[n].until;
    }
  }

  // ---------------------------------------------------------------- runs

  datatype Event = Buy(now: int, user: int, plan: string) | Sweep(now: int)

  function Apply(plans: Plans, s: State, e: Event): State {
    match e
    case Buy(now, user, plan) => Activate(plans, s, now, user, plan).0
    case Sweep(now) => Expire(s, now)
  }

  function Run(plans: Plans, s: State, events: seq<Event>): State {
    if events == [] then s else Apply(plans, Run(plans, s, events[..|events| - 1]), events[|events| - 1])
  }

  /** The successful purchases of one user. */
  function Bought(plans: Plans, s: State, events: seq<Event>, u: int): seq<Purchase> {
    if events == [] then []
    else
      var before := Bought(plans, s, events[..|events| - 1], u);
      var e := events[|events| - 1];
      if e.Buy? && e.user == u && u in s.users && e.plan in plans
      then before + [Purchase(e.now, plans[e.plan] * DAY)] else before
  }

  predicate TimesInOrder(events: seq<Event>) {
    forall i, j :: 0 <= i <= j < |events| ==> events[i].now <= events[j].now
  }

  predicate Initial(s: State) { s.subs == [] && forall u :: u in s.users ==> !s.users[u].isVip }

  /** At most one active subscription per user, which expires with the user's status. */
  ghost predicate SubsAgree(s: State) {
    && (forall i, j :: 0 <= i < j < |s.subs| && s.subs[i].active && s.subs[j].active ==>
          s.subs[i].user != s.subs[j].user)
    && (forall i :: 0 <= i < |s.subs| && s.subs[i].active ==>
          && s.subs[i].user in s.users
          && s.users[s.subs[i].user].isVip
          && s.users[s.subs[i].user].expiresAt == Some(s.subs[i].expiresAt))
    && (forall u :: u in s.users && s.users[u].isVip ==> HasActive(s.subs, u))
  }

  /** The user's row against the time bought so far; `last` is the latest instant seen. */
  predicate RowAgrees(row: VipUser, bought: seq<Purchase>, last: int) {
    if bought == [] then !row.isVip
    else
      var until := Cover(bought)[|bought| - 1].until;
      row.expiresAt == Some(until) && (row.isVip || until < last)
  }

  lemma ActivateKeepsSubs(plans: Plans, s: State, now: int, user: int, plan: string)
    requires SubsAgree(s)
    ensures SubsAgree(Activate(plans, s, now, user, plan).0)
  {
    var (t, result) := Activate(plans, s, now, user, plan);
    if result == Activated {
      var n := |s.subs|;
      assert forall i :: 0 <= i < n && t.subs[i].active ==>
          s.subs[i].active && t.subs[i] == s.subs[i] && s.subs[i].user != user;
      forall u | u in t.users && t.users[u].isVip ensures HasActive(t.subs, u) {
        if u == user {
          assert t.subs[n].active && t.subs[n].user == u;
        } else {
          var k :| 0 <= k < n && s.subs[k].active && s.subs[k].user == u;
          assert t.subs[k] == s.subs[k];
        }
      }
    }
  }

  /** After a sweep a user keeps the status exactly when nothing of theirs was due. */
  lemma SweepOfUser(s: State, now: int, u: int)
    requires SubsAgree(s) && u in s.users
    ensures HadDue(s.subs, now, u, |s.subs|) ==>
      !HasActive(Swept(s.subs, now, |s.subs|), u) && s.users[u].expiresAt.Some? && s.users[u].expiresAt.value < now
    ensures !HadDue(s.subs, now, u, |s.subs|) ==>
      (HasActive(Swept(s.subs, now, |s.subs|), u) <==> HasActive(s.subs, u))
  {
    var t := Swept(s.subs, now, |s.subs|);
    if HadDue(s.subs, now, u, |s.subs|) {
      var i :| 0 <= i < |s.subs| && Due(s.subs[i], now) && s.subs[i].user == u;
      assert s.users[s.subs[i].user].expiresAt == Some(s.subs[i].expiresAt);
      forall k | 0 <= k < |t| ensures !(t[k].active && t[k].user == u) {
        if k < i {
          assert s.subs[k].active ==> s.subs[k].user != s.subs[i].user;
        } else if i < k {
          assert s.subs[k].active ==> s.subs[i].user != s.subs[k].user;
        }
      }
    } else {
      if HasActive(s.subs, u) {
        var k :| 0 <= k < |s.subs| && s.subs[k].active && s.subs[k].user == u;
        assert !Due(s.subs[k], now) && t[k] == s.subs[k];
      }
      if HasActive(t, u) {
        var k :| 0 <= k < |t| && t[k].active && t[k].user == u;
        assert s.subs[k].active;
      }
    }
  }

  lemma ExpireKeepsSubs(s: State, now: int)
    requires SubsAgree(s)
    ensures SubsAgree(Expire(s, now))
  {
    var t := Expire(s, now);
    forall i | 0 <= i < |t.subs| && t.subs[i].active
      ensures t.subs[i].user in t.users && t.users[t.subs[i].user] == s.users[t.subs[i].user] && t.subs[i] == s.subs[i]
    {
      SweepOfUser(s, now, t.subs[i].user);
      assert HasActive(t.subs, t.subs[i].user);
    }
    forall u | u in t.users && t.users[u].isVip ensures HasActive(t.subs, u) {
      SweepOfUser(s, now, u);
    }
  }

  lemma ActivateKeepsRow(plans: Plans, s: State, now: int, user: int, plan: string, bought: seq<Purchase>, last: int)
    requires user in s.users && plan in plans && RowAgrees(s.users[user], bought, last) && last <= now
    ensures
      var more := bought + [Purchase(now, plans[plan] * DAY)];
      RowAgrees(Activate(plans, s, now, user, plan).0.users[user], more, now)
  {
    var more := bought + [Purchase(now, plans[plan] * DAY)];
    assert more[..|bought|] == bought;
  }

  /** The state reached, against what user `u` has bought up to the instant `last`. */
  ghost predicate Agrees(s: State, users: set<int>, u: int, bought: seq<Purchase>, last: int) {
    && SubsAgree(s) && s.users.Keys == users
    && u in s.users && RowAgrees(s.users[u], bought, last)
    && InOrder(bought) && forall i :: 0 <= i < |bought| ==> bought[i].time <= last
  }

  lemma AgreesLater(s: State, users: set<int>, u: int, bought: seq<Purchase>, last: int, later: int)
    requires Agrees(s, users, u, bought, last) && last <= later
    ensures Agrees(s, users, u, bought, later)
  {
  }

  /** A purchase: subscriptions, rows and purchases stay in agreement. */
  lemma BuyAgrees(plans: Plans, s: State, users: set<int>,
                  now: int, user: int, plan: string, u: int, bought: seq<Purchase>)
    requires Agrees(s, users, u, bought, now)
    ensures
      var more := if user == u && plan in plans then bought + [Purchase(now, plans[plan] * DAY)] else bought;
      Agrees(Activate(plans, s, now, user, plan).0, users, u, more, now)
  {
    ActivateKeepsSubs(plans, s, now, user, plan);
    if user == u && plan in plans {
      ActivateKeepsRow(plans, s, now, user, plan, bought, now);
    }
  }

  lemma SweepAgrees(s: State, users: set<int>, now: int, u: int, bought: seq<Purchase>)
    requires Agrees(s, users, u, bought, now)
    ensures Agrees(Expire(s, now), users, u, bought, now)
  {
    ExpireKeepsSubs(s, now);
    SweepKeepsRow(s, now, u, bought);
  }

  lemma SweepKeepsRow(s: State, now: int, u: int, bought: seq<Purchase>)
    requires SubsAgree(s) && u in s.users && RowAgrees(s.users[u], bought, now)
    ensures RowAgrees(Expire(s, now).users[u], bought, now)
  {
    SweepOfUser(s, now, u);
  }

  lemma StepAgrees(plans: Plans, s: State, users: set<int>, e: Event, u: int, bought: seq<Purchase>)
    requires Agrees(s, users, u, bought, e.now)
    ensures
      var more :=
        if e.Buy? && e.user == u && e.plan in plans then bought + [Purchase(e.now, plans[e.plan] * DAY)] else bought;
      Agrees(Apply(plans, s, e), users, u, more, e.now)
  {
    match e
    case Buy(now, user, plan) => BuyAgrees(plans, s, users, now, user, plan, u, bought);
    case Sweep(now) => SweepAgrees(s, users, now, u, bought);
  }

  lemma {:induction false} RunAgrees(plans: Plans, s: State, events: seq<Event>, u: int, last: int)
    requires Initial(s) && TimesInOrder(events) && u in s.users
    requires forall i :: 0 <= i < |events| ==> events[i].now <= last
    ensures Agrees(Run(plans, s, events), s.users.Keys, u, Bought(plans, s, events, u), last)
  {
    if events != [] {
      var n := |events| - 1;
      var e, init := events[n], events[..n];
      RunAgrees(plans, s, init, u, e.now);
      StepAgrees(plans, Run(plans, s, init), s.users.Keys, e, u, Bought(plans, s, init, u));
      AgreesLater(Run(plans, s, events), s.users.Keys, u, Bought(plans, s, events, u), e.now, last);
    }
  }

  // ---------------------------------------------------------------- main results

  /**
   * At every instant from the last event on, a user is VIP exactly when the instant lies in a
   * stretch bought by them; each user has at most one active subscription, expiring with the user.
   */
  lemma VipExactlyWhenCovered(plans: Plans, s: State, events: seq<Event>, u: int, t: int)
    requires Initial(s) && TimesInOrder(events) && u in s.users
    requires forall i :: 0 <= i < |events| ==> events[i].now <= t
    ensures
      var r := Run(plans, s, events);
      && (IsVipActive(r, t, u) <==> Covered(Cover(Bought(plans, s, events, u)), t))
      && SubsAgree(r)
  {
    var bought := Bought(plans, s, events, u);
    RunAgrees(plans, s, events, u, t);
    if bought != [] {
      CoveredUntilEnd(bought, t);
    }
  }

  /** However often and late the worker runs, the same purchases give the same answers. */
  lemma {:induction false} WorkerScheduleDoesNotMatter(plans: Plans, s: State,
                                                       one: seq<Event>, other: seq<Event>, u: int, t: int)
    requires Initial(s) && TimesInOrder(one) && TimesInOrder(other) && u in s.users
    requires forall i :: 0 <= i < |one| ==> one[i].now <= t
    requires forall i :: 0 <= i < |other| ==> other[i].now <= t
    requires Bought(plans, s, one, u) == Bought(plans, s, other, u)
    ensures IsVipActive(Run(plans, s, one), t, u) <==> IsVipActive(Run(plans, s, other), t, u)
  {
    VipExactlyWhenCovered(plans, s, one, u, t);
    VipExactlyWhenCovered(plans, s, other, u, t);
  }

  // ---------------------------------------------------------------- quota, results and counts

  /** The daily quota of a user who has ever bought: five while the status lasts, none after. */
  predicate QuotaAgrees(row: VipUser, bought: seq<Purchase>) {
    bought != [] ==> row.quota == if row.isVip then 5 else 0
  }

  lemma {:induction false} QuotaFollowsStatus(plans: Plans, s: State, events: seq<Event>, u: int)
    requires u in s.users
    ensures
      var r := Run(plans, s, events);
      u in r.users && QuotaAgrees(r.users[u], Bought(plans, s, events, u))
      && (Bought(plans, s, events, u) != [] ==> r.users[u].isVip || r.users[u].quota == 0)
  {
    if events != [] {
      QuotaFollowsStatus(plans, s, events[..|events| - 1], u);
    }
  }

  /** An activation fails only for an unknown plan or user, and then changes nothing. */
  lemma ActivatedIff(plans: Plans, s: State, now: int, user: int, plan: string)
    ensures
      var (t, result) := Activate(plans, s, now, user, plan);
      && (result == Activated <==> plan in plans && user in s.users)
      && (result == UnknownPlan <==> plan !in plans)
      && (result != Activated ==> t == s)
      && (result == Activated ==>
            && |t.subs| == |s.subs| + 1
            && var sub := t.subs[|s.subs|];
            sub.user == user && sub.plan == plan && sub.startedAt == now && sub.active
            && t.users[user].expiresAt == Some(sub.expiresAt)
            && forall v :: v in s.users && v != user ==> v in t.users && t.users[v] == s.users[v])
  {
  }

  /** Of the first `n` subscriptions, those that are active before the sweep of these and not after. */
  function Closed(subs: seq<Sub>, now: int, n: nat): set<int>
    requires n <= |subs|
  {
    set i | 0 <= i < n && subs[i].active && !Swept(subs, now, n)[i].active
  }

  lemma ClosedStep(subs: seq<Sub>, now: int, n: nat)
    requires n < |subs|
    ensures Closed(subs, now, n + 1) == Closed(subs, now, n) + if Due(subs[n], now) then {n} else {}
    ensures n !in Closed(subs, now, n)
  {
    assert forall i :: 0 <= i < n ==> Swept(subs, now, n + 1)[i] == Swept(subs, now, n)[i];
  }

  /** The number a sweep reports is that of the subscriptions it closes. */
  lemma {:induction false} CountIsClosed(subs: seq<Sub>, now: int, n: nat)
    requires n <= |subs|
    ensures CountDue(subs, now, n) == |Closed(subs, now, n)|
  {
    if n > 0 {
      CountIsClosed(subs, now, n - 1);
      ClosedStep(subs, now, n - 1);
    } else {
      assert Closed(subs, now, n) == {};
    }
  }

  /**
   * What a sweep leaves: exactly the active subscriptions that do not end before the instant, and,
   * while subscriptions and rows agree, exactly the users whose time does not end before it; the
   * others lose status and quota.
   */
  lemma SweepOutcome(s: State, now: int, u: int)
    requires SubsAgree(s) && u in s.users
    ensures
      var t := Expire(s, now);
      && |t.subs| == |s.subs|
      && (forall i :: 0 <= i < |s.subs| ==>
            t.subs[i] == s.subs[i].(active := s.subs[i].active && s.subs[i].expiresAt >= now))
      && u in t.users && t.users[u].expiresAt == s.users[u].expiresAt
      && (t.users[u].isVip <==> s.users[u].isVip && s.users[u].expiresAt.Some? && s.users[u].expiresAt.value >= now)
      && (s.users[u].isVip && !t.users[u].isVip ==> t.users[u].quota == 0)
      && (t.users[u].isVip ==> t.users[u] == s.users[u])
  {
    SweepOfUser(s, now, u);
    ExpireKeepsSubs(s, now);
    if s.users[u].isVip {
      var k :| 0 <= k < |s.subs| && s.subs[k].active && s.subs[k].user == u;
      assert s.users[s.subs[k].user].expiresAt == Some(s.subs[k].expiresAt);
      if s.subs[k].expiresAt < now {
        assert Due(s.subs[k], now);
      }
    }
  }
}
