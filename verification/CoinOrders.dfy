/**
 * Coin orders: the gateway callback (api/routes/payment.py), the administrator's decision on a
 * receipt (bot/handlers/payments.py) and the referral commission (services/referral_engine.py).
 *
 * A callback holds the row lock of its order from reading it until its commit, while the gateway is
 * asked; callbacks of different orders interleave, and the administrator's decisions, taken as
 * atomic, come at any time the row is free.
 */
module CoinOrders {
  import opened Wrappers

  datatype Status = Pending | PendingReceipt | Approved | Completed | Rejected | Failed

  datatype Order = Order(user: int, package: int, authority: string, status: Status)

  datatype Account = Account(balance: int, earned: int, referralEarnings: int, referrer: Option<int>)

  datatype Source = Bought | Referred

  datatype CoinTx = CoinTx(user: int, amount: int, order: int, source: Source)

  datatype Commission = Commission(referrer: int, referred: int, order: int, coins: int)

  /** Settings and coin packages (coins per package) do not change during a run. */
  datatype Config = Config(commissionPct: nat, packages: map<int, nat>)

  datatype State = State(
    orders: map<int, Order>,
    accounts: map<int, Account>,
    coinLog: seq<CoinTx>,
    commissions: seq<Commission>,
    locked: set<int>)

  /** The answer of the gateway to the verification of a payment. */
  datatype Answer = Unreachable | Refused | Verified

  datatype Event =
    | Place(order: int, user: int, package: int, authority: string, receipt: bool)
    | CallbackBegins(order: int, authority: string, statusOk: bool)
    | CallbackEnds(order: int, answer: Answer, credited: nat, commissionFails: bool)
    | CallbackDies(order: int)
    | AdminVerifies(order: int, credited: nat, fails: bool)
    | AdminRejects(order: int)

  predicate Open(status: Status) { status.Pending? || status.PendingReceipt? }

  predicate Settled(status: Status) { status.Approved? || status.Completed? }

  predicate Enabled(s: State, e: Event) {
    match e
    case Place(o, _, _, _, _) => o !in s.orders
    case CallbackEnds(o, _, _, _) => o in s.locked
    case CallbackDies(o) => o in s.locked
    case CallbackBegins(o, _, _) => o !in s.locked
    case AdminVerifies(o, _, _) => o !in s.locked
    case AdminRejects(o) => o !in s.locked
  }

  // ---------------------------------------------------------------- effects as functions

  function WithStatus(s: State, o: int, status: Status): State
    requires o in s.orders
  {
    s.(orders := s.orders[o := s.orders[o].(status := status)])
  }

  /** `process_coin_transaction` for a deposit; `amount` is what the running event makes of the package. */
  function Credit(s: State, o: int, u: int, amount: nat): State
    requires u in s.accounts
  {
    var a := s.accounts[u];
    s.(accounts := s.accounts[u := a.(balance := a.balance + amount, earned := a.earned + amount)],
       coinLog := s.coinLog + [CoinTx(u, amount, o, Bought)])
  }

  function CommissionCoins(cfg: Config, coins: nat): nat { coins * cfg.commissionPct / 100 }

  /** Who is owed a commission for the purchase, if anyone. */
  function Earner(cfg: Config, s: State, buyer: int, coins: nat): Option<int> {
    if coins == 0 || buyer !in s.accounts || s.accounts[buyer].referrer.None? then None
    else if CommissionCoins(cfg, coins) == 0 || s.accounts[buyer].referrer.value !in s.accounts then None
    else s.accounts[buyer].referrer
  }

  function PayCommission(cfg: Config, s: State, o: int, buyer: int, coins: nat): State {
    match Earner(cfg, s, buyer, coins)
    case None => s
    case Some(r) =>
      assert r in s.accounts;
      var a, fee := s.accounts[r], CommissionCoins(cfg, coins);
      s.(accounts := s.accounts[r := a.(balance := a.balance + fee, earned := a.earned + fee,
                                        referralEarnings := a.referralEarnings + fee)],
         commissions := s.commissions + [Commission(r, buyer, o, fee)],
         coinLog := s.coinLog + [CoinTx(r, fee, o, Referred)])
  }

  function Settle(cfg: Config, s: State, o: int, credited: nat, commission: bool, status: Status): State
    requires o in s.orders && s.orders[o].package in cfg.packages && s.orders[o].user in s.accounts
  {
    var order := s.orders[o];
    var s1 := Credit(s, o, order.user, credited);
    var s2 := if commission then PayCommission(cfg, s1, o, order.user, cfg.packages[order.package]) else s1;
    WithStatus(s2, o, status)
  }

  function BeginCallback(cfg: Config, s: State, o: int, authority: string, statusOk: bool): State {
    if o !in s.orders || !s.orders[o].status.Pending? then s
    else if authority == "" || authority != s.orders[o].authority then WithStatus(s, o, Failed)
    else if !statusOk then WithStatus(s, o, Rejected)
    else if s.orders[o].package !in cfg.packages then WithStatus(s, o, Failed)
    else s.(locked := s.locked + {o})
  }

  function EndCallback(cfg: Config, s: State, o: int, answer: Answer, credited: nat, commissionFails: bool): State {
    var s' := s.(locked := s.locked - {o});
    if o !in s.orders || s.orders[o].package !in cfg.packages then s'
    else
      match answer
      case Unreachable => s'
      case Refused => WithStatus(s', o, Rejected)
      case Verified =>
        if s.orders[o].user !in s.accounts then WithStatus(s', o, Failed)
        else Settle(cfg, s', o, credited, !commissionFails, Approved)
  }

  function AdminVerified(cfg: Config, s: State, o: int, credited: nat, fails: bool): State {
    if o !in s.orders || !Open(s.orders[o].status) then s
    else if s.orders[o].package !in cfg.packages || s.orders[o].user !in s.accounts || fails then s
    else Settle(cfg, s, o, credited, true, Completed)
  }

  function AdminRejected(s: State, o: int): State {
    if o !in s.orders || !Open(s.orders[o].status) then s else WithStatus(s, o, Rejected)
  }

  function Apply(cfg: Config, s: State, e: Event): State
    requires Enabled(s, e)
  {
    match e
    case Place(o, u, p, authority, receipt) =>
      s.(orders := s.orders[o := Order(u, p, authority, if receipt then PendingReceipt else Pending)])
    case CallbackBegins(o, authority, statusOk) => BeginCallback(cfg, s, o, authority, statusOk)
    case CallbackEnds(o, answer, credited, fails) => EndCallback(cfg, s, o, answer, credited, fails)
    case CallbackDies(o) => s.(locked := s.locked - {o})
    case AdminVerifies(o, credited, fails) => AdminVerified(cfg, s, o, credited, fails)
    case AdminRejects(o) => AdminRejected(s, o)
  }

  predicate Runs(cfg: Config, s: State, events: seq<Event>)
    decreases |events|
  {
    events == [] || (Enabled(s, events[0]) && Runs(cfg, Apply(cfg, s, events[0]), events[1..]))
  }

  function Run(cfg: Config, s: State, events: seq<Event>): State
    requires Runs(cfg, s, events)
    decreases |events|
  {
    if events == [] then s else Run(cfg, Apply(cfg, s, events[0]), events[1..])
  }

  // ---------------------------------------------------------------- the same steps as methods

  class OrderDesk {
    const cfg: Config
    var orders: map<int, Order>
    var accounts: map<int, Account>
    var coinLog: seq<CoinTx>
    var commissions: seq<Commission>
    var locked: set<int>

    constructor (cfg: Config, accounts: map<int, Account>)
      ensures this.cfg == cfg && Contents() == State(map[], accounts, [], [], {})
    {
      this.cfg, this.accounts := cfg, accounts;
      orders, coinLog, commissions, locked := map[], [], [], {};
    }

    function Contents(): State
      reads this
    {
      State(orders, accounts, coinLog, commissions, locked)
    }

    method SetStatus(o: int, status: Status)
      requires o in orders
      modifies this`orders
      ensures Contents() == WithStatus(old(Contents()), o, status)
    {
      orders := orders[o := orders[o].(status := status)];
    }

    method ProcessCoinTransaction(o: int, u: int, amount: nat)
      requires u in accounts
      modifies this`accounts, this`coinLog
      ensures Contents() == Credit(old(Contents()), o, u, amount)
    {
      var a := accounts[u];
      accounts := accounts[u := a.(balance := a.balance + amount, earned := a.earned + amount)];
      coinLog := coinLog + [CoinTx(u, amount, o, Bought)];
    }

    method ProcessCommissionOnPurchase(o: int, buyer: int, coins: nat)
      modifies this`accounts, this`coinLog, this`commissions
      ensures Contents() == PayCommission(cfg, old(Contents()), o, buyer, coins)
    {
      if coins == 0 {
        return;
      }
      if buyer !in accounts || accounts[buyer].referrer.None? {
        return;
      }
      var referrer := accounts[buyer].referrer.value;
      var fee := CommissionCoins(cfg, coins);
      if fee == 0 {
        return;
      }
      if referrer !in accounts {
        return;
      }
      var a := accounts[referrer];
      accounts := accounts[referrer := a.(balance := a.balance + fee, earned := a.earned + fee,
                                          referralEarnings := a.referralEarnings + fee)];
      commissions := commissions + [Commission(referrer, buyer, o, fee)];
      coinLog := coinLog + [CoinTx(referrer, fee, o, Referred)];
    }

    /** The callback up to the request to the gateway; `verify` tells whether that request is made. */
    method CallbackUntilVerify(o: int, authority: string, statusOk: bool) returns (verify: bool)
      requires o !in locked
      modifies this
      ensures Contents() == BeginCallback(cfg, old(Contents()), o, authority, statusOk)
      ensures verify <==> o in locked
    {
      if o !in orders {
        return false;
      }
      if orders[o].status != Pending {
        return false;
      }
      if authority == "" || authority != orders[o].authority {
        SetStatus(o, Failed);
        return false;
      }
      if !statusOk {
        SetStatus(o, Rejected);
        return false;
      }
      if orders[o].package !in cfg.packages {
        SetStatus(o, Failed);
        return false;
      }
      locked := locked + {o};
      return true;
    }

    method CallbackAfterVerify(o: int, answer: Answer, credited: nat, commissionFails: bool)
      modifies this
      ensures Contents() == EndCallback(cfg, old(Contents()), o, answer, credited, commissionFails)
    {
      locked := locked - {o};
      if o !in orders || orders[o].package !in cfg.packages {
        return;
      }
      if answer == Unreachable {
        return;
      }
      if answer == Refused {
        SetStatus(o, Rejected);
        return;
      }
      var order := orders[o];
      if order.user !in accounts {
        SetStatus(o, Failed);
        return;
      }
      ProcessCoinTransaction(o, order.user, credited);
      if !commissionFails {
        ProcessCommissionOnPurchase(o, order.user, cfg.packages[order.package]);
      }
      SetStatus(o, Approved);
    }

    /** A failure rolls the whole decision back. */
    method AdminVerifyReceipt(o: int, credited: nat, fails: bool)
      modifies this
      ensures Contents() == AdminVerified(cfg, old(Contents()), o, credited, fails)
    {
      if o !in orders || !Open(orders[o].status) {
        return;
      }
      var order := orders[o];
      if order.package !in cfg.packages || order.user !in accounts || fails {
        return;
      }
      ProcessCoinTransaction(o, order.user, credited);
      ProcessCommissionOnPurchase(o, order.user, cfg.packages[order.package]);
      SetStatus(o, Completed);
    }

    method AdminRejectReceipt(o: int)
      modifies this
      ensures Contents() == AdminRejected(old(Contents()), o)
    {
      if o !in orders || !Open(orders[o].status) {
        return;
      }
      SetStatus(o, Rejected);
    }
  }

  // ---------------------------------------------------------------- counting credits

  function Credits(log: seq<CoinTx>, o: int): nat {
    if log == [] then 0
    else
      var tx := log[|log| - 1];
      Credits(log[..|log| - 1], o) + if tx.order == o && tx.source.Bought? then 1 else 0
  }

  function Fees(log: seq<Commission>, o: int): nat {
    if log == [] then 0
    else Fees(log[..|log| - 1], o) + if log[|log| - 1].order == o then 1 else 0
  }

  function Income(log: seq<CoinTx>, u: int): int {
    if log == [] then 0
    else
      var tx := log[|log| - 1];
      Income(log[..|log| - 1], u) + if tx.user == u then tx.amount else 0
  }

  function FeeIncome(log: seq<Commission>, u: int): int {
    if log == [] then 0
    else
      var fee := log[|log| - 1];
      FeeIncome(log[..|log| - 1], u) + if fee.referrer == u then fee.coins else 0
  }

  lemma LogCoin(log: seq<CoinTx>, tx: CoinTx, o: int, u: int)
    ensures Credits(log + [tx], o) == Credits(log, o) + if tx.order == o && tx.source.Bought? then 1 else 0
    ensures Income(log + [tx], u) == Income(log, u) + if tx.user == u then tx.amount else 0
  {
    assert (log + [tx])[..|log|] == log;
  }

  lemma LogFee(log: seq<Commission>, fee: Commission, o: int, u: int)
    ensures Fees(log + [fee], o) == Fees(log, o) + if fee.order == o then 1 else 0
    ensures FeeIncome(log + [fee], u) == FeeIncome(log, u) + if fee.referrer == u then fee.coins else 0
  {
    assert (log + [fee])[..|log|] == log;
  }

  // ---------------------------------------------------------------- invariant of one order

  /** Credited once if settled, else not at all; at most one commission, and only for a credited order. */
  predicate OnceAtMost(s: State, o: int) {
    && Credits(s.coinLog, o) == (if o in s.orders && Settled(s.orders[o].status) then 1 else 0)
    && Fees(s.commissions, o) <= Credits(s.coinLog, o)
  }

  /** A commission is the configured share of the package, earned by the buyer's referrer. */
  predicate FeeRight(cfg: Config, s: State, fee: Commission) {
    && fee.order in s.orders && s.orders[fee.order].user == fee.referred
    && s.orders[fee.order].package in cfg.packages
    && fee.coins == cfg.packages[s.orders[fee.order].package] * cfg.commissionPct / 100
    && fee.referred in s.accounts && s.accounts[fee.referred].referrer == Some(fee.referrer)
  }

  ghost predicate FeesRight(cfg: Config, s: State) {
    forall i :: 0 <= i < |s.commissions| ==> FeeRight(cfg, s, s.commissions[i])
  }

  lemma SettleCounts(cfg: Config, s: State, o: int, credited: nat, commission: bool, status: Status, p: int)
    requires o in s.orders && s.orders[o].package in cfg.packages && s.orders[o].user in s.accounts
    ensures
      var t := Settle(cfg, s, o, credited, commission, status);
      && Credits(t.coinLog, p) == Credits(s.coinLog, p) + (if p == o then 1 else 0)
      && Fees(s.commissions, p) <= Fees(t.commissions, p) <= Fees(s.commissions, p) + (if p == o then 1 else 0)
  {
    var order := s.orders[o];
    var s1 := Credit(s, o, order.user, credited);
    LogCoin(s.coinLog, CoinTx(order.user, credited, o, Bought), p, 0);
    var coins := cfg.packages[order.package];
    var earner := Earner(cfg, s1, order.user, coins);
    if commission && earner.Some? {
      LogCoin(s1.coinLog, CoinTx(earner.value, CommissionCoins(cfg, coins), o, Referred), p, 0);
      LogFee(s1.commissions, Commission(earner.value, order.user, o, CommissionCoins(cfg, coins)), p, 0);
    }
  }

  /** The order's package and user are known. */
  predicate Payable(cfg: Config, s: State, o: int)
    requires o in s.orders
  {
    s.orders[o].package in cfg.packages && s.orders[o].user in s.accounts
  }

  /** A decision without money: the order was open and becomes neither approved nor completed. */
  lemma DeclineOnce(s: State, p: int, status: Status, o: int)
    requires OnceAtMost(s, o) && p in s.orders && p !in s.locked && Open(s.orders[p].status) && !Settled(status)
    ensures OnceAtMost(WithStatus(s, p, status), o)
  {
  }

  lemma SettleOnce(cfg: Config, s: State, p: int, credited: nat, commission: bool, status: Status, o: int)
    requires OnceAtMost(s, o) && p in s.orders && p !in s.locked && Open(s.orders[p].status) && Settled(status)
    requires s.orders[p].package in cfg.packages && s.orders[p].user in s.accounts
    ensures OnceAtMost(Settle(cfg, s, p, credited, commission, status), o)
  {
    SettleCounts(cfg, s, p, credited, commission, status, o);
  }

  /** A locked order is pending: the callback that holds it found it so, and nobody else could write it. */
  predicate LocksHoldPending(s: State) {
    forall p :: p in s.locked ==> p in s.orders && s.orders[p].status.Pending?
  }

  lemma UnlockOnce(s: State, p: int, o: int)
    requires OnceAtMost(s, o)
    ensures OnceAtMost(s.(locked := s.locked - {p}), o)
  {
  }

  lemma EndOnce(cfg: Config, s: State, p: int, answer: Answer, credited: nat, commissionFails: bool, o: int)
    requires OnceAtMost(s, o) && LocksHoldPending(s) && p in s.locked
    ensures OnceAtMost(EndCallback(cfg, s, p, answer, credited, commissionFails), o)
  {
    var s' := s.(locked := s.locked - {p});
    UnlockOnce(s, p, o);
    if s.orders[p].package in cfg.packages && !answer.Unreachable? {
      if answer.Verified? && s.orders[p].user in s.accounts {
        SettleOnce(cfg, s', p, credited, !commissionFails, Approved, o);
      } else {
        DeclineOnce(s', p, if answer.Refused? then Rejected else Failed, o);
      }
    }
  }

  lemma StepOnce(cfg: Config, s: State, e: Event, o: int)
    requires Enabled(s, e) && OnceAtMost(s, o) && LocksHoldPending(s)
    ensures OnceAtMost(Apply(cfg, s, e), o)
  {
    match e
    case Place(_, _, _, _, _) =>
    case CallbackBegins(p, authority, statusOk) =>
      if p in s.orders && s.orders[p].status.Pending? {
        DeclineOnce(s, p, Failed, o);
        DeclineOnce(s, p, Rejected, o);
      }
    case CallbackEnds(p, answer, credited, fails) => EndOnce(cfg, s, p, answer, credited, fails, o);
    case CallbackDies(p) => UnlockOnce(s, p, o);
    case AdminVerifies(p, credited, fails) =>
      if p in s.orders && Open(s.orders[p].status) && Payable(cfg, s, p) {
        SettleOnce(cfg, s, p, credited, true, Completed, o);
      }
    case AdminRejects(p) =>
      if p in s.orders && Open(s.orders[p].status) {
        DeclineOnce(s, p, Rejected, o);
      }
  }

  /** No step writes the order of another one, and only a callback of its own unlocks an order. */
  lemma StepOrders(cfg: Config, s: State, e: Event, p: int)
    requires Enabled(s, e) && p != e.order
    ensures p in Apply(cfg, s, e).orders <==> p in s.orders
    ensures p in s.orders ==> Apply(cfg, s, e).orders[p] == s.orders[p]
    ensures p in Apply(cfg, s, e).locked <==> p in s.locked
  {
  }

  lemma StepOwnLock(cfg: Config, s: State, e: Event)
    requires Enabled(s, e) && e.order in Apply(cfg, s, e).locked && LocksHoldPending(s)
    ensures e.order in Apply(cfg, s, e).orders && Apply(cfg, s, e).orders[e.order].status.Pending?
  {
  }

  lemma StepLocks(cfg: Config, s: State, e: Event)
    requires Enabled(s, e) && LocksHoldPending(s)
    ensures LocksHoldPending(Apply(cfg, s, e))
  {
    var t := Apply(cfg, s, e);
    forall p | p in t.locked ensures p in t.orders && t.orders[p].status.Pending? {
      if p == e.order {
        StepOwnLock(cfg, s, e);
      } else {
        StepOrders(cfg, s, e, p);
      }
    }
  }

  /** Orders keep their user and package, accounts their referrer. */
  lemma StepKeepsFacts(cfg: Config, s: State, e: Event, o: int, u: int)
    requires Enabled(s, e)
    ensures o in s.orders ==>
      && o in Apply(cfg, s, e).orders
      && Apply(cfg, s, e).orders[o].user == s.orders[o].user
      && Apply(cfg, s, e).orders[o].package == s.orders[o].package
    ensures u in s.accounts ==>
      && u in Apply(cfg, s, e).accounts
      && Apply(cfg, s, e).accounts[u].referrer == s.accounts[u].referrer
  {
  }

  lemma StepLogsRightFee(cfg: Config, s: State, e: Event)
    requires Enabled(s, e)
    ensures
      var t := Apply(cfg, s, e);
      || t.commissions == s.commissions
      || (|t.commissions| == |s.commissions| + 1 && t.commissions[..|s.commissions|] == s.commissions &&
          FeeRight(cfg, t, t.commissions[|s.commissions|]))
  {
  }

  lemma StepFees(cfg: Config, s: State, e: Event)
    requires Enabled(s, e) && FeesRight(cfg, s)
    ensures FeesRight(cfg, Apply(cfg, s, e))
  {
    var t := Apply(cfg, s, e);
    StepLogsRightFee(cfg, s, e);
    forall i | 0 <= i < |t.commissions| ensures FeeRight(cfg, t, t.commissions[i]) {
      if i < |s.commissions| {
        assert t.commissions[i] == s.commissions[i];
        StepKeepsFacts(cfg, s, e, s.commissions[i].order, s.commissions[i].referred);
      }
    }
  }

  /** Coins of a purchase go to the user who placed the order. */
  predicate CreditRight(s: State, tx: CoinTx) {
    tx.source.Bought? ==> tx.order in s.orders && s.orders[tx.order].user == tx.user
  }

  ghost predicate CreditsRight(s: State) {
    forall i :: 0 <= i < |s.coinLog| ==> CreditRight(s, s.coinLog[i])
  }

  lemma StepLogsRightCredits(cfg: Config, s: State, e: Event, i: nat)
    requires Enabled(s, e) && |s.coinLog| <= i < |Apply(cfg, s, e).coinLog|
    ensures CreditRight(Apply(cfg, s, e), Apply(cfg, s, e).coinLog[i])
  {
  }

  lemma StepCredits(cfg: Config, s: State, e: Event)
    requires Enabled(s, e) && CreditsRight(s)
    ensures CreditsRight(Apply(cfg, s, e))
  {
    var t := Apply(cfg, s, e);
    forall i | 0 <= i < |t.coinLog| ensures CreditRight(t, t.coinLog[i]) {
      if i < |s.coinLog| {
        assert t.coinLog[i] == s.coinLog[i];
        StepKeepsFacts(cfg, s, e, s.coinLog[i].order, 0);
      } else {
        StepLogsRightCredits(cfg, s, e, i);
      }
    }
  }

  /** Once decided, an order keeps its status. */
  lemma StepKeepsDecision(cfg: Config, s: State, e: Event, o: int)
    requires Enabled(s, e) && LocksHoldPending(s) && o in s.orders && !Open(s.orders[o].status)
    ensures o in Apply(cfg, s, e).orders && Apply(cfg, s, e).orders[o].status == s.orders[o].status
  {
    if o != e.order {
      StepOrders(cfg, s, e, o);
    }
  }

  // ---------------------------------------------------------------- books

  function Balance(s: State, u: int): int { if u in s.accounts then s.accounts[u].balance else 0 }

  function Earned(s: State, u: int): int { if u in s.accounts then s.accounts[u].earned else 0 }

  function ReferralEarnings(s: State, u: int): int { if u in s.accounts then s.accounts[u].referralEarnings else 0 }

  /** What the logs do not explain. */
  function Unexplained(s: State, u: int): (int, int, int) {
    (Balance(s, u) - Income(s.coinLog, u), Earned(s, u) - Income(s.coinLog, u),
     ReferralEarnings(s, u) - FeeIncome(s.commissions, u))
  }

  lemma CreditBooks(s: State, o: int, buyer: int, amount: nat, u: int)
    requires buyer in s.accounts
    ensures Unexplained(Credit(s, o, buyer, amount), u) == Unexplained(s, u)
  {
    LogCoin(s.coinLog, CoinTx(buyer, amount, o, Bought), o, u);
  }

  lemma CommissionBooks(cfg: Config, s: State, o: int, buyer: int, coins: nat, u: int)
    ensures Unexplained(PayCommission(cfg, s, o, buyer, coins), u) == Unexplained(s, u)
  {
    var earner := Earner(cfg, s, buyer, coins);
    if earner.Some? {
      LogCoin(s.coinLog, CoinTx(earner.value, CommissionCoins(cfg, coins), o, Referred), o, u);
      LogFee(s.commissions, Commission(earner.value, buyer, o, CommissionCoins(cfg, coins)), o, u);
    }
  }

  lemma SettleBooks(cfg: Config, s: State, o: int, credited: nat, commission: bool, status: Status, u: int)
    requires o in s.orders && s.orders[o].package in cfg.packages && s.orders[o].user in s.accounts
    ensures Unexplained(Settle(cfg, s, o, credited, commission, status), u) == Unexplained(s, u)
  {
    var buyer, coins := s.orders[o].user, cfg.packages[s.orders[o].package];
    var s1 := Credit(s, o, buyer, credited);
    var s2 := if commission then PayCommission(cfg, s1, o, buyer, coins) else s1;
    CreditBooks(s, o, buyer, credited, u);
    CommissionBooks(cfg, s1, o, buyer, coins, u);
    StatusBooks(s2, o, status, u);
  }

  lemma StatusBooks(s: State, o: int, status: Status, u: int)
    requires o in s.orders
    ensures Unexplained(WithStatus(s, o, status), u) == Unexplained(s, u)
  {
  }

  lemma StepBooks(cfg: Config, s: State, e: Event, u: int)
    requires Enabled(s, e)
    ensures Unexplained(Apply(cfg, s, e), u) == Unexplained(s, u)
  {
    if e.CallbackEnds? && e.order in s.orders && Payable(cfg, s, e.order) {
      var s' := s.(locked := s.locked - {e.order});
      assert Unexplained(s', u) == Unexplained(s, u);
      SettleBooks(cfg, s', e.order, e.credited, !e.commissionFails, Approved, u);
    } else if e.AdminVerifies? && e.order in s.orders && Payable(cfg, s, e.order) {
      SettleBooks(cfg, s, e.order, e.credited, true, Completed, u);
    }
  }

  // ---------------------------------------------------------------- main results

  lemma {:induction false} RunKeeps(cfg: Config, s: State, events: seq<Event>, o: int, u: int)
    requires Runs(cfg, s, events) && OnceAtMost(s, o) && FeesRight(cfg, s) && CreditsRight(s) && LocksHoldPending(s)
    ensures OnceAtMost(Run(cfg, s, events), o) && FeesRight(cfg, Run(cfg, s, events))
    ensures CreditsRight(Run(cfg, s, events)) && LocksHoldPending(Run(cfg, s, events))
    ensures Unexplained(Run(cfg, s, events), u) == Unexplained(s, u)
    ensures o in s.orders ==>
      && o in Run(cfg, s, events).orders
      && (!Open(s.orders[o].status) ==> Run(cfg, s, events).orders[o].status == s.orders[o].status)
    decreases |events|
  {
    if events != [] {
      StepOnce(cfg, s, events[0], o);
      StepFees(cfg, s, events[0]);
      StepCredits(cfg, s, events[0]);
      StepBooks(cfg, s, events[0], u);
      StepLocks(cfg, s, events[0]);
      StepKeepsFacts(cfg, s, events[0], o, u);
      if o in s.orders && !Open(s.orders[o].status) {
        StepKeepsDecision(cfg, s, events[0], o);
      }
      RunKeeps(cfg, Apply(cfg, s, events[0]), events[1..], o, u);
    }
  }

  predicate Initial(s: State) { s.orders == map[] && s.coinLog == [] && s.commissions == [] && s.locked == {} }

  /**
   * In every run an order is credited exactly once, to its own user, if it ends approved or completed
   * and never otherwise, yields at most one commission, of the right amount to the right person, and every
   * balance is its start plus what the logs record.
   */
  lemma CreditedOnceIffSettled(cfg: Config, s: State, events: seq<Event>, o: int, u: int)
    requires Initial(s) && Runs(cfg, s, events)
    ensures
      var r := Run(cfg, s, events);
      && Credits(r.coinLog, o) == (if o in r.orders && Settled(r.orders[o].status) then 1 else 0)
      && Fees(r.commissions, o) <= Credits(r.coinLog, o)
      && FeesRight(cfg, r) && CreditsRight(r)
      && Balance(r, u) == Balance(s, u) + Income(r.coinLog, u)
      && Earned(r, u) == Earned(s, u) + Income(r.coinLog, u)
      && ReferralEarnings(r, u) == ReferralEarnings(s, u) + FeeIncome(r.commissions, u)
  {
    RunKeeps(cfg, s, events, o, u);
  }

  /** An order leaves its open statuses at most once: a decision stands in every later state. */
  lemma DecisionsAreFinal(cfg: Config, s: State, before: seq<Event>, after: seq<Event>, o: int)
    requires Initial(s) && Runs(cfg, s, before) && o in Run(cfg, s, before).orders
    requires !Open(Run(cfg, s, before).orders[o].status) && Runs(cfg, Run(cfg, s, before), after)
    ensures
      var (r, t) := (Run(cfg, s, before), Run(cfg, Run(cfg, s, before), after));
      && o in t.orders && t.orders[o].status == r.orders[o].status
      && Credits(t.coinLog, o) == Credits(r.coinLog, o)
  {
    RunKeeps(cfg, s, before, o, 0);
    RunKeeps(cfg, Run(cfg, s, before), after, o, 0);
  }

  /** Settling an order whose buyer has a known referrer pays exactly one commission, unless it rounds to nothing. */
  lemma SettlingPaysReferrer(cfg: Config, s: State, o: int, credited: nat, status: Status)
    requires o in s.orders && s.orders[o].package in cfg.packages && s.orders[o].user in s.accounts
    ensures
      var buyer, coins := s.orders[o].user, cfg.packages[s.orders[o].package];
      var t := Settle(cfg, s, o, credited, true, status);
      var owed := s.accounts[buyer].referrer.Some? && s.accounts[buyer].referrer.value in s.accounts &&
                  coins * cfg.commissionPct >= 100;
      Fees(t.commissions, o) == Fees(s.commissions, o) + if owed then 1 else 0
  {
    var buyer, coins := s.orders[o].user, cfg.packages[s.orders[o].package];
    var s1 := Credit(s, o, buyer, credited);
    var earner := Earner(cfg, s1, buyer, coins);
    if earner.Some? {
      LogFee(s1.commissions, Commission(earner.value, buyer, o, CommissionCoins(cfg, coins)), o, 0);
    }
  }

  // ---------------------------------------------------------------- what decides an order

  /** The gateway has confirmed the payment of the order, or an administrator has. */
  predicate PaidFor(e: Event, o: int) {
    e.order == o && ((e.CallbackEnds? && e.answer.Verified?) || (e.AdminVerifies? && !e.fails))
  }

  /** Money moves for an order only when it has been paid for. */
  lemma StepUnpaid(cfg: Config, s: State, e: Event, o: int)
    requires Enabled(s, e) && !PaidFor(e, o)
    ensures Credits(Apply(cfg, s, e).coinLog, o) == Credits(s.coinLog, o)
    ensures Fees(Apply(cfg, s, e).commissions, o) == Fees(s.commissions, o)
  {
    if e.CallbackEnds? && e.order in s.orders && Payable(cfg, s, e.order) {
      SettleCounts(cfg, s.(locked := s.locked - {e.order}), e.order, e.credited, !e.commissionFails, Approved, o);
    } else if e.AdminVerifies? && e.order in s.orders && Payable(cfg, s, e.order) {
      SettleCounts(cfg, s, e.order, e.credited, true, Completed, o);
    }
  }

  lemma {:induction false} RunUnpaid(cfg: Config, s: State, events: seq<Event>, o: int)
    requires Runs(cfg, s, events) && forall i :: 0 <= i < |events| ==> !PaidFor(events[i], o)
    ensures Credits(Run(cfg, s, events).coinLog, o) == Credits(s.coinLog, o)
    ensures Fees(Run(cfg, s, events).commissions, o) == Fees(s.commissions, o)
    decreases |events|
  {
    if events != [] {
      StepUnpaid(cfg, s, events[0], o);
      RunUnpaid(cfg, Apply(cfg, s, events[0]), events[1..], o);
    }
  }

  /** In every run, an order that ends credited, approved or completed has been paid for. */
  lemma CreditedOnlyIfPaid(cfg: Config, s: State, events: seq<Event>, o: int)
    requires Initial(s) && Runs(cfg, s, events)
    requires
      var r := Run(cfg, s, events);
      Credits(r.coinLog, o) > 0 || Fees(r.commissions, o) > 0 || (o in r.orders && Settled(r.orders[o].status))
    ensures exists i :: 0 <= i < |events| && PaidFor(events[i], o)
  {
    CreditedOnceIffSettled(cfg, s, events, o, 0);
    if forall i :: 0 <= i < |events| ==> !PaidFor(events[i], o) {
      RunUnpaid(cfg, s, events, o);
    }
  }

  /** Nothing but the order's own status and lock is touched. */
  predicate MoneyUntouched(s: State, t: State) {
    t.accounts == s.accounts && t.coinLog == s.coinLog && t.commissions == s.commissions
  }

  ghost predicate OthersUntouched(s: State, t: State, o: int) {
    forall p :: p != o ==>
      (p in t.orders <==> p in s.orders) && (p in s.orders ==> t.orders[p] == s.orders[p])
      && (p in t.locked <==> p in s.locked)
  }

  /** The buyer was credited, and then perhaps the referrer, and nobody else. */
  predicate PaidOut(s: State, t: State, o: int, credited: nat)
    requires o in s.orders
  {
    && |s.coinLog| < |t.coinLog| <= |s.coinLog| + 2
    && t.coinLog[..|s.coinLog|] == s.coinLog
    && t.coinLog[|s.coinLog|] == CoinTx(s.orders[o].user, credited, o, Bought)
    && (|t.coinLog| == |s.coinLog| + 2 ==>
          t.coinLog[|s.coinLog| + 1].source.Referred? && t.coinLog[|s.coinLog| + 1].order == o)
  }

  /**
   * What the gateway's answer does: unreachable, nothing but unlocking; refused, a rejection without
   * money; confirmed, an approval with exactly the credited coins for the buyer, or a failure without
   * money if the buyer is gone.
   */
  lemma AnswerDecides(cfg: Config, s: State, o: int, answer: Answer, credited: nat, commissionFails: bool)
    requires o in s.orders && s.orders[o].package in cfg.packages
    ensures
      var t := EndCallback(cfg, s, o, answer, credited, commissionFails);
      && o !in t.locked && OthersUntouched(s, t, o) && o in t.orders
      && (answer.Unreachable? ==> MoneyUntouched(s, t) && t.orders == s.orders)
      && (answer.Refused? ==> MoneyUntouched(s, t) && t.orders[o] == s.orders[o].(status := Rejected))
      && (answer.Verified? && s.orders[o].user !in s.accounts ==>
            MoneyUntouched(s, t) && t.orders[o] == s.orders[o].(status := Failed))
      && (answer.Verified? && s.orders[o].user in s.accounts ==>
            PaidOut(s, t, o, credited) && t.orders[o] == s.orders[o].(status := Approved))
  {
  }

  /**
   * A callback goes on to the gateway exactly for a pending order of a known package, with the order's
   * own authority, which is not empty, and an OK; otherwise a pending order fails, or is rejected when
   * only the OK is missing, and any other order is left alone.
   */
  lemma CallbackLocksIff(cfg: Config, s: State, o: int, authority: string, statusOk: bool)
    requires o !in s.locked
    ensures
      var t := BeginCallback(cfg, s, o, authority, statusOk);
      var pending := o in s.orders && s.orders[o].status.Pending?;
      var genuine := pending && authority == s.orders[o].authority && |authority| > 0;
      && (o in t.locked <==> genuine && statusOk && s.orders[o].package in cfg.packages)
      && MoneyUntouched(s, t) && OthersUntouched(s, t, o)
      && (pending ==> t.orders[o] == s.orders[o].(status :=
            if o in t.locked then Pending else if genuine && !statusOk then Rejected else Failed))
      && (!pending ==> t == s)
  {
  }

  /** A decision of the administrator: open orders only, all or nothing. */
  lemma AdministratorDecides(cfg: Config, s: State, o: int, credited: nat, fails: bool)
    ensures
      var t, r := AdminVerified(cfg, s, o, credited, fails), AdminRejected(s, o);
      var open := o in s.orders && s.orders[o].status in {Pending, PendingReceipt};
      && (open && Payable(cfg, s, o) && !fails ==>
            PaidOut(s, t, o, credited) && t.orders[o] == s.orders[o].(status := Completed) && OthersUntouched(s, t, o))
      && (!(open && Payable(cfg, s, o) && !fails) ==> t == s)
      && (open ==> MoneyUntouched(s, r) && r.orders[o] == s.orders[o].(status := Rejected) && OthersUntouched(s, r, o))
      && (!open ==> r == s)
  {
  }

  /** An order is placed open and unlocked; a callback that dies leaves nothing but a free row. */
  lemma PlacingAndDying(cfg: Config, s: State, e: Event)
    requires Enabled(s, e) && LocksHoldPending(s)
    ensures
      var t := Apply(cfg, s, e);
      && (e.Place? ==>
            && t.orders == s.orders[e.order :=
                 Order(e.user, e.package, e.authority, if e.receipt then PendingReceipt else Pending)]
            && e.order !in t.locked && MoneyUntouched(s, t))
      && (e.CallbackDies? ==>
            && t.locked == s.locked - {e.order} && t.orders == s.orders && MoneyUntouched(s, t)
            && t.orders[e.order].status.Pending?)
  {
  }
}
