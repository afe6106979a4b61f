/**
 * The gift engine (services/gift_engine.py): purchases, gateway credits, sales and transfers, each an
 * atomic transaction. Gift types are identified by their unique code and keep a fixed price.
 */
module GiftEconomy {
  datatype GiftType = GiftType(price: nat, active: bool)

  type Catalog = map<string, GiftType>

  datatype Account = Account(balance: int, spent: int)

  datatype Kind = Purchase | GatewayPurchase | Sale | Transfer

  datatype GiftTx = GiftTx(sender: int, receiver: int, code: string, quantity: int, kind: Kind, coinsSpent: int)

  /** `reference` is the position of the gift transaction it belongs to. */
  datatype CoinTx = CoinTx(user: int, amount: int, reference: nat)

  datatype Economy = Economy(
    users: map<int, Account>,
    inventory: map<(int, string), int>,
    gifts: seq<GiftTx>,
    coins: seq<CoinTx>)

  datatype Outcome = Done | BadQuantity | NoUser | NoGift | TooFewCoins | TooFewGifts | SelfTransfer

  function Balance(e: Economy, u: int): int { if u in e.users then e.users[u].balance else 0 }

  function Spent(e: Economy, u: int): int { if u in e.users then e.users[u].spent else 0 }

  function Holding(e: Economy, u: int, code: string): int {
    if (u, code) in e.inventory then e.inventory[(u, code)] else 0
  }

  // ---------------------------------------------------------------- the operations as functions

  function WithHolding(e: Economy, u: int, code: string, change: int): Economy {
    e.(inventory := e.inventory[(u, code) := Holding(e, u, code) + change])
  }

  function WithCoins(e: Economy, u: int, change: int, spent: int): Economy
    requires u in e.users
  {
    e.(users := e.users[u := Account(e.users[u].balance + change, e.users[u].spent + spent)])
  }

  function Logged(e: Economy, tx: GiftTx): Economy { e.(gifts := e.gifts + [tx]) }

  /** A coin transaction refers to the gift transaction logged last. */
  function Paid(e: Economy, u: int, amount: int): Economy
    requires e.gifts != []
  {
    e.(coins := e.coins + [CoinTx(u, amount, |e.gifts| - 1)])
  }

  /** 80 percent of the price, rounded down. */
  function SellPrice(price: nat): nat { price * 80 / 100 }

  function Purchased(cat: Catalog, e: Economy, buyer: int, code: string, quantity: int): (Economy, Outcome) {
    if quantity < 1 || quantity > 100 then (e, BadQuantity)
    else if buyer !in e.users then (e, NoUser)
    else if code !in cat || !cat[code].active then (e, NoGift)
    else
      var cost := cat[code].price * quantity;
      if e.users[buyer].balance < cost then (e, TooFewCoins)
      else
        var e1 := WithHolding(WithCoins(e, buyer, -cost, cost), buyer, code, quantity);
        (Paid(Logged(e1, GiftTx(buyer, buyer, code, quantity, Purchase, cost)), buyer, -cost), Done)
  }

  function Credited(cat: Catalog, e: Economy, buyer: int, code: string, quantity: int, order: bool)
    : (Economy, Outcome)
  {
    if quantity < 1 || quantity > 100 then (e, BadQuantity)
    else if code !in cat || !cat[code].active then (e, NoGift)
    else
      var e1 := WithHolding(e, buyer, code, quantity);
      var e2 := Logged(e1, GiftTx(buyer, buyer, code, quantity, GatewayPurchase, 0));
      (if order then Paid(e2, buyer, 0) else e2, Done)
  }

  function Sold(cat: Catalog, e: Economy, user: int, code: string, quantity: int): (Economy, Outcome) {
    if quantity < 1 then (e, BadQuantity)
    else if code !in cat then (e, NoGift)
    else if (user, code) !in e.inventory || e.inventory[(user, code)] < quantity then (e, TooFewGifts)
    else if user !in e.users then (e, NoUser)
    else
      var earned := SellPrice(cat[code].price) * quantity;
      var e1 := WithCoins(WithHolding(e, user, code, -quantity), user, earned, 0);
      (Paid(Logged(e1, GiftTx(user, user, code, quantity, Sale, -earned)), user, earned), Done)
  }

  function Transferred(cat: Catalog, e: Economy, sender: int, receiver: int, code: string, quantity: int)
    : (Economy, Outcome)
  {
    if sender == receiver then (e, SelfTransfer)
    else if quantity < 1 then (e, BadQuantity)
    else if code !in cat then (e, NoGift)
    else if (sender, code) !in e.inventory || e.inventory[(sender, code)] < quantity then (e, TooFewGifts)
    else
      var e1 := WithHolding(WithHolding(e, sender, code, -quantity), receiver, code, quantity);
      (Logged(e1, GiftTx(sender, receiver, code, quantity, Transfer, 0)), Done)
  }

  // ---------------------------------------------------------------- the operations as methods

  class GiftEngine {
    const catalog: Catalog
    var users: map<int, Account>
    var inventory: map<(int, string), int>
    var gifts: seq<GiftTx>
    var coins: seq<CoinTx>

    constructor (catalog: Catalog, users: map<int, Account>)
      ensures this.catalog == catalog && State() == Economy(users, map[], [], [])
    {
      this.catalog, this.users := catalog, users;
      inventory, gifts, coins := map[], [], [];
    }

    function State(): Economy
      reads this
    {
      Economy(users, inventory, gifts, coins)
    }

    method AddGifts(owner: int, code: string, quantity: int)
      modifies this`inventory
      ensures State() == WithHolding(old(State()), owner, code, quantity)
    {
      if (owner, code) in inventory {
        inventory := inventory[(owner, code) := inventory[(owner, code)] + quantity];
      } else {
        inventory := inventory[(owner, code) := quantity];
      }
    }

    method PurchaseGift(buyer: int, code: string, quantity: int) returns (outcome: Outcome)
      modifies this
      ensures (State(), outcome) == Purchased(catalog, old(State()), buyer, code, quantity)
    {
      if quantity < 1 || quantity > 100 {
        return BadQuantity;
      }
      if buyer !in users {
        return NoUser;
      }
      if code !in catalog || !catalog[code].active {
        return NoGift;
      }
      var cost := catalog[code].price * quantity;
      var account := users[buyer];
      if account.balance < cost {
        return TooFewCoins;
      }
      users := users[buyer := account.(balance := account.balance - cost, spent := account.spent + cost)];
      AddGifts(buyer, code, quantity);
      gifts := gifts + [GiftTx(buyer, buyer, code, quantity, Purchase, cost)];
      coins := coins + [CoinTx(buyer, -cost, |gifts| - 1)];
      return Done;
    }

    method CreditGift(buyer: int, code: string, quantity: int, order: bool) returns (outcome: Outcome)
      modifies this
      ensures (State(), outcome) == Credited(catalog, old(State()), buyer, code, quantity, order)
    {
      if quantity < 1 || quantity > 100 {
        return BadQuantity;
      }
      if code !in catalog || !catalog[code].active {
        return NoGift;
      }
      AddGifts(buyer, code, quantity);
      gifts := gifts + [GiftTx(buyer, buyer, code, quantity, GatewayPurchase, 0)];
      if order {
        coins := coins + [CoinTx(buyer, 0, |gifts| - 1)];
      }
      return Done;
    }

    method SellGift(user: int, code: string, quantity: int) returns (outcome: Outcome)
      modifies this
      ensures (State(), outcome) == Sold(catalog, old(State()), user, code, quantity)
    {
      if quantity < 1 {
        return BadQuantity;
      }
      if code !in catalog {
        return NoGift;
      }
      if (user, code) !in inventory || inventory[(user, code)] < quantity {
        return TooFewGifts;
      }
      if user !in users {
        return NoUser;
      }
      var earned := SellPrice(catalog[code].price) * quantity;
      inventory := inventory[(user, code) := inventory[(user, code)] - quantity];
      users := users[user := users[user].(balance := users[user].balance + earned)];
      gifts := gifts + [GiftTx(user, user, code, quantity, Sale, -earned)];
      coins := coins + [CoinTx(user, earned, |gifts| - 1)];
      return Done;
    }

    method TransferGift(sender: int, receiver: int, code: string, quantity: int) returns (outcome: Outcome)
      modifies this
      ensures (State(), outcome) == Transferred(catalog, old(State()), sender, receiver, code, quantity)
    {
      if sender == receiver {
        return SelfTransfer;
      }
      if quantity < 1 {
        return BadQuantity;
      }
      if code !in catalog {
        return NoGift;
      }
      if (sender, code) !in inventory || inventory[(sender, code)] < quantity {
        return TooFewGifts;
      }
      inventory := inventory[(sender, code) := inventory[(sender, code)] - quantity];
      AddGifts(receiver, code, quantity);
      gifts := gifts + [GiftTx(sender, receiver, code, quantity, Transfer, 0)];
      return Done;
    }
  }

  // ---------------------------------------------------------------- runs

  datatype Operation =
    | Buy(user: int, code: string, quantity: int)
    | Credit(user: int, code: string, quantity: int, order: bool)
    | Sell(user: int, code: string, quantity: int)
    | Give(sender: int, receiver: int, code: string, quantity: int)

  function Apply(cat: Catalog, e: Economy, op: Operation): (Economy, Outcome) {
    match op
    case Buy(u, code, q) => Purchased(cat, e, u, code, q)
    case Credit(u, code, q, order) => Credited(cat, e, u, code, q, order)
    case Sell(u, code, q) => Sold(cat, e, u, code, q)
    case Give(u, v, code, q) => Transferred(cat, e, u, v, code, q)
  }

  function Run(cat: Catalog, e: Economy, ops: seq<Operation>): Economy
    decreases |ops|
  {
    if ops == [] then e else Run(cat, Apply(cat, e, ops[0]).0, ops[1..])
  }

  // ---------------------------------------------------------------- the ledgers

  function CoinSum(log: seq<CoinTx>, u: int): int {
    if log == [] then 0
    else CoinSum(log[..|log| - 1], u) + if log[|log| - 1].user == u then log[|log| - 1].amount else 0
  }

  /** What a gift transaction adds to a user's holding. */
  function Signed(tx: GiftTx, u: int, code: string): int {
    if tx.code != code then 0
    else
      match tx.kind
      case Sale => if tx.sender == u then -tx.quantity else 0
      case Transfer => (if tx.receiver == u then tx.quantity else 0) - (if tx.sender == u then tx.quantity else 0)
      case _ => if tx.receiver == u then tx.quantity else 0
  }

  function GiftSum(log: seq<GiftTx>, u: int, code: string): int {
    if log == [] then 0 else GiftSum(log[..|log| - 1], u, code) + Signed(log[|log| - 1], u, code)
  }

  function SpentSum(log: seq<GiftTx>, u: int): int {
    if log == [] then 0
    else
      var tx := log[|log| - 1];
      SpentSum(log[..|log| - 1], u) + if tx.sender == u && tx.kind.Purchase? then tx.coinsSpent else 0
  }

  lemma AppendGift(log: seq<GiftTx>, tx: GiftTx, u: int, code: string)
    ensures GiftSum(log + [tx], u, code) == GiftSum(log, u, code) + Signed(tx, u, code)
    ensures SpentSum(log + [tx], u) ==
            SpentSum(log, u) + if tx.sender == u && tx.kind.Purchase? then tx.coinsSpent else 0
  {
    assert (log + [tx])[..|log|] == log;
  }

  lemma AppendCoin(log: seq<CoinTx>, tx: CoinTx, u: int)
    ensures CoinSum(log + [tx], u) == CoinSum(log, u) + if tx.user == u then tx.amount else 0
  {
    assert (log + [tx])[..|log|] == log;
  }

  /** What the books do not explain: constant over every run. */
  function UnbookedCoins(e: Economy, u: int): int { Balance(e, u) - CoinSum(e.coins, u) }

  function UnbookedGifts(e: Economy, u: int, code: string): int { Holding(e, u, code) - GiftSum(e.gifts, u, code) }

  function UnbookedSpending(e: Economy, u: int): int { Spent(e, u) - SpentSum(e.gifts, u) }

  /** The gift transaction a successful operation logs. */
  function GiftEntry(cat: Catalog, op: Operation): GiftTx
    requires op.code in cat
  {
    var p, q := cat[op.code].price, op.quantity;
    match op
    case Buy(u, code, _) => GiftTx(u, u, code, q, Purchase, p * q)
    case Credit(u, code, _, _) => GiftTx(u, u, code, q, GatewayPurchase, 0)
    case Sell(u, code, _) => GiftTx(u, u, code, q, Sale, -(SellPrice(p) * q))
    case Give(u, v, code, _) => GiftTx(u, v, code, q, Transfer, 0)
  }

  lemma SuccessLogs(cat: Catalog, e: Economy, op: Operation)
    ensures
      var (e', outcome) := Apply(cat, e, op);
      if outcome == Done then op.code in cat && e'.gifts == e.gifts + [GiftEntry(cat, op)] else e' == e
  {
  }

  lemma StepCoins(cat: Catalog, e: Economy, op: Operation, u: int)
    ensures UnbookedCoins(Apply(cat, e, op).0, u) == UnbookedCoins(e, u)
    ensures Apply(cat, e, op).0.users.Keys == e.users.Keys
  {
    var e' := Apply(cat, e, op).0;
    if e'.coins != e.coins {
      var tx := e'.coins[|e.coins|];
      assert e'.coins == e.coins + [tx];
      AppendCoin(e.coins, tx, u);
    }
  }

  lemma StepGifts(cat: Catalog, e: Economy, op: Operation, u: int, code: string)
    ensures UnbookedGifts(Apply(cat, e, op).0, u, code) == UnbookedGifts(e, u, code)
  {
    SuccessLogs(cat, e, op);
    if Apply(cat, e, op).1 == Done {
      AppendGift(e.gifts, GiftEntry(cat, op), u, code);
    }
  }

  lemma StepSpending(cat: Catalog, e: Economy, op: Operation, u: int)
    ensures UnbookedSpending(Apply(cat, e, op).0, u) == UnbookedSpending(e, u)
  {
    SuccessLogs(cat, e, op);
    if Apply(cat, e, op).1 == Done {
      AppendGift(e.gifts, GiftEntry(cat, op), u, "");
    }
  }

  predicate NonNegative(e: Economy) {
    && (forall u :: u in e.users ==> e.users[u].balance >= 0)
    && (forall k :: k in e.inventory ==> e.inventory[k] >= 0)
  }

  /** Every coin transaction is backed by a gift transaction of the same user and amount. */
  predicate Audited(e: Economy) {
    forall i :: 0 <= i < |e.coins| ==>
      && e.coins[i].reference < |e.gifts|
      && e.gifts[e.coins[i].reference].sender == e.coins[i].user
      && e.gifts[e.coins[i].reference].coinsSpent == -e.coins[i].amount
  }

  lemma StepNonNegative(cat: Catalog, e: Economy, op: Operation)
    requires NonNegative(e)
    ensures NonNegative(Apply(cat, e, op).0)
  {
    if op.code in cat && op.quantity >= 1 {
      NonNegativeProduct(SellPrice(cat[op.code].price), op.quantity);
    }
  }

  lemma StepAudited(cat: Catalog, e: Economy, op: Operation)
    requires Audited(e)
    ensures Audited(Apply(cat, e, op).0)
    ensures e.gifts <= Apply(cat, e, op).0.gifts && e.coins <= Apply(cat, e, op).0.coins
  {
  }

  lemma NonNegativeProduct(a: nat, b: nat)
    ensures a * b >= 0
  {
  }

  /** A refused operation changes nothing; a successful one keeps the books in order. */
  lemma StepKeepsBooks(cat: Catalog, e: Economy, op: Operation)
    requires NonNegative(e) && Audited(e)
    ensures NonNegative(Apply(cat, e, op).0) && Audited(Apply(cat, e, op).0)
    ensures Apply(cat, e, op).1 != Done ==> Apply(cat, e, op).0 == e
    ensures e.gifts <= Apply(cat, e, op).0.gifts && e.coins <= Apply(cat, e, op).0.coins
  {
    StepNonNegative(cat, e, op);
    StepAudited(cat, e, op);
  }

  /**
   * Over any sequence of operations every balance is its start plus the user's coin transactions,
   * every holding its start plus the signed gift transactions, spending likewise; nothing becomes
   * negative, the logs only grow, and every coin transaction has its gift transaction.
   */
  lemma {:induction false} LedgersExplainEverything(cat: Catalog, e: Economy, ops: seq<Operation>, u: int, code: string)
    requires NonNegative(e) && Audited(e)
    ensures
      var r := Run(cat, e, ops);
      && Balance(r, u) == Balance(e, u) + (CoinSum(r.coins, u) - CoinSum(e.coins, u))
      && Holding(r, u, code) == Holding(e, u, code) + (GiftSum(r.gifts, u, code) - GiftSum(e.gifts, u, code))
      && Spent(r, u) == Spent(e, u) + (SpentSum(r.gifts, u) - SpentSum(e.gifts, u))
      && NonNegative(r) && Audited(r)
      && e.gifts <= r.gifts && e.coins <= r.coins
    decreases |ops|
  {
    if ops != [] {
      StepCoins(cat, e, ops[0], u);
      StepGifts(cat, e, ops[0], u, code);
      StepSpending(cat, e, ops[0], u);
      StepKeepsBooks(cat, e, ops[0]);
      LedgersExplainEverything(cat, Apply(cat, e, ops[0]).0, ops[1..], u, code);
    }
  }

  // ---------------------------------------------------------------- who gains and who pays

  /** The user on whose behalf an operation is made. */
  function Actor(op: Operation): int { if op.Give? then op.sender else op.user }

  /** An operation goes through exactly when the actor can pay for it with coins or gifts of their own. */
  lemma DoneIffAffordable(cat: Catalog, e: Economy, op: Operation)
    ensures Apply(cat, e, op).1 == Done <==>
      && op.quantity >= 1 && op.code in cat
      && (op.Buy? || op.Credit? ==> op.quantity <= 100 && cat[op.code].active)
      && (op.Buy? || op.Sell? ==> Actor(op) in e.users)
      && (op.Buy? ==> Balance(e, Actor(op)) >= cat[op.code].price * op.quantity)
      && (op.Sell? || op.Give? ==> Holding(e, Actor(op), op.code) >= op.quantity)
      && (op.Give? ==> op.sender != op.receiver)
  {
  }

  /** Gifts of type `code` handed to `u` by others. */
  function Received(cat: Catalog, e: Economy, ops: seq<Operation>, u: int, code: string): nat
    decreases |ops|
  {
    if ops == [] then 0
    else
      var (e', outcome) := Apply(cat, e, ops[0]);
      var here := ops[0].Give? && ops[0].receiver == u && ops[0].code == code && outcome == Done;
      (if here && ops[0].quantity > 0 then ops[0].quantity else 0) + Received(cat, e', ops[1..], u, code)
  }

  /** Whoever takes no part in a run keeps their coins, and their gifts only grow by what others hand them. */
  lemma {:induction false} BystandersNeverPay(cat: Catalog, e: Economy, ops: seq<Operation>, u: int, code: string)
    requires forall i :: 0 <= i < |ops| ==> Actor(ops[i]) != u
    ensures
      var r := Run(cat, e, ops);
      && Balance(r, u) == Balance(e, u) && Spent(r, u) == Spent(e, u)
      && Holding(r, u, code) == Holding(e, u, code) + Received(cat, e, ops, u, code)
    decreases |ops|
  {
    if ops != [] {
      BystandersNeverPay(cat, Apply(cat, e, ops[0]).0, ops[1..], u, code);
    }
  }

  // ---------------------------------------------------------------- wealth

  ghost function Sum<K(!new)>(m: map<K, int>): int
    decreases |m|
  {
    if m == map[] then 0 else var k :| k in m; MapSmaller(m, k); m[k] + Sum(m - {k})
  }

  lemma MapSmaller<K>(m: map<K, int>, k: K)
    requires k in m
    ensures |m - {k}| == |m| - 1
  {
    assert (m - {k}).Keys == m.Keys - {k};
  }

  lemma {:induction false} SumWithout<K(!new)>(m: map<K, int>, k: K)
    requires k in m
    ensures Sum(m) == m[k] + Sum(m - {k})
    decreases |m|
  {
    var x :| x in m && Sum(m) == m[x] + Sum(m - {x});
    if x != k {
      MapSmaller(m, x);
      MapSmaller(m, k);
      SumWithout(m - {x}, k);
      SumWithout(m - {k}, x);
      assert m - {x} - {k} == m - {k} - {x};
    }
  }

  lemma SumUpdated<K(!new)>(m: map<K, int>, k: K, v: int)
    ensures Sum(m[k := v]) == Sum(m) + v - if k in m then m[k] else 0
  {
    SumWithout(m[k := v], k);
    assert m[k := v] - {k} == m - {k};
    if k in m {
      SumWithout(m, k);
    } else {
      assert m - {k} == m;
    }
  }

  function Price(cat: Catalog, code: string): nat { if code in cat then cat[code].price else 0 }

  function Balances(e: Economy): map<int, int> { map u | u in e.users :: e.users[u].balance }

  function Worths(cat: Catalog, e: Economy): map<(int, string), int> {
    map k | k in e.inventory :: e.inventory[k] * Price(cat, k.1)
  }

  /** All coins plus all inventories at list price. */
  ghost function Wealth(cat: Catalog, e: Economy): int { Sum(Balances(e)) + Sum(Worths(cat, e)) }

  /** A fifth of the price, rounded up: what selling back costs. */
  function FifthUp(price: nat): nat { (price + 4) / 5 }

  /** What a gift transaction does to the total wealth. */
  function WealthChange(cat: Catalog, tx: GiftTx): int {
    match tx.kind
    case GatewayPurchase => tx.quantity * Price(cat, tx.code)
    case Sale => -(tx.quantity * FifthUp(Price(cat, tx.code)))
    case _ => 0
  }

  function WealthChanges(cat: Catalog, log: seq<GiftTx>): int {
    if log == [] then 0 else WealthChanges(cat, log[..|log| - 1]) + WealthChange(cat, log[|log| - 1])
  }

  lemma CoinsChangeWealth(cat: Catalog, e: Economy, u: int, change: int, spent: int)
    requires u in e.users
    ensures Wealth(cat, WithCoins(e, u, change, spent)) == Wealth(cat, e) + change
  {
    var e' := WithCoins(e, u, change, spent);
    assert Balances(e') == Balances(e)[u := e.users[u].balance + change];
    SumUpdated(Balances(e), u, e.users[u].balance + change);
    assert Worths(cat, e') == Worths(cat, e);
  }

  lemma GiftsChangeWealth(cat: Catalog, e: Economy, u: int, code: string, change: int)
    ensures Wealth(cat, WithHolding(e, u, code, change)) == Wealth(cat, e) + change * Price(cat, code)
  {
    var e' := WithHolding(e, u, code, change);
    var p, k := Price(cat, code), (u, code);
    assert Worths(cat, e') == Worths(cat, e)[k := (Holding(e, u, code) + change) * p];
    SumUpdated(Worths(cat, e), k, (Holding(e, u, code) + change) * p);
    assert (Holding(e, u, code) + change) * p == Holding(e, u, code) * p + change * p;
    assert Balances(e') == Balances(e);
  }

  lemma LogsLeaveWealth(cat: Catalog, e: Economy, gifts: seq<GiftTx>, coins: seq<CoinTx>)
    ensures Wealth(cat, e.(gifts := gifts, coins := coins)) == Wealth(cat, e)
  {
    var e' := e.(gifts := gifts, coins := coins);
    assert Balances(e') == Balances(e) && Worths(cat, e') == Worths(cat, e);
  }

  lemma SellingLoss(price: nat, q: int)
    ensures -q * price + SellPrice(price) * q == -(q * FifthUp(price))
  {
    assert SellPrice(price) == price - FifthUp(price);
    assert (price - FifthUp(price)) * q == price * q - FifthUp(price) * q;
  }

  lemma ProductsCancel(price: int, q: int)
    ensures -(price * q) + q * price == 0 && -q * price + q * price == 0
  {
  }

  lemma BuyWealth(cat: Catalog, e: Economy, u: int, code: string, q: int)
    requires Purchased(cat, e, u, code, q).1 == Done
    ensures Wealth(cat, Purchased(cat, e, u, code, q).0) == Wealth(cat, e)
  {
    var p, e' := cat[code].price, Purchased(cat, e, u, code, q).0;
    var cost := p * q;
    var e1 := WithCoins(e, u, -cost, cost);
    var e2 := WithHolding(e1, u, code, q);
    ProductsCancel(p, q);
    assert e' == e2.(gifts := e'.gifts, coins := e'.coins);
    CoinsChangeWealth(cat, e, u, -cost, cost);
    GiftsChangeWealth(cat, e1, u, code, q);
    LogsLeaveWealth(cat, e2, e'.gifts, e'.coins);
  }

  lemma SellWealth(cat: Catalog, e: Economy, u: int, code: string, q: int)
    requires Sold(cat, e, u, code, q).1 == Done
    ensures Wealth(cat, Sold(cat, e, u, code, q).0) == Wealth(cat, e) - q * FifthUp(cat[code].price)
  {
    var p, e' := cat[code].price, Sold(cat, e, u, code, q).0;
    var earned := SellPrice(p) * q;
    var e1 := WithHolding(e, u, code, -q);
    var e2 := WithCoins(e1, u, earned, 0);
    SellingLoss(p, q);
    assert e' == e2.(gifts := e'.gifts, coins := e'.coins);
    GiftsChangeWealth(cat, e, u, code, -q);
    CoinsChangeWealth(cat, e1, u, earned, 0);
    LogsLeaveWealth(cat, e2, e'.gifts, e'.coins);
  }

  lemma GiveWealth(cat: Catalog, e: Economy, u: int, v: int, code: string, q: int)
    requires Transferred(cat, e, u, v, code, q).1 == Done
    ensures Wealth(cat, Transferred(cat, e, u, v, code, q).0) == Wealth(cat, e)
  {
    var p, e' := cat[code].price, Transferred(cat, e, u, v, code, q).0;
    var e1 := WithHolding(e, u, code, -q);
    var e2 := WithHolding(e1, v, code, q);
    ProductsCancel(p, q);
    assert e' == e2.(gifts := e'.gifts, coins := e'.coins);
    GiftsChangeWealth(cat, e, u, code, -q);
    GiftsChangeWealth(cat, e1, v, code, q);
    LogsLeaveWealth(cat, e2, e'.gifts, e'.coins);
  }

  lemma CreditWealth(cat: Catalog, e: Economy, u: int, code: string, q: int, order: bool)
    requires Credited(cat, e, u, code, q, order).1 == Done
    ensures Wealth(cat, Credited(cat, e, u, code, q, order).0) == Wealth(cat, e) + q * cat[code].price
  {
    var e', e1 := Credited(cat, e, u, code, q, order).0, WithHolding(e, u, code, q);
    assert e' == e1.(gifts := e'.gifts, coins := e'.coins);
    GiftsChangeWealth(cat, e, u, code, q);
    LogsLeaveWealth(cat, e1, e'.gifts, e'.coins);
  }

  lemma StepWealth(cat: Catalog, e: Economy, op: Operation)
    ensures
      var (e', outcome) := Apply(cat, e, op);
      Wealth(cat, e') == Wealth(cat, e) + if outcome == Done then WealthChange(cat, GiftEntry(cat, op)) else 0
  {
    SuccessLogs(cat, e, op);
    if Apply(cat, e, op).1 == Done {
      match op
      case Buy(u, code, q) => BuyWealth(cat, e, u, code, q);
      case Credit(u, code, q, order) => CreditWealth(cat, e, u, code, q, order);
      case Sell(u, code, q) => SellWealth(cat, e, u, code, q);
      case Give(u, v, code, q) => GiveWealth(cat, e, u, v, code, q);
    }
  }

  lemma AppendChange(cat: Catalog, log: seq<GiftTx>, tx: GiftTx)
    ensures WealthChanges(cat, log + [tx]) == WealthChanges(cat, log) + WealthChange(cat, tx)
  {
    assert (log + [tx])[..|log|] == log;
  }

  lemma StepBookedWealth(cat: Catalog, e: Economy, op: Operation)
    ensures
      var e' := Apply(cat, e, op).0;
      Wealth(cat, e') - WealthChanges(cat, e'.gifts) == Wealth(cat, e) - WealthChanges(cat, e.gifts)
  {
    SuccessLogs(cat, e, op);
    StepWealth(cat, e, op);
    if Apply(cat, e, op).1 == Done {
      AppendChange(cat, e.gifts, GiftEntry(cat, op));
    }
  }

  /** Without a gateway purchase an operation never raises the wealth. */
  lemma StepNoGain(cat: Catalog, e: Economy, op: Operation)
    requires !op.Credit?
    ensures Wealth(cat, Apply(cat, e, op).0) <= Wealth(cat, e)
  {
    StepWealth(cat, e, op);
    if op.Sell? && Apply(cat, e, op).1 == Done {
      NonNegativeProduct(op.quantity, FifthUp(Price(cat, op.code)));
    }
  }

  /**
   * Wealth is accounted for exactly: over any run, coins plus inventory at list price change by what
   * gateway purchases bring in, less a fifth of the price, rounded up, for every gift sold.
   */
  lemma {:induction false} WealthIsConserved(cat: Catalog, e: Economy, ops: seq<Operation>)
    ensures
      var r := Run(cat, e, ops);
      Wealth(cat, r) == Wealth(cat, e) + (WealthChanges(cat, r.gifts) - WealthChanges(cat, e.gifts))
    decreases |ops|
  {
    if ops != [] {
      StepBookedWealth(cat, e, ops[0]);
      WealthIsConserved(cat, Apply(cat, e, ops[0]).0, ops[1..]);
    }
  }

  /** No arbitrage: without gateway purchases no sequence of operations makes the users richer. */
  lemma {:induction false} NoArbitrage(cat: Catalog, e: Economy, ops: seq<Operation>)
    requires forall i :: 0 <= i < |ops| ==> !ops[i].Credit?
    ensures Wealth(cat, Run(cat, e, ops)) <= Wealth(cat, e)
    decreases |ops|
  {
    if ops != [] {
      StepNoGain(cat, e, ops[0]);
      NoArbitrage(cat, Apply(cat, e, ops[0]).0, ops[1..]);
    }
  }

  // ---------------------------------------------------------------- entries and refusals

  /** A gateway credit moves no coins; it logs a zero coin entry exactly when it belongs to an order. */
  lemma CreditEntries(cat: Catalog, e: Economy, u: int, code: string, q: int, order: bool)
    requires Credited(cat, e, u, code, q, order).1 == Done
    ensures
      var r := Credited(cat, e, u, code, q, order).0;
      && r.users == e.users && Holding(r, u, code) == Holding(e, u, code) + q
      && r.coins == if order then e.coins + [CoinTx(u, 0, |e.gifts|)] else e.coins
  {
  }

  /** Every refusal gives a true reason. */
  lemma RefusalsAreTrue(cat: Catalog, e: Economy, op: Operation)
    ensures
      var outcome := Apply(cat, e, op).1;
      match outcome
      case Done => true
      case BadQuantity => op.quantity < 1 || ((op.Buy? || op.Credit?) && op.quantity > 100)
      case NoUser => Actor(op) !in e.users
      case NoGift => op.code !in cat || !cat[op.code].active
      case TooFewCoins => op.Buy? && op.code in cat && Balance(e, op.user) < cat[op.code].price * op.quantity
      case TooFewGifts => Holding(e, Actor(op), op.code) < op.quantity
      case SelfTransfer => op.Give? && op.sender == op.receiver
  {
  }
}
