/** The portfolio tracker: the balances and prices the bot last saw, the portfolio value they
    give, the gain against the first value seen, and the walk-away freeze flag. */
module Portfolio {
  import opened Js

  /** One account row from the exchange: `currency`, `balance` and `available`, already
      converted with unary `+`. */
  datatype Account = Account(currency: string, balance: real, available: real)

  /** The object `setBalances` builds with `reduce` and object spread: one key per currency,
      in order of first appearance, a later row for the same currency overwriting the value. */
  function BalancesOf(accounts: seq<Account>): (r: Dict<real>)
    ensures UniqueKeys(r)
  {
    if accounts == [] then []
    else
      var last := accounts[|accounts| - 1];
      PutKeepsUnique(BalancesOf(accounts[..|accounts| - 1]), last.currency, last.balance);
      Put(BalancesOf(accounts[..|accounts| - 1]), last.currency, last.balance)
  }

  /** The balance of the last row for `currency`, the reference reading of `setBalances`. */
  function LastBalance(accounts: seq<Account>, currency: string): Option<real>
  {
    if accounts == [] then None
    else if accounts[|accounts| - 1].currency == currency then Some(accounts[|accounts| - 1].balance)
    else LastBalance(accounts[..|accounts| - 1], currency)
  }

  /** Reading a currency from the built object gives its last row's balance, and the keys are
      exactly the currencies of the rows. */
  lemma {:induction false} BalancesOfLastWins(accounts: seq<Account>, currency: string)
    ensures Get(BalancesOf(accounts), currency) == LastBalance(accounts, currency)
    ensures currency in Keys(BalancesOf(accounts)) <==> exists i :: 0 <= i < |accounts| && accounts[i].currency == currency
    decreases |accounts|
  {
    if accounts != [] {
      var init, last := accounts[..|accounts| - 1], accounts[|accounts| - 1];
      BalancesOfLastWins(init, currency);
      PutSpec(BalancesOf(init), last.currency, last.balance);
      if currency in Keys(BalancesOf(accounts)) && last.currency != currency {
        var i :| 0 <= i < |init| && init[i].currency == currency;
        assert accounts[i] == init[i];
      }
      if exists i :: 0 <= i < |accounts| && accounts[i].currency == currency {
        var i :| 0 <= i < |accounts| && accounts[i].currency == currency;
        if i < |init| {
          assert init[i] == accounts[i];
        }
      }
    }
  }

  /** `id.split("-")[0]`: the base currency of a product id such as "BTC-USD". */
  function BaseCurrency(id: string): (r: string)
    ensures r == id[..IndexOf(id, '-')]
    ensures '-' !in r
  {
    var i := IndexOf(id, '-');
    assert forall j :: 0 <= j < i ==> id[..i][j] == id[j];
    id[..i]
  }

  /** `balances[curr] || 0` read as a number: a missing or zero entry reads as 0. */
  function BalanceOr0(balances: Dict<real>, currency: string): real
  {
    match Get(balances, currency)
    case None => 0.0
    case Some(b) => b
  }

  /** What one price entry adds in `compute`: balance times price when the currency's balance
      is present and positive, nothing otherwise. */
  function Contribution(balances: Dict<real>, entry: (string, real)): (r: real)
    ensures BalanceOr0(balances, entry.0) <= 0.0 ==> r == 0.0
    ensures BalanceOr0(balances, entry.0) > 0.0 ==> r == BalanceOr0(balances, entry.0) * entry.1
  {
    match Get(balances, entry.0)
    case Some(b) => if b > 0.0 then b * entry.1 else 0.0
    case None => 0.0
  }

  /** The `reduce` over the price entries in their insertion order. */
  function HeldValue(balances: Dict<real>, prices: Dict<real>): real
  {
    if prices == [] then 0.0
    else HeldValue(balances, prices[..|prices| - 1]) + Contribution(balances, prices[|prices| - 1])
  }

  /** The value `compute` measures: priced holdings plus the USD balance. */
  function Value(balances: Dict<real>, prices: Dict<real>): real
  {
    HeldValue(balances, prices) + BalanceOr0(balances, "USD")
  }

  /** With no prices known the portfolio is worth its USD balance (0 without a USD row). */
  lemma ValueWithoutPrices(balances: Dict<real>)
    ensures Value(balances, []) == BalanceOr0(balances, "USD")
    ensures "USD" !in Keys(balances) ==> Value(balances, []) == 0.0
  {
  }

  /** Pricing a currency for the first time adds exactly its holding's worth, and nothing if
      the bot holds none of it. */
  lemma NewPriceAddsHolding(balances: Dict<real>, prices: Dict<real>, currency: string, price: real)
    requires currency !in Keys(prices)
    ensures Value(balances, Put(prices, currency, price))
         == Value(balances, prices) + (if BalanceOr0(balances, currency) > 0.0 then BalanceOr0(balances, currency) * price else 0.0)
  {
    PutNewKey(prices, currency, price);
    HeldValueAppend(balances, prices, (currency, price));
  }

  /** A price entry added last adds its contribution. */
  lemma HeldValueAppend(balances: Dict<real>, prices: Dict<real>, e: (string, real))
    ensures HeldValue(balances, prices + [e]) == HeldValue(balances, prices) + Contribution(balances, e)
  {
    assert (prices + [e])[..|prices|] == prices;
  }

  /** Currencies the bot does not hold (balance missing, zero or negative) add nothing. */
  lemma {:induction false} HeldValueOfNothingHeld(balances: Dict<real>, prices: Dict<real>)
    requires forall i :: 0 <= i < |prices| ==> BalanceOr0(balances, prices[i].0) <= 0.0
    ensures HeldValue(balances, prices) == 0.0
    decreases |prices|
  {
    if prices != [] {
      HeldValueOfNothingHeld(balances, prices[..|prices| - 1]);
    }
  }

  /** With non-negative prices the priced holdings are never worth less than nothing. */
  lemma {:induction false} HeldValueNonNegative(balances: Dict<real>, prices: Dict<real>)
    requires forall i :: 0 <= i < |prices| ==> prices[i].1 >= 0.0
    ensures HeldValue(balances, prices) >= 0.0
    decreases |prices|
  {
    if prices != [] {
      HeldValueNonNegative(balances, prices[..|prices| - 1]);
      var e := prices[|prices| - 1];
      if BalanceOr0(balances, e.0) > 0.0 {
        assert BalanceOr0(balances, e.0) * e.1 >= 0.0;
      }
    }
  }

  /** The relative gain `compute` reports for a new value against a non-zero baseline. */
  function Gain(newValue: real, baseline: real): (r: real)
    requires baseline != 0.0
    ensures newValue == baseline ==> r == 0.0
    ensures baseline > 0.0 ==> (r >= 0.0 <==> newValue >= baseline)
    ensures r * baseline == newValue - baseline
  {
    DivMulBack(newValue - baseline, baseline);
    (newValue - baseline) / baseline
  }

  lemma DivMulBack(a: real, b: real)
    requires b != 0.0
    ensures (a / b) * b == a
    ensures b > 0.0 ==> (a / b >= 0.0 <==> a >= 0.0)
  {
  }

  /** The tracker's state: the closure variables `gain`, `initialValue`, `balances`, `prices`
      and `freeze` of the factory. */
  class PortfolioTracker {
    var gain: real
    var initialValue: real
    var balances: Dict<real>
    var prices: Dict<real>
    var frozen: bool

    ghost predicate Valid()
      reads this
    {
      UniqueKeys(prices)
    }

    constructor ()
      ensures Valid()
      ensures gain == 0.0 && initialValue == 0.0 && balances == [] && prices == [] && !frozen
    {
      gain, initialValue, balances, prices, frozen := 0.0, 0.0, [], [], false;
    }

    /** `setBalances`: replaces the whole balance table by the one the account rows give. */
    method SetBalances(accounts: seq<Account>)
      requires Valid()
      modifies this
      ensures Valid()
      ensures balances == BalancesOf(accounts)
      ensures forall c :: Get(balances, c) == LastBalance(accounts, c)
      ensures gain == old(gain) && initialValue == old(initialValue) && prices == old(prices)
      ensures frozen == old(frozen)
    {
      balances := BalancesOf(accounts);
      forall c ensures Get(balances, c) == LastBalance(accounts, c) {
        BalancesOfLastWins(accounts, c);
      }
    }

    /** `setTickerPrice`: records the price under the id's base currency and touches no other
      entry. */
    method SetTickerPrice(id: string, price: real)
      requires Valid()
      modifies this
      ensures Valid()
      ensures prices == Put(old(prices), BaseCurrency(id), price)
      ensures Get(prices, BaseCurrency(id)) == Some(price)
      ensures forall c :: c != BaseCurrency(id) ==> Get(prices, c) == Get(old(prices), c)
      ensures gain == old(gain) && initialValue == old(initialValue) && balances == old(balances)
      ensures frozen == old(frozen)
    {
      PutSpec(prices, BaseCurrency(id), price);
      PutKeepsUnique(prices, BaseCurrency(id), price);
      prices := Put(prices, BaseCurrency(id), price);
    }

    /** `getPrices`. */
    method GetPrices() returns (r: Dict<real>)
      ensures r == prices
    {
      r := prices;
    }

    /** `getBalances`. */
    method GetBalances() returns (r: Dict<real>)
      ensures r == balances
    {
      r := balances;
    }

    /** `reset`: clears gain, baseline and the freeze; balances and prices stay. */
    method Reset()
      requires Valid()
      modifies this
      ensures Valid()
      ensures gain == 0.0 && initialValue == 0.0 && !frozen
      ensures balances == old(balances) && prices == old(prices)
    {
      gain, initialValue, frozen := 0.0, 0.0, false;
    }

    /** `compute`: while there is no baseline (it is 0) the current value becomes the baseline
        and the gain is untouched; afterwards the gain is measured against the baseline. The
        division only happens against a non-zero baseline. */
    method Compute()
      requires Valid()
      modifies this
      ensures Valid()
      ensures old(initialValue) == 0.0 ==> initialValue == Value(balances, prices) && gain == old(gain)
      ensures old(initialValue) != 0.0 ==>
        initialValue == old(initialValue) && gain == Gain(Value(balances, prices), initialValue)
      ensures balances == old(balances) && prices == old(prices) && frozen == old(frozen)
    {
      var newValue := Value(balances, prices);
      if initialValue == 0.0 {
        initialValue := newValue;
      } else {
        gain := (newValue - initialValue) / initialValue;
      }
    }

    /** `getGain`. */
    method GetGain() returns (r: real)
      ensures r == gain
    {
      r := gain;
    }

    /** `freeze`: sets the flag; nothing else changes. */
    method Freeze()
      requires Valid()
      modifies this
      ensures Valid()
      ensures frozen
      ensures gain == old(gain) && initialValue == old(initialValue)
      ensures balances == old(balances) && prices == old(prices)
    {
      frozen := true;
    }

    /** `isFrozen`. */
    method IsFrozen() returns (r: bool)
      ensures r == frozen
    {
      r := frozen;
    }
  }
}
