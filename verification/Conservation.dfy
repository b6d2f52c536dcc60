/**
 Market-wide conservation: every trade is a Buy fill for one account and a Sell fill for another, delivered
 in any interleaving with everything else. Delivered and undelivered legs together never change any total.
 */
module Conservation {
  import opened Types
  import opened AccountModule

  /** A fill on its way to an account. */
  datatype Leg = Leg(account: nat, response: OrderResponse)

  datatype Exchange = Exchange(accounts: seq<Account>, pending: seq<Leg>)

  datatype Action =
    | Trade(buy: Leg, sell: Leg)
    | Deliver(leg: nat)
    | Other(account: nat, response: OrderResponse)

  predicate ValidLeg(m: Exchange, l: Leg, side: Side) {
    l.account < |m.accounts| && Fills(l.response) && l.response.side == side
  }

  /** The two legs of a trade agree on symbol, quantity and price; any other message is not a fill. */
  predicate Enabled(m: Exchange, a: Action) {
    match a
    case Trade(b, s) =>
      && ValidLeg(m, b, Buy) && ValidLeg(m, s, Sell)
      && b.response.symbolId == s.response.symbolId
      && b.response.q == s.response.q && b.response.p == s.response.p
    case Deliver(i) => i < |m.pending| && m.pending[i].account < |m.accounts|
    case Other(i, r) => i < |m.accounts| && !Fills(r)
  }

  function Step(m: Exchange, a: Action): Exchange {
    if !Enabled(m, a) then m
    else
      match a
      case Trade(b, s) => m.(pending := m.pending + [b] + [s])
      case Deliver(i) =>
        var leg := m.pending[i];
        Exchange(m.accounts[leg.account := HandleOrder(m.accounts[leg.account], leg.response)],
               m.pending[..i] + m.pending[i + 1..])
      case Other(i, r) => m.(accounts := m.accounts[i := HandleOrder(m.accounts[i], r)])
  }

  function Run(m: Exchange, actions: seq<Action>): Exchange {
    if actions == [] then m else Step(Run(m, actions[..|actions| - 1]), actions[|actions| - 1])
  }

  /** The sum of one key over all accounts; key 0 is cash. */
  function Held(accounts: seq<Account>, key: nat): int {
    if accounts == [] then 0
    else Held(accounts[..|accounts| - 1], key) + Position(accounts[|accounts| - 1].positions, key)
  }

  /** What the undelivered legs will add to a key. */
  function Owed(pending: seq<Leg>, key: nat): int {
    if pending == [] then 0
    else Owed(pending[..|pending| - 1], key) + Delta(pending[|pending| - 1].response, key)
  }

  function Total(m: Exchange, key: nat): int {
    Held(m.accounts, key) + Owed(m.pending, key)
  }

  lemma {:induction false} HeldUpdate(accounts: seq<Account>, i: nat, a: Account, key: nat)
    requires i < |accounts|
    ensures Held(accounts[i := a], key)
         == Held(accounts, key) - Position(accounts[i].positions, key) + Position(a.positions, key)
  {
    var n := |accounts| - 1;
    if i == n {
      assert accounts[i := a][..n] == accounts[..n];
    } else {
      HeldUpdate(accounts[..n], i, a, key);
      assert accounts[i := a][..n] == accounts[..n][i := a];
    }
  }

  lemma {:induction false} OwedRemove(pending: seq<Leg>, i: nat, key: nat)
    requires i < |pending|
    ensures Owed(pending[..i] + pending[i + 1..], key) == Owed(pending, key) - Delta(pending[i].response, key)
  {
    var n := |pending| - 1;
    var rest := pending[..i] + pending[i + 1..];
    if i == n {
      assert rest == pending[..n];
    } else {
      OwedRemove(pending[..n], i, key);
      assert rest[..n - 1] == pending[..n][..i] + pending[..n][i + 1..];
    }
  }

  lemma OwedAppend(pending: seq<Leg>, l: Leg, key: nat)
    ensures Owed(pending + [l], key) == Owed(pending, key) + Delta(l.response, key)
  {
    assert (pending + [l])[..|pending|] == pending;
  }

  lemma LegsCancel(b: OrderResponse, s: OrderResponse, key: nat)
    requires b.side == Buy && s.side == Sell
    requires b.symbolId == s.symbolId && b.q == s.q && b.p == s.p
    ensures Delta(b, key) + Delta(s, key) == 0
  {
  }

  /** Every undelivered leg is a fill. */
  predicate OnlyFills(m: Exchange) {
    forall i :: 0 <= i < |m.pending| ==> Fills(m.pending[i].response)
  }

  lemma TradeConserves(m: Exchange, b: Leg, s: Leg, key: nat)
    requires OnlyFills(m) && Enabled(m, Trade(b, s))
    ensures OnlyFills(Step(m, Trade(b, s))) && Total(Step(m, Trade(b, s)), key) == Total(m, key)
  {
    hide Held, Owed, Delta;
    OwedAppend(m.pending, b, key);
    OwedAppend(m.pending + [b], s, key);
    LegsCancel(b.response, s.response, key);
  }

  /** Handling a fill moves its leg from what is owed to what is held. */
  lemma DeliverConserves(m: Exchange, i: nat, key: nat)
    requires OnlyFills(m) && Enabled(m, Deliver(i))
    ensures OnlyFills(Step(m, Deliver(i))) && Total(Step(m, Deliver(i)), key) == Total(m, key)
  {
    hide Held, Owed, Delta, Position, ApplyFill;
    var leg := m.pending[i];
    var before := m.accounts[leg.account];
    assert Fills(leg.response);
    FillAddsDelta(before.positions, leg.response, key);
    HeldUpdate(m.accounts, leg.account, HandleOrder(before, leg.response), key);
    OwedRemove(m.pending, i, key);
  }

  lemma OtherConserves(m: Exchange, i: nat, r: OrderResponse, key: nat)
    requires OnlyFills(m) && Enabled(m, Other(i, r))
    ensures OnlyFills(Step(m, Other(i, r))) && Total(Step(m, Other(i, r)), key) == Total(m, key)
  {
    hide Held, Owed, Position, ApplyFill;
    HeldUpdate(m.accounts, i, HandleOrder(m.accounts[i], r), key);
  }

  lemma StepConserves(m: Exchange, a: Action, key: nat)
    requires OnlyFills(m)
    ensures OnlyFills(Step(m, a)) && Total(Step(m, a), key) == Total(m, key)
  {
    if Enabled(m, a) {
      hide OnlyFills, Enabled, Step, Total;
      match a
      case Trade(b, s) => TradeConserves(m, b, s, key);
      case Deliver(i) => DeliverConserves(m, i, key);
      case Other(i, r) => OtherConserves(m, i, r, key);
    }
  }

  /**
   For any number of accounts, any trades and any order of delivery, the total of every symbol and of cash,
   undelivered legs included, never changes.
   */
  lemma {:induction false} RunConserves(m: Exchange, actions: seq<Action>, key: nat)
    requires OnlyFills(m)
    ensures OnlyFills(Run(m, actions)) && Total(Run(m, actions), key) == Total(m, key)
  {
    if actions != [] {
      RunConserves(m, actions[..|actions| - 1], key);
      StepConserves(Run(m, actions[..|actions| - 1]), actions[|actions| - 1], key);
    }
  }

  /** Once everything is delivered, what the accounts hold together is what they held at the start. */
  lemma SettledMarketConserves(accounts: seq<Account>, actions: seq<Action>, key: nat)
    requires Run(Exchange(accounts, []), actions).pending == []
    ensures Held(Run(Exchange(accounts, []), actions).accounts, key) == Held(accounts, key)
  {
    RunConserves(Exchange(accounts, []), actions, key);
  }
}
