/**
 * The backtest simulator of backtest.py.
 *
 * The rows of a price series that carries a Signal column are replayed in
 * order. Two local variables, cash and shares, start at 10000 and 0; a buy
 * signal buys one share at the bar's close while cash is positive, a sell
 * signal sells one share while any are held. The result is the cash plus the
 * shares valued at the last close.
 */
module Backtest {
  import opened Wrappers

  /** `initial_capital`. */
  const InitialCapital: real := 10000.0

  /** The two cells of a row that the replay reads. */
  datatype Bar = Bar(signal: int, close: real)

  /** The simulator's local variables. */
  datatype State = State(cash: real, shares: int)

  /** The state before the first bar. */
  const Start: State := State(InitialCapital, 0)

  /** The branch a bar takes. */
  datatype Action = Buy | Sell | Hold

  /**
   * The guards of the loop body: a buy needs only positive cash (not cash for
   * a whole share), a sell needs a share to sell.
   */
  function Decide(s: State, b: Bar): (a: Action)
    ensures a == Buy <==> b.signal == 1 && s.cash > 0.0
    ensures a == Sell <==> b.signal == -1 && s.shares > 0
  {
    if b.signal == 1 && s.cash > 0.0 then Buy
    else if b.signal == -1 && s.shares > 0 then Sell
    else Hold
  }

  /** One iteration of the loop body. */
  function Step(s: State, b: Bar): (t: State)
    ensures t.shares - s.shares in {-1, 0, 1}
    ensures t.cash == s.cash - (t.shares - s.shares) as real * b.close
    ensures t.shares > s.shares <==> b.signal == 1 && s.cash > 0.0
    ensures t.shares < s.shares <==> b.signal == -1 && s.shares > 0
    ensures s.shares >= 0 ==> t.shares >= 0
  {
    match Decide(s, b)
    case Buy => State(s.cash - b.close, s.shares + 1)
    case Sell => State(s.cash + b.close, s.shares - 1)
    case Hold => s
  }

  /** The state after replaying every bar, in order, from Start. */
  function Run(bars: seq<Bar>): (s: State)
    ensures s.shares >= 0
  {
    if bars == [] then Start else Step(Run(bars[..|bars| - 1]), bars[|bars| - 1])
  }

  /** The branch taken at each bar of a replay. */
  function Actions(bars: seq<Bar>): (a: seq<Action>)
    ensures |a| == |bars|
  {
    if bars == [] then []
    else
      var prior := bars[..|bars| - 1];
      Actions(prior) + [Decide(Run(prior), bars[|bars| - 1])]
  }

  /** How many bars took branch x. */
  function Count(acts: seq<Action>, x: Action): nat
  {
    if acts == [] then 0
    else Count(acts[..|acts| - 1], x) + (if acts[|acts| - 1] == x then 1 else 0)
  }

  /** Σ close over the bars that took branch x. */
  function Turnover(bars: seq<Bar>, acts: seq<Action>, x: Action): real
    requires |bars| == |acts|
  {
    if bars == [] then 0.0
    else
      var n := |bars| - 1;
      Turnover(bars[..n], acts[..n], x) + (if acts[n] == x then bars[n].close else 0.0)
  }

  /**
   * The state the ledger predicts: shares are the executed buys minus the
   * executed sells, and cash is the initial capital less what the buys paid
   * plus what the sells received.
   */
  function LedgerState(bars: seq<Bar>): State
  {
    var acts := Actions(bars);
    State(InitialCapital - Turnover(bars, acts, Buy) + Turnover(bars, acts, Sell),
          Count(acts, Buy) - Count(acts, Sell))
  }

  /** The loop keeps the ledger: after any prefix the state is the one the ledger predicts. */
  lemma {:induction false} Ledger(bars: seq<Bar>)
    ensures Run(bars) == LedgerState(bars)
  {
    if bars != [] {
      var n := |bars| - 1;
      var prior := bars[..n];
      Ledger(prior);
      var acts := Actions(bars);
      assert acts[..n] == Actions(prior);
      assert bars[..n] == prior;
    }
  }

  /** Cash plus the shares held, valued at the given price. */
  function MarkToMarket(s: State, price: real): real
  {
    s.cash + s.shares as real * price
  }

  /** `total_portfolio_value`: the final state marked at the last close; an empty series raises. */
  function FinalValue(bars: seq<Bar>): (v: Option<real>)
    ensures v.Some? <==> bars != []
  {
    if bars == [] then None else Some(MarkToMarket(Run(bars), bars[|bars| - 1].close))
  }

  /**
   * The final value is the initial capital, less what the executed buys paid,
   * plus what the executed sells received, plus the shares still held at the
   * last close.
   */
  lemma FinalValueFromLedger(bars: seq<Bar>)
    requires bars != []
    ensures FinalValue(bars) == Some(MarkToMarket(LedgerState(bars), bars[|bars| - 1].close))
  {
    Ledger(bars);
  }

  /**
   * `backtest_strategy`: the loop over the rows, then the mark-to-market read
   * of the last close (`iloc[-1]`, which raises on an empty series: None).
   */
  method BacktestStrategy(bars: seq<Bar>) returns (total: Option<real>)
    ensures total == FinalValue(bars)
  {
    var cash, shares := InitialCapital, 0;
    for i := 0 to |bars|
      invariant State(cash, shares) == Run(bars[..i])
    {
      assert bars[..i + 1][..i] == bars[..i];
      var signal := bars[i].signal;
      var price := bars[i].close;
      if signal == 1 && cash > 0.0 {
        shares := shares + 1;
        cash := cash - price;
      } else if signal == -1 && shares > 0 {
        cash := cash + price;
        shares := shares - 1;
      }
    }
    assert bars[..|bars|] == bars;
    if bars == [] {
      total := None;
    } else {
      total := Some(MarkToMarket(State(cash, shares), bars[|bars| - 1].close));
    }
  }

  /** Bars whose signal is neither 1 nor -1 never trade. */
  predicate AllHold(bars: seq<Bar>)
  {
    forall j :: 0 <= j < |bars| ==> bars[j].signal != 1 && bars[j].signal != -1
  }

  /** With no buy or sell signal the replay ends where it started, whatever the prices. */
  lemma {:induction false} AllHoldKeepsCapital(bars: seq<Bar>)
    requires AllHold(bars)
    ensures Run(bars) == Start
    ensures bars != [] ==> FinalValue(bars) == Some(InitialCapital)
  {
    if bars != [] {
      AllHoldKeepsCapital(bars[..|bars| - 1]);
      assert MarkToMarket(Start, bars[|bars| - 1].close) == InitialCapital;
    }
  }

  /**
   * The buy guard checks only that cash is positive: one expensive bar takes
   * cash below zero, and a further buy signal is then refused.
   */
  lemma CashCanGoNegative()
    ensures Run([Bar(1, 15000.0)]) == State(-5000.0, 1)
    ensures Run([Bar(1, 15000.0), Bar(1, 10.0)]) == State(-5000.0, 1)
  {
    var one := [Bar(1, 15000.0)];
    var two := [Bar(1, 15000.0), Bar(1, 10.0)];
    assert one[..0] == [];
    assert two[..1] == one;
  }

  /** Closes 100, 102, 98, 105 with signals 1, 0, 1, -1. */
  lemma WorkedExample()
    ensures
      var bars := [Bar(1, 100.0), Bar(0, 102.0), Bar(1, 98.0), Bar(-1, 105.0)];
      && Run(bars[..1]) == State(9900.0, 1)
      && Run(bars[..2]) == State(9900.0, 1)
      && Run(bars[..3]) == State(9802.0, 2)
      && Run(bars) == State(9907.0, 1)
      && FinalValue(bars) == Some(10012.0)
  {
    var bars := [Bar(1, 100.0), Bar(0, 102.0), Bar(1, 98.0), Bar(-1, 105.0)];
    assert bars[..1][..0] == [];
    assert bars[..2][..1] == bars[..1];
    assert bars[..3][..2] == bars[..2];
    assert bars[..4] == bars;
    assert bars[..3] == bars[..|bars| - 1];
  }
}
