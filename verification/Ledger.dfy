/**
 The Sentinel's execution ledger (sentinel/manager.py): positions with an average entry price, marks,
 realised profit; and, beside it, what the exchange would say: cash and signed holdings.
 */
module Ledger {
  import opened Basics

  // ---------------------------------------------------------------- fill payloads

  /** A payload field as float() sees it. */
  datatype Field = Absent | Null | Junk | Num(value: real)

  datatype Fill = Fill(
    status: Option<string>,
    asset: Option<string>,
    side: Option<string>,
    volume: Field,
    price: Field,
    commission: Field)

  datatype Trade = Trade(asset: string, long: bool, close: bool, qty: real, price: real, commission: real)

  /** Skipped: not a fill. Raised: float() fails outside the try. Malformed: fails inside it. */
  datatype Decoded = Skipped | Raised | Malformed | Matched(trade: Trade)

  function UpperChar(c: char): char {
    if 'a' <= c <= 'z' then c - 'a' + 'A' else c
  }

  function Upper(s: string): (u: string)
    ensures |u| == |s|
  {
    seq(|s|, i requires 0 <= i < |s| => UpperChar(s[i]))
  }

  predicate EndsWith(s: string, suffix: string) {
    |suffix| <= |s| && s[|s| - |suffix|..] == suffix
  }

  /** A missing or empty status counts as filled. */
  predicate SaysFilled(f: Fill) {
    f.status.None? || f.status.value == "" || Upper(f.status.value) == "FILLED"
  }

  /** float() and the lookups inside the try all succeed. */
  predicate FieldsReadable(f: Fill) {
    f.asset.Some? && f.side.Some? && f.price.Num? && (f.commission.Num? || f.commission.Absent?)
  }

  function Decode(f: Fill): (d: Decoded)
    ensures d.Raised? <==> SaysFilled(f) && f.volume.Junk?
    ensures d.Malformed? <==> SaysFilled(f) && f.volume.Num? && f.volume.value > 0.0 && !FieldsReadable(f)
    ensures d.Matched? <==> SaysFilled(f) && f.volume.Num? && f.volume.value > 0.0 && FieldsReadable(f)
    ensures d.Matched? ==> d.trade.qty == f.volume.value > 0.0 && d.trade.price == f.price.value
  {
    var status := if f.status.Some? && f.status.value != "" then Upper(f.status.value) else "FILLED";
    if status != "FILLED" && status != "" then Skipped
    else if f.volume.Junk? then Raised
    else if !f.volume.Num? || f.volume.value <= 0.0 then Skipped
    else if f.asset.None? || f.side.None? || !f.price.Num? || f.commission.Null? || f.commission.Junk? then Malformed
    else
      var side := f.side.value;
      Matched(Trade(Upper(f.asset.value), "LONG" <= side, EndsWith(side, "CLOSE"), f.volume.value, f.price.value,
                    if f.commission.Num? then f.commission.value else 0.0))
  }

  // ---------------------------------------------------------------- the ledger

  datatype Position = Position(qty: real, avg: real)

  const FLAT := Position(0.0, 0.0)

  /** `symbols` is the insertion order of the positions dictionary. */
  datatype Books = Books(
    symbols: seq<string>,
    positions: map<string, Position>,
    marks: map<string, real>,
    realized: real)

  const EMPTY := Books([], map[], map[], 0.0)

  predicate NoRepeats(symbols: seq<string>) {
    forall i, j :: 0 <= i < j < |symbols| ==> symbols[i] != symbols[j]
  }

  ghost predicate Indexed(symbols: seq<string>, positions: map<string, Position>) {
    NoRepeats(symbols) && forall s :: s in symbols <==> s in positions
  }

  function At(positions: map<string, Position>, s: string): Position {
    if s in positions then positions[s] else FLAT
  }

  function MarkOf(positions: map<string, Position>, marks: map<string, real>, s: string): real {
    if s in marks then marks[s] else At(positions, s).avg
  }

  /** The order in which the mark-to-market loop visits the positions. */
  function Unrealized(symbols: seq<string>, positions: map<string, Position>, marks: map<string, real>): real {
    if symbols == [] then 0.0
    else
      var s := symbols[|symbols| - 1];
      var p := At(positions, s);
      Unrealized(symbols[..|symbols| - 1], positions, marks) + Gain(p, MarkOf(positions, marks, s))
  }

  function Gain(p: Position, mark: real): real {
    if p.qty == 0.0 then 0.0 else (mark - p.avg) * p.qty
  }

  function Equity(capital: real, b: Books): real {
    capital + b.realized + Unrealized(b.symbols, b.positions, b.marks)
  }

  function Direction(qty: real): real {
    if qty > 0.0 then 1.0 else -1.0
  }

  function Signed(t: Trade): real {
    if t.long then t.qty else -t.qty
  }

  function ClosingProfit(p: Position, t: Trade): real {
    Direction(p.qty) * (t.price - p.avg) * t.qty - t.commission
  }

  function AveragePrice(p: Position, t: Trade): real {
    var qty := p.qty + Signed(t);
    if qty != 0.0 then (p.avg * Abs(p.qty) + t.price * Abs(Signed(t))) / Abs(qty) else p.avg
  }

  function Reduced(p: Position, t: Trade): Position {
    p.(qty := p.qty - Direction(p.qty) * t.qty)
  }

  function Extended(p: Position, t: Trade): Position {
    Position(p.qty + Signed(t), AveragePrice(p, t))
  }

  /** One position after one matched execution, and what the execution realised. */
  function Replay(p: Position, t: Trade): (Position, real) {
    if t.close && p.qty != 0.0 then (Reduced(p, t), ClosingProfit(p, t)) else (Extended(p, t), 0.0)
  }

  function Apply(b: Books, t: Trade): Books {
    var (p, realized) := Replay(At(b.positions, t.asset), t);
    Books(if t.asset in b.positions then b.symbols else b.symbols + [t.asset],
          b.positions[t.asset := p],
          b.marks[t.asset := t.price],
          b.realized + realized)
  }

  function Remark(b: Books, symbol: string, price: real): Books {
    if symbol != "" && symbol in b.positions then b.(marks := b.marks[symbol := price]) else b
  }

  // ---------------------------------------------------------------- what the exchange says

  datatype Account = Account(cash: real, holdings: map<string, real>)

  function Holding(x: Account, s: string): real {
    if s in x.holdings then x.holdings[s] else 0.0
  }

  /** What the trade does to the holding: opening a long or closing a short buys, the others sell. */
  function Bought(t: Trade): real {
    if t.long != t.close then t.qty else -t.qty
  }

  /** Cash pays for what was bought; only closing trades are charged their commission. */
  function Settle(x: Account, t: Trade): Account {
    Account(x.cash - Times(t.price, Bought(t)) - (if t.close then t.commission else 0.0),
            x.holdings[t.asset := Holding(x, t.asset) + Bought(t)])
  }

  function Worth(symbols: seq<string>, x: Account, marks: map<string, real>): real {
    if symbols == [] then 0.0
    else
      var s := symbols[|symbols| - 1];
      Worth(symbols[..|symbols| - 1], x, marks) + Times(if s in marks then marks[s] else 0.0, Holding(x, s))
  }

  /** What the open positions cost at their average prices. */
  function Cost(symbols: seq<string>, positions: map<string, Position>): real {
    if symbols == [] then 0.0
    else
      var p := At(positions, symbols[|symbols| - 1]);
      Cost(symbols[..|symbols| - 1], positions) + Times(p.avg, p.qty)
  }

  ghost predicate SameSymbols(b: Books, x: Account) {
    Indexed(b.symbols, b.positions) && forall s :: s in b.positions <==> s in x.holdings
  }

  ghost predicate SameHoldings(b: Books, x: Account) {
    forall s :: At(b.positions, s).qty == Holding(x, s)
  }

  /** Quantities agree symbol by symbol, and so does the money once positions are taken at cost. */
  ghost predicate Reconciled(capital: real, b: Books, x: Account) {
    && SameHoldings(b, x)
    && capital + b.realized == x.cash + Cost(b.symbols, b.positions)
  }

  // ---------------------------------------------------------------- sums over symbols

  lemma {:induction false} CostElsewhere(symbols: seq<string>, positions: map<string, Position>, s: string, p: Position)
    requires s !in symbols
    ensures Cost(symbols, positions[s := p]) == Cost(symbols, positions)
  {
    if symbols != [] {
      assert symbols[|symbols| - 1] != s;
      CostElsewhere(symbols[..|symbols| - 1], positions, s, p);
    }
  }

  lemma {:induction false} CostUpdate(symbols: seq<string>, positions: map<string, Position>, s: string, p: Position)
    requires NoRepeats(symbols) && s in symbols
    ensures Cost(symbols, positions[s := p]) ==
      Cost(symbols, positions) - Times(At(positions, s).avg, At(positions, s).qty) + Times(p.avg, p.qty)
  {
    var n := |symbols| - 1;
    if symbols[n] == s {
      CostElsewhere(symbols[..n], positions, s, p);
    } else {
      CostUpdate(symbols[..n], positions, s, p);
    }
  }

  lemma GainSplits(p: Position, mark: real)
    ensures Gain(p, mark) == Times(mark, p.qty) - Times(p.avg, p.qty)
  {
    assert (mark - p.avg) * p.qty == mark * p.qty - p.avg * p.qty;
    if p.qty == 0.0 {
      assert mark * p.qty == 0.0 && p.avg * p.qty == 0.0;
    }
  }

  lemma {:induction false} UnrealizedIsWorthLessCost(
    symbols: seq<string>, positions: map<string, Position>, marks: map<string, real>, x: Account)
    requires forall s :: s in symbols ==> s in marks
    requires forall s :: s in symbols ==> At(positions, s).qty == Holding(x, s)
    ensures Unrealized(symbols, positions, marks) == Worth(symbols, x, marks) - Cost(symbols, positions)
  {
    if symbols != [] {
      var n := |symbols| - 1;
      var s := symbols[n];
      assert s in symbols;
      UnrealizedIsWorthLessCost(symbols[..n], positions, marks, x);
      GainSplits(At(positions, s), marks[s]);
    }
  }

  // ---------------------------------------------------------------- one fill

  /** The guard under which one execution leaves position and cash in step. */
  predicate Faithful(p: Position, t: Trade) {
    if t.close then
      // a close meets a holding of its own side
      p.qty != 0.0 && (p.qty > 0.0 <==> t.long)
    else
      || p.qty == 0.0
      || (p.qty > 0.0 <==> t.long)
      // an open against the holding is booked at the wrong cost but for these coincidences
      || (t.qty < Abs(p.qty) && t.price == 0.0)
      || (t.qty > Abs(p.qty) && p.avg == 0.0)
      || (t.qty == Abs(p.qty) && t.price == p.avg)
  }

  lemma QuantityInStep(p: Position, t: Trade)
    requires t.qty > 0.0
    ensures Replay(p, t).0.qty == p.qty + Bought(t) <==>
      (t.close ==> p.qty != 0.0 && (p.qty > 0.0 <==> t.long))
  {
  }

  /** The money equation for one position: what the fill adds to realised profit, cost and cash. */
  predicate MoneyInStep(p: Position, t: Trade) {
    var (p', realized) := Replay(p, t);
    realized == Times(p'.avg, p'.qty) - Times(p.avg, p.qty)
      - Times(t.price, Bought(t)) - (if t.close then t.commission else 0.0)
  }

  lemma CloseMoney(p: Position, t: Trade)
    requires t.qty > 0.0 && t.close && p.qty != 0.0 && (p.qty > 0.0 <==> t.long)
    ensures MoneyInStep(p, t)
  {
    var (p', realized) := Replay(p, t);
    if p.qty > 0.0 {
      assert realized == (t.price - p.avg) * t.qty - t.commission;
      assert Times(p.avg, p.qty - t.qty) == Times(p.avg, p.qty) - p.avg * t.qty;
    } else {
      assert realized == -(t.price - p.avg) * t.qty - t.commission;
      assert Times(p.avg, p.qty + t.qty) == Times(p.avg, p.qty) + p.avg * t.qty;
    }
  }

  lemma AveragedCost(total: real, qty: real)
    requires qty != 0.0
    ensures Times(total / Abs(qty), qty) == if qty > 0.0 then total else -total
  {
    var q := total / Abs(qty);
    assert q * Abs(qty) == total;
  }

  lemma ZeroProduct(x: real, y: real)
    ensures x * y == 0.0 <==> x == 0.0 || y == 0.0
  {
    if x > 0.0 && y > 0.0 { assert x * y > 0.0; }
    if x < 0.0 && y < 0.0 { assert x * y > 0.0; }
    if x > 0.0 && y < 0.0 { assert x * y < 0.0; }
    if x < 0.0 && y > 0.0 { assert x * y < 0.0; }
  }

  /** What the averaging branch books for the position, product by product. */
  lemma OpenCost(p: Position, t: Trade)
    requires t.qty > 0.0 && !t.close
    ensures var qty := p.qty + Signed(t);
      var total := p.avg * Abs(p.qty) + t.price * t.qty;
      Times(Replay(p, t).0.avg, Replay(p, t).0.qty) ==
        if qty > 0.0 then total else if qty < 0.0 then -total else 0.0
  {
    var qty := p.qty + Signed(t);
    assert Abs(Signed(t)) == t.qty;
    if qty != 0.0 {
      AveragedCost(p.avg * Abs(p.qty) + t.price * t.qty, qty);
    }
  }

  /** The four signed products of an opening fill, through the two magnitudes c and d. */
  lemma OpenProducts(p: Position, t: Trade, c: real, d: real)
    requires t.qty > 0.0 && !t.close && c == p.avg * Abs(p.qty) && d == t.price * t.qty
    ensures Times(p.avg, p.qty) == if p.qty >= 0.0 then c else -c
    ensures Times(t.price, Bought(t)) == if t.long then d else -d
    ensures c == 0.0 <==> p.avg == 0.0 || p.qty == 0.0
    ensures d == 0.0 <==> t.price == 0.0
    ensures Abs(p.qty) == t.qty ==> (c == d <==> p.avg == t.price)
  {
    ZeroProduct(t.price, t.qty);
    ZeroProduct(p.avg, Abs(p.qty));
    if Abs(p.qty) == t.qty {
      ZeroProduct(p.avg - t.price, t.qty);
      assert c - d == (p.avg - t.price) * t.qty;
    }
  }

  lemma OpenMoney(p: Position, t: Trade)
    requires t.qty > 0.0 && !t.close
    ensures MoneyInStep(p, t) <==> Faithful(p, t)
  {
    var c, d := p.avg * Abs(p.qty), t.price * t.qty;
    OpenCost(p, t);
    OpenProducts(p, t, c, d);
    OpenVerdict(p, t, c, d, Times(Replay(p, t).0.avg, Replay(p, t).0.qty));
  }

  /** With the products named, the question is linear. */
  lemma OpenVerdict(p: Position, t: Trade, c: real, d: real, booked: real)
    requires t.qty > 0.0 && !t.close && booked == Times(Replay(p, t).0.avg, Replay(p, t).0.qty)
    requires var qty := p.qty + Signed(t);
      booked == if qty > 0.0 then c + d else if qty < 0.0 then -(c + d) else 0.0
    requires Times(p.avg, p.qty) == if p.qty >= 0.0 then c else -c
    requires Times(t.price, Bought(t)) == if t.long then d else -d
    requires c == 0.0 <==> p.avg == 0.0 || p.qty == 0.0
    requires d == 0.0 <==> t.price == 0.0
    requires Abs(p.qty) == t.qty ==> (c == d <==> p.avg == t.price)
    ensures MoneyInStep(p, t) <==> Faithful(p, t)
  {
    assert MoneyInStep(p, t) <==> booked == Times(p.avg, p.qty) + Times(t.price, Bought(t));
  }

  lemma ApplyKeepsIndex(b: Books, t: Trade)
    requires Indexed(b.symbols, b.positions)
    ensures Indexed(Apply(b, t).symbols, Apply(b, t).positions)
  {
  }

  lemma CostAfter(b: Books, t: Trade)
    requires Indexed(b.symbols, b.positions)
    ensures var p, p' := At(b.positions, t.asset), Replay(At(b.positions, t.asset), t).0;
      Cost(Apply(b, t).symbols, Apply(b, t).positions) ==
        Cost(b.symbols, b.positions) - Times(p.avg, p.qty) + Times(p'.avg, p'.qty)
  {
    var p' := Replay(At(b.positions, t.asset), t).0;
    if t.asset in b.positions {
      CostUpdate(b.symbols, b.positions, t.asset, p');
    } else {
      CostElsewhere(b.symbols, b.positions, t.asset, p');
      assert (b.symbols + [t.asset])[..|b.symbols|] == b.symbols;
    }
  }

  lemma StayIndexed(b: Books, x: Account, t: Trade)
    requires SameSymbols(b, x)
    ensures SameSymbols(Apply(b, t), Settle(x, t))
  {
    ApplyKeepsIndex(b, t);
  }

  predicate QuantityAgrees(p: Position, t: Trade) {
    Replay(p, t).0.qty == p.qty + Bought(t)
  }

  lemma FaithfulExactlyInStep(p: Position, t: Trade)
    requires t.qty > 0.0
    ensures QuantityAgrees(p, t) && MoneyInStep(p, t) <==> Faithful(p, t)
  {
    QuantityInStep(p, t);
    if !t.close {
      OpenMoney(p, t);
    } else if p.qty != 0.0 && (p.qty > 0.0 <==> t.long) {
      CloseMoney(p, t);
    }
  }

  lemma HoldingsAfter(b: Books, x: Account, t: Trade)
    requires SameHoldings(b, x)
    ensures SameHoldings(Apply(b, t), Settle(x, t)) <==> QuantityAgrees(At(b.positions, t.asset), t)
  {
    var b', x' := Apply(b, t), Settle(x, t);
    assert Holding(x, t.asset) == At(b.positions, t.asset).qty;
    forall s | s != t.asset ensures At(b'.positions, s).qty == Holding(x', s) {
      assert At(b.positions, s).qty == Holding(x, s);
    }
    assert At(b'.positions, t.asset).qty == Holding(x', t.asset) <==> SameHoldings(b', x');
  }

  lemma MoneyAfter(capital: real, b: Books, x: Account, t: Trade)
    requires Indexed(b.symbols, b.positions)
    requires capital + b.realized == x.cash + Cost(b.symbols, b.positions)
    ensures capital + Apply(b, t).realized == Settle(x, t).cash + Cost(Apply(b, t).symbols, Apply(b, t).positions)
      <==> MoneyInStep(At(b.positions, t.asset), t)
  {
    CostAfter(b, t);
  }

  /**
   Applying one matched execution to reconciled books leaves them reconciled exactly when the fill is
   faithful to the position it meets.
   */
  lemma FillReconcilesExactlyWhenFaithful(capital: real, b: Books, x: Account, t: Trade)
    requires SameSymbols(b, x) && Reconciled(capital, b, x) && t.qty > 0.0
    ensures SameSymbols(Apply(b, t), Settle(x, t))
    ensures Reconciled(capital, Apply(b, t), Settle(x, t)) <==> Faithful(At(b.positions, t.asset), t)
  {
    StayIndexed(b, x, t);
    HoldingsAfter(b, x, t);
    MoneyAfter(capital, b, x, t);
    FaithfulExactlyInStep(At(b.positions, t.asset), t);
  }

  function OneBought(asset: string): Trade {
    Trade(asset, true, false, 1.0, 100.0, 0.0)
  }

  function OneSold(asset: string): Trade {
    Trade(asset, false, false, 1.0, 110.0, 0.0)
  }

  function OneSymbol(asset: string, p: Position, mark: real): Books {
    Books([asset], map[asset := p], map[asset := mark], 0.0)
  }

  /** One unit bought into empty books. */
  lemma FirstBuyIsBooked(asset: string, price: real)
    ensures Apply(EMPTY, Trade(asset, true, false, 1.0, price, 0.0)) == OneSymbol(asset, Position(1.0, price), price)
  {
    var t := Trade(asset, true, false, 1.0, price, 0.0);
    assert Signed(t) == 1.0 && Abs(1.0) == 1.0 && Abs(0.0) == 0.0;
    assert AveragePrice(FLAT, t) == price;
    assert [] + [asset] == [asset];
  }

  lemma OneUnitGain(asset: string, price: real, mark: real)
    ensures var b := OneSymbol(asset, Position(1.0, price), mark);
      Unrealized(b.symbols, b.positions, b.marks) == mark - price
  {
    assert [asset][..0] == [];
    assert Unrealized([], map[asset := Position(1.0, price)], map[asset := mark]) == 0.0;
  }

  lemma BuyIsBooked(asset: string)
    ensures Apply(EMPTY, OneBought(asset)) == OneSymbol(asset, Position(1.0, 100.0), 100.0)
  {
    assert Replay(FLAT, OneBought(asset)) == (Position(1.0, 100.0), 0.0);
    assert [] + [asset] == [asset];
  }

  lemma SellFlattens(asset: string)
    ensures Replay(Position(1.0, 100.0), OneSold(asset)) == (Position(0.0, 100.0), 0.0)
  {
    assert Position(1.0, 100.0).qty + Signed(OneSold(asset)) == 0.0;
  }

  lemma SellIsBooked(asset: string)
    ensures Apply(OneSymbol(asset, Position(1.0, 100.0), 100.0), OneSold(asset)) ==
      OneSymbol(asset, Position(0.0, 100.0), 110.0)
  {
    SellFlattens(asset);
    var b := OneSymbol(asset, Position(1.0, 100.0), 100.0);
    assert b.positions[asset := Position(0.0, 100.0)] == map[asset := Position(0.0, 100.0)];
    assert b.marks[asset := 110.0] == map[asset := 110.0];
  }

  lemma FlatHasNoGain(asset: string, p: Position, mark: real)
    requires p.qty == 0.0
    ensures Equity(1000.0, OneSymbol(asset, p, mark)) == 1000.0
  {
    assert [asset][..0] == [];
    assert Unrealized([], map[asset := p], map[asset := mark]) == 0.0;
  }

  lemma BuyIsPaid(asset: string)
    ensures Settle(Account(1000.0, map[]), OneBought(asset)) == Account(900.0, map[asset := 1.0])
  {
    assert Times(100.0, 1.0) == 100.0;
  }

  lemma SellIsPaid(asset: string)
    ensures Settle(Account(900.0, map[asset := 1.0]), OneSold(asset)) == Account(1010.0, map[asset := 0.0])
  {
    assert Times(110.0, -1.0) == -110.0;
    assert map[asset := 1.0][asset := 0.0] == map[asset := 0.0];
  }

  /** Long one at 100, then a short opened for one at 110: flat, ten richer, and the ledger shows nothing. */
  lemma OpposingOpenLosesTheGain(asset: string)
    ensures var b := Apply(Apply(EMPTY, OneBought(asset)), OneSold(asset));
      var x := Settle(Settle(Account(1000.0, map[]), OneBought(asset)), OneSold(asset));
      && Equity(1000.0, b) == 1000.0
      && At(b.positions, asset).qty == Holding(x, asset) == 0.0
      && x.cash == 1010.0
  {
    BuyIsBooked(asset);
    SellIsBooked(asset);
    FlatHasNoGain(asset, Position(0.0, 100.0), 110.0);
    BuyIsPaid(asset);
    SellIsPaid(asset);
  }

  // ---------------------------------------------------------------- equity

  ghost predicate Marked(b: Books) {
    forall s :: s in b.symbols ==> s in b.marks
  }

  /** On reconciled books, equity is cash plus holdings at the mark. */
  lemma ReconciledEquityIsAccountValue(capital: real, b: Books, x: Account)
    requires Reconciled(capital, b, x) && Marked(b)
    ensures Equity(capital, b) == x.cash + Worth(b.symbols, x, b.marks)
  {
    UnrealizedIsWorthLessCost(b.symbols, b.positions, b.marks, x);
  }

  function PriceAll(symbols: seq<string>, price: real): (m: map<string, real>) {
    map s | s in symbols :: price
  }

  lemma {:induction false} AtZero(
    symbols: seq<string>, positions: map<string, Position>, marks: map<string, real>, x: Account)
    requires forall s :: s in symbols ==> s in marks && marks[s] == 0.0
    ensures Unrealized(symbols, positions, marks) == -Cost(symbols, positions)
    ensures Worth(symbols, x, marks) == 0.0
  {
    if symbols != [] {
      var s := symbols[|symbols| - 1];
      assert s in symbols;
      AtZero(symbols[..|symbols| - 1], positions, marks, x);
      GainSplits(At(positions, s), 0.0);
      assert Times(0.0, At(positions, s).qty) == 0.0 && Times(0.0, Holding(x, s)) == 0.0;
    }
  }

  lemma {:induction false} AtUnitMark(
    symbols: seq<string>, positions: map<string, Position>, marks: map<string, real>, x: Account, u: string)
    requires NoRepeats(symbols)
    requires forall s :: s in symbols ==> s in marks && marks[s] == if s == u then 1.0 else 0.0
    ensures Unrealized(symbols, positions, marks) ==
      (if u in symbols then At(positions, u).qty else 0.0) - Cost(symbols, positions)
    ensures Worth(symbols, x, marks) == if u in symbols then Holding(x, u) else 0.0
  {
    if symbols != [] {
      var n := |symbols| - 1;
      var s := symbols[n];
      assert s in symbols;
      GainSplits(At(positions, s), marks[s]);
      assert Times(0.0, At(positions, s).qty) == 0.0 && Times(0.0, Holding(x, s)) == 0.0;
      assert Times(1.0, At(positions, s).qty) == At(positions, s).qty && Times(1.0, Holding(x, s)) == Holding(x, s);
      AtUnitMark(symbols[..n], positions, marks, x, u);
    }
  }

  ghost predicate AgreesAt(capital: real, b: Books, x: Account, marks: map<string, real>) {
    Equity(capital, b.(marks := marks)) == x.cash + Worth(b.symbols, x, marks)
  }

  ghost predicate RightAtAllMarks(capital: real, b: Books, x: Account) {
    forall marks: map<string, real> :: (forall s :: s in b.symbols ==> s in marks) ==> AgreesAt(capital, b, x, marks)
  }

  /** A mark of one for u and of zero for all others shows u's quantity. */
  lemma RightQuantity(capital: real, b: Books, x: Account, u: string)
    requires SameSymbols(b, x) && RightAtAllMarks(capital, b, x) && u in b.positions
    ensures At(b.positions, u).qty == Holding(x, u)
  {
    var zero := PriceAll(b.symbols, 0.0);
    var unit := zero[u := 1.0];
    assert AgreesAt(capital, b, x, zero) && AgreesAt(capital, b, x, unit);
    AtZero(b.symbols, b.positions, zero, x);
    AtUnitMark(b.symbols, b.positions, unit, x, u);
  }

  lemma RightMoney(capital: real, b: Books, x: Account)
    requires SameSymbols(b, x) && RightAtAllMarks(capital, b, x)
    ensures capital + b.realized == x.cash + Cost(b.symbols, b.positions)
  {
    var zero := PriceAll(b.symbols, 0.0);
    assert AgreesAt(capital, b, x, zero);
    AtZero(b.symbols, b.positions, zero, x);
  }

  /** Reconciliation is exactly what it takes for equity to be right whatever the marks. */
  lemma ReconciledExactlyWhenRightAtAllMarks(capital: real, b: Books, x: Account)
    requires SameSymbols(b, x)
    ensures Reconciled(capital, b, x) <==> RightAtAllMarks(capital, b, x)
  {
    if Reconciled(capital, b, x) {
      forall marks: map<string, real> | forall s :: s in b.symbols ==> s in marks
        ensures AgreesAt(capital, b, x, marks)
      {
        ReconciledEquityIsAccountValue(capital, b.(marks := marks), x);
      }
    }
    if RightAtAllMarks(capital, b, x) {
      RightMoney(capital, b, x);
      forall u ensures At(b.positions, u).qty == Holding(x, u) {
        if u in b.positions {
          RightQuantity(capital, b, x, u);
        }
      }
    }
  }

  // ---------------------------------------------------------------- whole runs

  datatype Event = Filled(fill: Fill) | Ticked(symbol: string, price: real)

  function Book(b: Books, e: Event): Books {
    match e
    case Filled(f) => if Decode(f).Matched? then Apply(b, Decode(f).trade) else b
    case Ticked(symbol, price) => Remark(b, Upper(symbol), price)
  }

  function Clear(x: Account, e: Event): Account {
    if e.Filled? && Decode(e.fill).Matched? then Settle(x, Decode(e.fill).trade) else x
  }

  predicate FaithfulEvent(b: Books, e: Event) {
    e.Filled? && Decode(e.fill).Matched? ==>
      Faithful(At(b.positions, Decode(e.fill).trade.asset), Decode(e.fill).trade)
  }

  function BooksAfter(es: seq<Event>): Books {
    if es == [] then EMPTY else Book(BooksAfter(es[..|es| - 1]), es[|es| - 1])
  }

  function AccountAfter(capital: real, es: seq<Event>): Account {
    if es == [] then Account(capital, map[]) else Clear(AccountAfter(capital, es[..|es| - 1]), es[|es| - 1])
  }

  ghost predicate AlwaysReconciled(capital: real, es: seq<Event>) {
    forall k :: 0 <= k <= |es| ==> Reconciled(capital, BooksAfter(es[..k]), AccountAfter(capital, es[..k]))
  }

  ghost predicate AlwaysFaithful(es: seq<Event>) {
    forall k :: 0 <= k < |es| ==> FaithfulEvent(BooksAfter(es[..k]), es[k])
  }

  lemma {:induction false} RunsStayIndexed(capital: real, es: seq<Event>)
    ensures SameSymbols(BooksAfter(es), AccountAfter(capital, es))
    ensures Marked(BooksAfter(es))
  {
    if es != [] {
      RunsStayIndexed(capital, es[..|es| - 1]);
      var e := es[|es| - 1];
      if e.Filled? && Decode(e.fill).Matched? {
        ApplyKeepsIndex(BooksAfter(es[..|es| - 1]), Decode(e.fill).trade);
      }
    }
  }

  lemma EventReconciles(capital: real, b: Books, x: Account, e: Event)
    requires SameSymbols(b, x) && Reconciled(capital, b, x)
    ensures Reconciled(capital, Book(b, e), Clear(x, e)) <==> FaithfulEvent(b, e)
  {
    if e.Filled? && Decode(e.fill).Matched? {
      FillReconcilesExactlyWhenFaithful(capital, b, x, Decode(e.fill).trade);
    } else {
      assert Book(b, e).positions == b.positions;
      assert SameHoldings(Book(b, e), x) <==> SameHoldings(b, x);
    }
  }

  lemma {:induction false} FaithfulRunReconciles(capital: real, es: seq<Event>)
    requires AlwaysFaithful(es)
    ensures Reconciled(capital, BooksAfter(es), AccountAfter(capital, es))
  {
    if es != [] {
      var n := |es| - 1;
      forall k | 0 <= k < n ensures FaithfulEvent(BooksAfter(es[..n][..k]), es[..n][k]) {
        assert es[..n][..k] == es[..k];
      }
      FaithfulRunReconciles(capital, es[..n]);
      RunsStayIndexed(capital, es[..n]);
      EventReconciles(capital, BooksAfter(es[..n]), AccountAfter(capital, es[..n]), es[n]);
    }
  }

  /**
   Over any run of fills and tickers the books agree with the exchange at every moment exactly when
   every matched fill was faithful to the position it met.
   */
  lemma RunReconcilesExactlyWhenFaithful(capital: real, es: seq<Event>)
    ensures AlwaysReconciled(capital, es) <==> AlwaysFaithful(es)
  {
    if AlwaysFaithful(es) {
      forall n | 0 <= n <= |es| ensures Reconciled(capital, BooksAfter(es[..n]), AccountAfter(capital, es[..n])) {
        forall k | 0 <= k < n ensures FaithfulEvent(BooksAfter(es[..n][..k]), es[..n][k]) {
          assert es[..n][..k] == es[..k];
        }
        FaithfulRunReconciles(capital, es[..n]);
      }
    }
    if AlwaysReconciled(capital, es) {
      forall k | 0 <= k < |es| ensures FaithfulEvent(BooksAfter(es[..k]), es[k]) {
        assert es[..k + 1][..k] == es[..k];
        RunsStayIndexed(capital, es[..k]);
        EventReconciles(capital, BooksAfter(es[..k]), AccountAfter(capital, es[..k]), es[k]);
      }
    }
  }

  /** The equity identity: capital + realised + unrealised is cash plus holdings at the mark. */
  lemma EquityIdentity(capital: real, es: seq<Event>)
    requires AlwaysFaithful(es)
    ensures var b, x := BooksAfter(es), AccountAfter(capital, es);
      Equity(capital, b) == x.cash + Worth(b.symbols, x, b.marks)
  {
    FaithfulRunReconciles(capital, es);
    RunsStayIndexed(capital, es);
    ReconciledEquityIsAccountValue(capital, BooksAfter(es), AccountAfter(capital, es));
  }
}
