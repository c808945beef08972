/** `SimulatedBroker`: what a pending order fills at, and on which bars it fills. */
module Broker {
  import opened Market
  import opened Reals

  datatype Costs = Costs(slippage: real, commission: real) {
    predicate Valid() {
      0.0 <= slippage < 1.0 && commission >= 0.0
    }
  }

  function AdversePrice(costs: Costs, price: real, direction: Direction): real {
    price * (if direction.Long? then 1.0 + costs.slippage else 1.0 - costs.slippage)
  }

  function LimitFill(costs: Costs, limit: real, direction: Direction, c: Candle): Option<real> {
    if direction.Long? then
      if c.open <= limit then Some(Min(limit, AdversePrice(costs, c.open, direction)))
      else if c.low <= limit then Some(limit) else None
    else
      if c.open >= limit then Some(Max(limit, AdversePrice(costs, c.open, direction)))
      else if c.high >= limit then Some(limit) else None
  }

  function StopFill(costs: Costs, stop: real, direction: Direction, c: Candle): Option<real> {
    var raw :=
      if direction.Long? then
        if c.open >= stop then Some(c.open) else if c.high >= stop then Some(stop) else None
      else
        if c.open <= stop then Some(c.open) else if c.low <= stop then Some(stop) else None;
    if raw.None? then None else Some(AdversePrice(costs, raw.value, direction))
  }

  function FillPrice(costs: Costs, o: Order, c: Candle): Option<real>
    requires o.WellFormed()
  {
    match o.kind
    case MarketOrder => Some(AdversePrice(costs, c.open, o.direction))
    case LimitOrder => LimitFill(costs, o.limit.value, o.direction, c)
    case StopOrder => StopFill(costs, o.stop.value, o.direction, c)
  }

  function Execute(costs: Costs, o: Order, c: Candle): Option<Fill>
    requires o.WellFormed()
  {
    var price := FillPrice(costs, o, c);
    if price.None? then None else
    Some(Fill(o.symbol, o.direction, o.quantity, price.value, price.value * o.quantity as real * costs.commission, c.time))
  }

  /** The bar trades through the order's price: a buy limit or a sell stop needs a low at or
      below it, a sell limit or a buy stop a high at or above it. */
  predicate Reached(o: Order, c: Candle)
    requires o.WellFormed()
  {
    match o.kind
    case MarketOrder => true
    case LimitOrder => if o.direction.Long? then c.low <= o.limit.value else c.high >= o.limit.value
    case StopOrder => if o.direction.Long? then c.high >= o.stop.value else c.low <= o.stop.value
  }

  /** On a bar that keeps the OHLC invariant the four open/gap cases collapse to `Reached`. */
  lemma FillsExactlyWhenReached(costs: Costs, o: Order, c: Candle)
    requires o.WellFormed() && c.Valid()
    ensures Execute(costs, o, c).Some? <==> Reached(o, c)
  {
    match o.kind
    case MarketOrder =>
    case LimitOrder => assert Execute(costs, o, c).Some? <==> LimitFill(costs, o.limit.value, o.direction, c).Some?;
    case StopOrder => assert Execute(costs, o, c).Some? <==> StopFill(costs, o.stop.value, o.direction, c).Some?;
  }

  lemma AdverseBounds(costs: Costs, price: real, direction: Direction)
    requires costs.Valid() && price > 0.0
    ensures AdversePrice(costs, price, direction) > 0.0
    ensures direction.Long? ==> AdversePrice(costs, price, direction) >= price
    ensures direction.Short? ==> AdversePrice(costs, price, direction) <= price
  {
    MulNonnegative(price, costs.slippage);
    Distribute(1.0, costs.slippage, price);
    if direction.Short? {
      MulPositive(price, 1.0 - costs.slippage);
    }
  }

  /** Whatever the limit and stop prices are, negative ones included, an order only ever fills
      at a positive price, with a non-negative commission on price times quantity, on its own terms. */
  lemma FillIsAcceptable(costs: Costs, o: Order, c: Candle)
    requires o.WellFormed() && c.Priced() && costs.Valid()
    requires Execute(costs, o, c).Some?
    ensures var f := Execute(costs, o, c).value;
            && f.price > 0.0 && f.commission >= 0.0 && f.commission == f.price * o.quantity as real * costs.commission
            && f.symbol == o.symbol && f.direction == o.direction && f.quantity == o.quantity && f.time == c.time
  {
    AdverseBounds(costs, c.open, o.direction);
    if o.kind.StopOrder? && o.stop.value > 0.0 {
      AdverseBounds(costs, o.stop.value, o.direction);
    }
    var price := Execute(costs, o, c).value.price;
    assert price * o.quantity as real >= 0.0;
  }

  /** The exact fill of every reached order. A market order pays the slipped open and a stop the slipped worse
      of the open and the stop. A limit pays the better of the limit and the slipped open when the bar opens
      through it, and the limit itself otherwise. The commission is the rate on price times quantity. */
  lemma {:induction false} FillIsExact(costs: Costs, o: Order, c: Candle)
    requires o.WellFormed() && c.Valid()
    ensures Execute(costs, o, c).Some? <==> Reached(o, c)
    ensures Reached(o, c) ==>
              var f := Execute(costs, o, c).value;
              && (o.kind.MarketOrder? && o.direction.Long? ==> f.price == c.open * (1.0 + costs.slippage))
              && (o.kind.MarketOrder? && o.direction.Short? ==> f.price == c.open * (1.0 - costs.slippage))
              && (o.kind.StopOrder? && o.direction.Long? ==> f.price == Max(c.open, o.stop.value) * (1.0 + costs.slippage))
              && (o.kind.StopOrder? && o.direction.Short? ==> f.price == Min(c.open, o.stop.value) * (1.0 - costs.slippage))
              && (o.kind.LimitOrder? && o.direction.Long? ==>
                    f.price == if c.open <= o.limit.value then Min(o.limit.value, c.open * (1.0 + costs.slippage)) else o.limit.value)
              && (o.kind.LimitOrder? && o.direction.Short? ==>
                    f.price == if c.open >= o.limit.value then Max(o.limit.value, c.open * (1.0 - costs.slippage)) else o.limit.value)
              && f.commission == f.price * o.quantity as real * costs.commission
              && f.symbol == o.symbol && f.direction == o.direction && f.quantity == o.quantity && f.time == c.time
  {
    FillsExactlyWhenReached(costs, o, c);
  }

  lemma AdverseMonotone(costs: Costs, p: real, q: real, direction: Direction)
    requires costs.Valid() && p <= q
    ensures AdversePrice(costs, p, direction) <= AdversePrice(costs, q, direction)
  {
    var m := if direction.Long? then 1.0 + costs.slippage else 1.0 - costs.slippage;
    MulNonnegative(q - p, m);
    Distribute(q, p, m);
  }

  /** The price a market or stop order fills at before slippage is one the bar traded at, no better than the stop. */
  lemma {:induction false} UnslippedInRange(costs: Costs, o: Order, c: Candle) returns (raw: real)
    requires o.WellFormed() && c.Valid() && !o.kind.LimitOrder? && Reached(o, c)
    ensures Execute(costs, o, c).Some? && Execute(costs, o, c).value.price == AdversePrice(costs, raw, o.direction)
    ensures c.low <= raw <= c.high
    ensures o.kind.StopOrder? ==> if o.direction.Long? then raw >= o.stop.value else raw <= o.stop.value
  {
    raw := if o.kind.MarketOrder? then c.open
           else if o.direction.Long? then Max(c.open, o.stop.value) else Min(c.open, o.stop.value);
  }

  /** A limit never fills worse than its limit, a stop never better than its slipped stop, and no order fills
      outside the bar: market and stop fills are slipped prices of its range, and a limit fill stays inside the
      range on its better side. */
  lemma {:induction false} FillQuality(costs: Costs, o: Order, c: Candle)
    requires o.WellFormed() && c.Priced() && costs.Valid()
    requires Execute(costs, o, c).Some?
    ensures var price := Execute(costs, o, c).value.price;
            && (o.kind.LimitOrder? && o.direction.Long? ==> c.low <= price <= o.limit.value)
            && (o.kind.LimitOrder? && o.direction.Short? ==> o.limit.value <= price <= c.high)
            && (!o.kind.LimitOrder? ==>
                  AdversePrice(costs, c.low, o.direction) <= price <= AdversePrice(costs, c.high, o.direction))
            && (o.kind.StopOrder? && o.direction.Long? ==> price >= AdversePrice(costs, o.stop.value, Long))
            && (o.kind.StopOrder? && o.direction.Short? ==> price <= AdversePrice(costs, o.stop.value, Short))
  {
    FillsExactlyWhenReached(costs, o, c);
    if o.kind.LimitOrder? {
      AdverseBounds(costs, c.open, o.direction);
    } else {
      var raw := UnslippedInRange(costs, o, c);
      AdverseMonotone(costs, c.low, raw, o.direction);
      AdverseMonotone(costs, raw, c.high, o.direction);
      if o.kind.StopOrder? {
        AdverseMonotone(costs, Min(raw, o.stop.value), Max(raw, o.stop.value), o.direction);
      }
    }
  }
}
