/** The order tools: validation of the order parameters an agent passes,
    the choice of the order builder those parameters select, the shaping of
    the broker's answer, the de-duplicating merge of a multi-status order
    listing, the exit side of a bracket order, the leg check of a combo
    order and the registration of the tools. The builders of the brokerage
    library are modelled by the order record they produce. */
module Orders {
  import opened Common

  // ---------------------------------------------------------------------------
  // Order records

  datatype AssetKind = EquityAsset | OptionAsset

  /** One leg of an order: what to do with how much of which instrument. */
  datatype Leg = Leg(asset: AssetKind, instruction: string, symbol: string, quantity: int)

  /** The order a builder describes; a field left `None` was never set. */
  datatype Builder = Builder(
    orderType: string,
    legs: seq<Leg>,
    price: Option<real>,
    stopPrice: Option<real>,
    stopPriceOffset: Option<real>,
    stopPriceLinkType: Option<string>,
    stopPriceLinkBasis: Option<string>,
    session: Option<string>,
    duration: Option<string>,
    complexOrderStrategyType: Option<string>,
    orderStrategyType: string)

  /** A composite order: a single order, two orders of which the execution of
      one cancels the other, or an order whose execution triggers another. */
  datatype Strategy =
    | Single(order: Builder)
    | OneCancelsOther(first: Strategy, second: Strategy)
    | FirstTriggersSecond(primary: Strategy, triggered: Strategy)

  /** The `ValueError`s the validators raise. */
  datatype OrderError =
    | InvalidOrderType(orderType: string)
    | InvalidInstruction(instruction: string)
    | PriceRequired
    | PriceNotAllowed
    | StopPriceRequired
    | StopPriceNotAllowed
    | InvalidTrailType(trailType: string)
    | NonPositiveTrailOffset
    | TooFewLegs

  datatype Result<T> = Ok(value: T) | Err(error: OrderError)

  /** A builder of the brokerage helpers: a single order in the regular
      session, good for the day, with one leg and the given type and prices. */
  function HelperOrder(asset: AssetKind, orderType: string, instruction: string, symbol: string, quantity: int,
                       price: Option<real>, stopPrice: Option<real>): (b: Builder)
    ensures b.legs == [Leg(asset, instruction, symbol, quantity)]
    ensures b.orderType == orderType && b.price == price && b.stopPrice == stopPrice
    ensures b.session == Some("NORMAL") && b.duration == Some("DAY") && b.orderStrategyType == "SINGLE"
  {
    Builder(orderType, [Leg(asset, instruction, symbol, quantity)], price, stopPrice, None, None, None,
            Some("NORMAL"), Some("DAY"), None, "SINGLE")
  }

  /** Python truthiness of an optional string: present and not empty. */
  predicate Truthy(s: Option<string>) {
    s.Some? && s.value != ""
  }

  /** `_apply_order_settings`: the session and the duration are set only
      when given and non-empty; nothing else about the order changes. */
  function ApplyOrderSettings(b: Builder, session: Option<string>, duration: Option<string>): (r: Builder)
    ensures r.session == (if Truthy(session) then session else b.session)
    ensures r.duration == (if Truthy(duration) then duration else b.duration)
    ensures r.(session := b.session, duration := b.duration) == b
  {
    var withSession := if Truthy(session) then b.(session := session) else b;
    if Truthy(duration) then withSession.(duration := duration) else withSession
  }

  /** Applying the same settings twice is applying them once. */
  lemma ApplyOrderSettingsIdempotent(b: Builder, session: Option<string>, duration: Option<string>)
    ensures ApplyOrderSettings(ApplyOrderSettings(b, session, duration), session, duration)
            == ApplyOrderSettings(b, session, duration)
  {
  }

  // ---------------------------------------------------------------------------
  // Equity orders

  const EQUITY_ORDER_TYPES: set<string> := {"MARKET", "LIMIT", "STOP", "STOP_LIMIT"}
  const EQUITY_INSTRUCTIONS: set<string> := {"BUY", "SELL"}

  /** For each (order type, instruction): whether the helper takes a limit
      price and whether it takes a stop price. */
  const EQUITY_ORDER_BUILDERS: map<(string, string), (bool, bool)> := map[
    ("MARKET", "BUY") := (false, false),
    ("MARKET", "SELL") := (false, false),
    ("LIMIT", "BUY") := (true, false),
    ("LIMIT", "SELL") := (true, false),
    ("STOP", "BUY") := (false, true),
    ("STOP", "SELL") := (false, true),
    ("STOP_LIMIT", "BUY") := (true, true),
    ("STOP_LIMIT", "SELL") := (true, true)
  ]

  /** The order types that carry a limit price. */
  predicate NeedsPrice(orderType: string) {
    orderType == "LIMIT" || orderType == "STOP_LIMIT"
  }

  /** The order types that carry a stop price. */
  predicate NeedsStopPrice(orderType: string) {
    orderType == "STOP" || orderType == "STOP_LIMIT"
  }

  /** The builder table covers exactly the valid type and instruction pairs,
      and its flags say which prices each order type carries. */
  lemma EquityTableMatchesPriceRules(orderType: string, instruction: string)
    ensures (orderType, instruction) in EQUITY_ORDER_BUILDERS
            <==> orderType in EQUITY_ORDER_TYPES && instruction in EQUITY_INSTRUCTIONS
    ensures (orderType, instruction) in EQUITY_ORDER_BUILDERS ==>
              EQUITY_ORDER_BUILDERS[(orderType, instruction)] == (NeedsPrice(orderType), NeedsStopPrice(orderType))
  {
  }

  /** The equity stop-limit helpers take the stop price first and the limit
      price second. */
  function EquityStopLimit(instruction: string, symbol: string, quantity: int, stopPrice: real, limitPrice: real): (b: Builder)
    ensures b.price == Some(limitPrice) && b.stopPrice == Some(stopPrice)
  {
    HelperOrder(EquityAsset, "STOP_LIMIT", instruction, symbol, quantity, Some(limitPrice), Some(stopPrice))
  }

  /** `_build_equity_order_spec`: the order type is checked first, then the
      instruction (both after upper-casing), then the limit price, then the
      stop price, each present exactly when the order type needs it. */
  function BuildEquityOrderSpec(symbol: string, quantity: int, instruction: string, orderType: string,
                                price: Option<real>, stopPrice: Option<real>): (r: Result<Builder>)
    ensures Upper(orderType) !in EQUITY_ORDER_TYPES ==> r == Err(InvalidOrderType(Upper(orderType)))
    ensures Upper(orderType) in EQUITY_ORDER_TYPES && Upper(instruction) !in EQUITY_INSTRUCTIONS ==>
              r == Err(InvalidInstruction(Upper(instruction)))
    ensures Upper(orderType) in EQUITY_ORDER_TYPES && Upper(instruction) in EQUITY_INSTRUCTIONS ==>
              r == if NeedsPrice(Upper(orderType)) && price.None? then Err(PriceRequired)
                   else if !NeedsPrice(Upper(orderType)) && price.Some? then Err(PriceNotAllowed)
                   else if NeedsStopPrice(Upper(orderType)) && stopPrice.None? then Err(StopPriceRequired)
                   else if !NeedsStopPrice(Upper(orderType)) && stopPrice.Some? then Err(StopPriceNotAllowed)
                   else Ok(HelperOrder(EquityAsset, Upper(orderType), Upper(instruction), symbol, quantity, price, stopPrice))
    ensures r.Ok? ==> r.value.legs == [Leg(EquityAsset, Upper(instruction), symbol, quantity)]
  {
    var instruction := Upper(instruction);
    var orderType := Upper(orderType);
    if orderType !in EQUITY_ORDER_TYPES then Err(InvalidOrderType(orderType))
    else if instruction !in EQUITY_INSTRUCTIONS then Err(InvalidInstruction(instruction))
    else
      EquityTableMatchesPriceRules(orderType, instruction);
      var (needsPrice, needsStopPrice) := EQUITY_ORDER_BUILDERS[(orderType, instruction)];
      if needsPrice && price.None? then Err(PriceRequired)
      else if !needsPrice && price.Some? then Err(PriceNotAllowed)
      else if needsStopPrice && stopPrice.None? then Err(StopPriceRequired)
      else if !needsStopPrice && stopPrice.Some? then Err(StopPriceNotAllowed)
      else if needsPrice && needsStopPrice then
        Ok(EquityStopLimit(instruction, symbol, quantity, stopPrice.value, price.value))
      else Ok(HelperOrder(EquityAsset, orderType, instruction, symbol, quantity, price, stopPrice))
  }

  /** An equity order is accepted exactly for a known type and side whose
      prices are those the type needs; the order then carries the upper-cased
      type and side and the given prices. */
  lemma EquityOrderAccepted(symbol: string, quantity: int, instruction: string, orderType: string,
                            price: Option<real>, stopPrice: Option<real>)
    ensures var r := BuildEquityOrderSpec(symbol, quantity, instruction, orderType, price, stopPrice);
            && (r.Ok? <==> && Upper(orderType) in EQUITY_ORDER_TYPES
                           && Upper(instruction) in EQUITY_INSTRUCTIONS
                           && (price.Some? <==> NeedsPrice(Upper(orderType)))
                           && (stopPrice.Some? <==> NeedsStopPrice(Upper(orderType))))
            && (r.Ok? ==> && r.value.orderType in EQUITY_ORDER_TYPES
                          && r.value.legs == [Leg(EquityAsset, Upper(instruction), symbol, quantity)]
                          && r.value.price == price && r.value.stopPrice == stopPrice)
  {
  }

  /** The check is case-insensitive: an upper-cased request builds the same order. */
  lemma EquityOrderCaseInsensitive(symbol: string, quantity: int, instruction: string, orderType: string,
                                   price: Option<real>, stopPrice: Option<real>)
    ensures BuildEquityOrderSpec(symbol, quantity, Upper(instruction), Upper(orderType), price, stopPrice)
            == BuildEquityOrderSpec(symbol, quantity, instruction, orderType, price, stopPrice)
  {
    UpperIdempotent(instruction);
    UpperIdempotent(orderType);
  }

  // ---------------------------------------------------------------------------
  // Trailing stop orders

  const TRAILING_STOP_LINK_TYPES: set<string> := {"VALUE", "PERCENT"}

  /** `trail_type or "VALUE"`, as the trailing-stop tools pass it on. */
  function TrailTypeOrDefault(trailType: Option<string>): (t: string)
    ensures Truthy(trailType) ==> t == trailType.value
    ensures !Truthy(trailType) ==> t == "VALUE"
  {
    if Truthy(trailType) then trailType.value else "VALUE"
  }

  /** `_build_trailing_stop_order_spec`: the side, then the trail type, then
      the offset are checked; the order trails the last price. */
  function BuildTrailingStopOrderSpec(symbol: string, quantity: int, instruction: string,
                                      trailOffset: real, trailType: string): (r: Result<Builder>)
    ensures r.Ok? <==> Upper(instruction) in EQUITY_INSTRUCTIONS && Upper(trailType) in TRAILING_STOP_LINK_TYPES
                       && trailOffset > 0.0
    ensures Upper(instruction) !in EQUITY_INSTRUCTIONS ==> r == Err(InvalidInstruction(Upper(instruction)))
    ensures Upper(instruction) in EQUITY_INSTRUCTIONS && Upper(trailType) !in TRAILING_STOP_LINK_TYPES ==>
              r == Err(InvalidTrailType(Upper(trailType)))
    ensures (Upper(instruction) in EQUITY_INSTRUCTIONS && Upper(trailType) in TRAILING_STOP_LINK_TYPES
             && trailOffset <= 0.0) ==> r == Err(NonPositiveTrailOffset)
    ensures r.Ok? ==> && r.value.orderType == "TRAILING_STOP"
                      && r.value.legs == [Leg(EquityAsset, Upper(instruction), symbol, quantity)]
                      && r.value.stopPriceOffset == Some(trailOffset)
                      && r.value.stopPriceLinkType == Some(Upper(trailType))
                      && r.value.stopPriceLinkBasis == Some("LAST")
                      && r.value.price.None? && r.value.stopPrice.None?
  {
    var instruction := Upper(instruction);
    var trailType := Upper(trailType);
    if instruction !in EQUITY_INSTRUCTIONS then Err(InvalidInstruction(instruction))
    else if trailType !in TRAILING_STOP_LINK_TYPES then Err(InvalidTrailType(trailType))
    else if trailOffset <= 0.0 then Err(NonPositiveTrailOffset)
    else
      var base := HelperOrder(EquityAsset, "TRAILING_STOP", instruction, symbol, quantity, None, None);
      Ok(base.(stopPriceOffset := Some(trailOffset), stopPriceLinkType := Some(trailType),
               stopPriceLinkBasis := Some("LAST")))
  }

  // ---------------------------------------------------------------------------
  // Option orders

  const OPTION_ORDER_TYPES: set<string> := {"MARKET", "LIMIT"}
  const OPTION_INSTRUCTIONS: set<string> := {"BUY_TO_OPEN", "SELL_TO_OPEN", "BUY_TO_CLOSE", "SELL_TO_CLOSE"}

  /** `_build_option_order_spec`: the order type, then the instruction are
      checked; a market order takes no price and a limit order needs one. */
  function BuildOptionOrderSpec(symbol: string, quantity: int, instruction: string, orderType: string,
                                price: Option<real>): (r: Result<Builder>)
    ensures r.Ok? <==> Upper(orderType) in OPTION_ORDER_TYPES && Upper(instruction) in OPTION_INSTRUCTIONS
                       && (price.Some? <==> Upper(orderType) == "LIMIT")
    ensures Upper(orderType) !in OPTION_ORDER_TYPES ==> r == Err(InvalidOrderType(Upper(orderType)))
    ensures Upper(orderType) in OPTION_ORDER_TYPES && Upper(instruction) !in OPTION_INSTRUCTIONS ==>
              r == Err(InvalidInstruction(Upper(instruction)))
    ensures Upper(orderType) == "MARKET" && Upper(instruction) in OPTION_INSTRUCTIONS && price.Some? ==>
              r == Err(PriceNotAllowed)
    ensures Upper(orderType) == "LIMIT" && Upper(instruction) in OPTION_INSTRUCTIONS && price.None? ==>
              r == Err(PriceRequired)
    ensures r.Ok? ==> && r.value.orderType == Upper(orderType)
                      && r.value.legs == [Leg(OptionAsset, Upper(instruction), symbol, quantity)]
                      && r.value.price == price && r.value.stopPrice.None?
  {
    var instruction := Upper(instruction);
    var orderType := Upper(orderType);
    if orderType !in OPTION_ORDER_TYPES then Err(InvalidOrderType(orderType))
    else if instruction !in OPTION_INSTRUCTIONS then Err(InvalidInstruction(instruction))
    else if orderType == "MARKET" then
      if price.Some? then Err(PriceNotAllowed)
      else Ok(HelperOrder(OptionAsset, "MARKET", instruction, symbol, quantity, None, None))
    else
      if price.None? then Err(PriceRequired)
      else Ok(HelperOrder(OptionAsset, "LIMIT", instruction, symbol, quantity, price, None))
  }

  // ---------------------------------------------------------------------------
  // The broker's answer to a placed order

  /** The outcome of the response handler: whether the call succeeded, and
      the payload (a JSON object) when it did. */
  datatype HandlerResult = HandlerResult(success: bool, payload: Option<map<string, string>>)

  /** `_order_response_handler`: `orderId` is what the brokerage helper
      extracted from the response (`None` when it could not), `location` the
      response's `Location` header, if any. Without either the call failed;
      otherwise the payload carries the id with the account and the location,
      each exactly when present. */
  function HandleOrderResponse(accountHash: string, orderId: Option<string>, location: Option<string>): (r: HandlerResult)
    ensures !r.success <==> orderId.None? && location.None?
    ensures !r.success ==> r.payload.None?
    ensures r.success ==> && r.payload.Some?
                          && ("orderId" in r.payload.value <==> orderId.Some?)
                          && ("accountHash" in r.payload.value <==> orderId.Some?)
                          && ("location" in r.payload.value <==> location.Some?)
                          && r.payload.value.Keys <= {"orderId", "accountHash", "location"}
    ensures r.success && orderId.Some? ==>
              r.payload.value["orderId"] == orderId.value && r.payload.value["accountHash"] == accountHash
    ensures r.success && location.Some? ==> r.payload.value["location"] == location.value
  {
    if orderId.None? && location.None? then HandlerResult(false, None)
    else
      var withId: map<string, string> :=
        if orderId.Some? then map["orderId" := orderId.value, "accountHash" := accountHash] else map[];
      var payload := if location.Some? then withId["location" := location.value] else withId;
      HandlerResult(true, Some(payload))
  }

  // ---------------------------------------------------------------------------
  // Listing orders under several statuses

  /** The `orderId` entry of a listed order: absent, JSON null, or a value
      (given here as its `str` form). */
  datatype IdField = Missing | Null | Present(text: string)

  datatype OrderRecord = OrderRecord(orderId: IdField, details: string)

  /** `str(order.get("orderId", ""))`. */
  function IdText(o: OrderRecord): string {
    match o.orderId
    case Missing => ""
    case Null => "None"
    case Present(t) => t
  }

  /** How `get_orders` reads its `status` argument. */
  datatype StatusArg = NoStatus | OneStatus(name: string) | ManyStatuses(names: seq<string>)

  /** The status filter of each listing call `get_orders` makes: an absent or
      empty argument makes one unfiltered call, a single name one filtered
      call, and a non-empty list one call per name, in order. */
  function StatusFilters(status: StatusArg): (r: seq<Option<string>>)
    ensures status.ManyStatuses? && status.names != [] ==>
              |r| == |status.names| && forall i :: 0 <= i < |r| ==> r[i] == Some(Upper(status.names[i]))
    ensures status.OneStatus? && status.name != "" ==> r == [Some(Upper(status.name))]
    ensures status.NoStatus? || status == OneStatus("") || status == ManyStatuses([]) ==> r == [None]
  {
    match status
    case NoStatus => [None]
    case OneStatus(name) => if name == "" then [None] else [Some(Upper(name))]
    case ManyStatuses(names) =>
      if names == [] then [None] else seq(|names|, i requires 0 <= i < |names| => Some(Upper(names[i])))
  }

  /** The results of the listing calls, one after the other. */
  function Flatten(results: seq<seq<OrderRecord>>): (r: seq<OrderRecord>)
    decreases |results|
  {
    if results == [] then [] else Flatten(results[..|results| - 1]) + results[|results| - 1]
  }

  /** The ids of some orders. */
  function Ids(orders: seq<OrderRecord>): set<string> {
    set o | o in orders :: IdText(o)
  }

  /** The merged listing: each order is kept when its id is non-empty and
      not yet kept, in the order the calls return them. */
  function Merged(orders: seq<OrderRecord>): seq<OrderRecord>
    decreases |orders|
  {
    if orders == [] then []
    else
      var kept := Merged(orders[..|orders| - 1]);
      var o := orders[|orders| - 1];
      if IdText(o) != "" && IdText(o) !in Ids(kept) then kept + [o] else kept
  }

  lemma MergedStep(orders: seq<OrderRecord>, o: OrderRecord)
    ensures Merged(orders + [o]) ==
            if IdText(o) != "" && IdText(o) !in Ids(Merged(orders)) then Merged(orders) + [o] else Merged(orders)
  {
    assert (orders + [o])[..|orders|] == orders;
  }

  lemma FlattenStep(results: seq<seq<OrderRecord>>, i: nat)
    requires i < |results|
    ensures Flatten(results[..i + 1]) == Flatten(results[..i]) + results[i]
  {
    assert results[..i + 1][..i] == results[..i];
  }

  /** One step of the merge loop keeps the loop's view of the merge. */
  lemma MergeLoopStep(prefix: seq<OrderRecord>, all: seq<OrderRecord>, seen: set<string>, o: OrderRecord)
    requires all == Merged(prefix) && seen == Ids(all)
    ensures IdText(o) != "" && IdText(o) !in seen ==>
              Merged(prefix + [o]) == all + [o] && Ids(all + [o]) == seen + {IdText(o)}
    ensures !(IdText(o) != "" && IdText(o) !in seen) ==> Merged(prefix + [o]) == all
  {
    MergedStep(prefix, o);
    assert Ids(all + [o]) == Ids(all) + {IdText(o)} by {
      assert forall x :: x in all + [o] <==> x in all || x == o;
    }
  }

  lemma AppendNext(prefix: seq<OrderRecord>, s: seq<OrderRecord>, j: nat)
    requires j < |s|
    ensures prefix + s[..j + 1] == (prefix + s[..j]) + [s[j]]
  {
    assert s[..j + 1] == s[..j] + [s[j]];
  }

  /** The multi-status branch of `get_orders`: one pass over the results of
      the calls, keeping the first order seen under each non-empty id. */
  method MergeOrders(results: seq<seq<OrderRecord>>) returns (all: seq<OrderRecord>)
    ensures all == Merged(Flatten(results))
  {
    all := [];
    var seen: set<string> := {};
    for i := 0 to |results|
      invariant all == Merged(Flatten(results[..i]))
      invariant seen == Ids(all)
    {
      var result := results[i];
      ghost var before := Flatten(results[..i]);
      assert before + result[..0] == before;
      for j := 0 to |result|
        invariant all == Merged(before + result[..j])
        invariant seen == Ids(all)
      {
        var order := result[j];
        var orderId := IdText(order);
        MergeLoopStep(before + result[..j], all, seen, order);
        AppendNext(before, result, j);
        if orderId != "" && orderId !in seen {
          seen := seen + {orderId};
          all := all + [order];
        }
      }
      assert result[..|result|] == result;
      FlattenStep(results, i);
    }
    assert results[..|results|] == results;
  }

  /** Every merged order was listed, with a non-empty id. */
  lemma {:induction false} MergedSound(orders: seq<OrderRecord>)
    ensures forall o :: o in Merged(orders) ==> o in orders && IdText(o) != ""
  {
    if orders != [] {
      var init := orders[..|orders| - 1];
      MergedSound(init);
      assert orders == init + [orders[|orders| - 1]];
    }
  }

  /** The merged orders have a non-empty id, and no id occurs twice. */
  lemma {:induction false} MergedUnique(orders: seq<OrderRecord>)
    ensures forall i, j :: 0 <= i < j < |Merged(orders)| ==> IdText(Merged(orders)[i]) != IdText(Merged(orders)[j])
  {
    if orders != [] {
      var init := orders[..|orders| - 1];
      var o := orders[|orders| - 1];
      MergedUnique(init);
      var kept := Merged(init);
      if IdText(o) != "" && IdText(o) !in Ids(kept) {
        forall i, j | 0 <= i < j < |kept + [o]|
          ensures IdText((kept + [o])[i]) != IdText((kept + [o])[j])
        {
          if j == |kept| {
            assert (kept + [o])[i] in kept;
          }
        }
      }
    }
  }

  /** No listed order with a non-empty id is lost: its id is among the merged ones. */
  lemma {:induction false} MergedComplete(orders: seq<OrderRecord>)
    ensures forall o :: o in orders && IdText(o) != "" ==> IdText(o) in Ids(Merged(orders))
  {
    if orders != [] {
      var init := orders[..|orders| - 1];
      MergedComplete(init);
      var kept := Merged(init);
      assert Ids(kept) <= Ids(Merged(orders));
      assert orders == init + [orders[|orders| - 1]];
    }
  }

  /** An order is the first of its id among `orders`. */
  ghost predicate FirstSeen(orders: seq<OrderRecord>, o: OrderRecord) {
    exists i :: 0 <= i < |orders| && orders[i] == o && forall j :: 0 <= j < i ==> IdText(orders[j]) != IdText(o)
  }

  /** Listing one more order keeps every earlier first-seen order first. */
  lemma FirstSeenExtends(init: seq<OrderRecord>, last: OrderRecord, o: OrderRecord)
    requires FirstSeen(init, o)
    ensures FirstSeen(init + [last], o)
  {
    var i :| 0 <= i < |init| && init[i] == o && forall j :: 0 <= j < i ==> IdText(init[j]) != IdText(o);
    assert (init + [last])[i] == o;
    forall j | 0 <= j < i ensures IdText((init + [last])[j]) != IdText(o) {
      assert (init + [last])[j] == init[j];
    }
  }

  /** An order listed after every order of other ids is first seen. */
  lemma FirstSeenLast(init: seq<OrderRecord>, last: OrderRecord)
    requires forall j :: 0 <= j < |init| ==> IdText(init[j]) != IdText(last)
    ensures FirstSeen(init + [last], last)
  {
    var orders := init + [last];
    assert orders[|init|] == last;
    forall j | 0 <= j < |init| ensures IdText(orders[j]) != IdText(last) {
      assert orders[j] == init[j];
    }
  }

  /** Each merged order is the first listed order with its id. */
  lemma {:induction false} MergedFirstSeen(orders: seq<OrderRecord>)
    ensures forall o :: o in Merged(orders) ==> FirstSeen(orders, o)
  {
    if orders != [] {
      var init := orders[..|orders| - 1];
      var last := orders[|orders| - 1];
      assert orders == init + [last];
      MergedFirstSeen(init);
      MergedComplete(init);
      var kept := Merged(init);
      forall o | o in Merged(orders) ensures FirstSeen(orders, o) {
        if o in kept {
          FirstSeenExtends(init, last, o);
        } else {
          assert o == last && IdText(last) != "" && IdText(last) !in Ids(kept);
          forall j | 0 <= j < |init| ensures IdText(init[j]) != IdText(last) {
            assert init[j] in init;
          }
          FirstSeenLast(init, last);
        }
      }
    }
  }

  // ---------------------------------------------------------------------------
  // Bracket and combo orders

  /** The exit side of a bracket: the opposite of the entry side. */
  function ExitInstruction(entryInstruction: string): (exit: string)
    requires entryInstruction in EQUITY_INSTRUCTIONS
    ensures exit in EQUITY_INSTRUCTIONS && exit != entryInstruction
  {
    if entryInstruction == "BUY" then "SELL" else "BUY"
  }

  /** `place_bracket_order`: the entry side is checked first, then the entry
      order as any equity order; the entry then triggers a pair of exits on
      the opposite side, a limit at the profit price and a stop at the loss
      price, of which the first to execute cancels the other. The session and
      duration apply to all three orders. */
  function BracketOrder(symbol: string, quantity: int, entryInstruction: string, entryType: string,
                        profitPrice: real, lossPrice: real, entryPrice: Option<real>, entryStopPrice: Option<real>,
                        session: Option<string>, duration: Option<string>): (r: Result<Strategy>)
    ensures Upper(entryInstruction) !in EQUITY_INSTRUCTIONS ==> r == Err(InvalidInstruction(Upper(entryInstruction)))
    ensures Upper(entryInstruction) in EQUITY_INSTRUCTIONS ==>
              var entry := BuildEquityOrderSpec(symbol, quantity, entryInstruction, entryType, entryPrice, entryStopPrice);
              (r.Ok? <==> entry.Ok?) && (entry.Err? ==> r == Err(entry.error))
  {
    var side := Upper(entryInstruction);
    if side !in EQUITY_INSTRUCTIONS then Err(InvalidInstruction(side))
    else
      UpperIdempotent(entryInstruction);
      match BuildEquityOrderSpec(symbol, quantity, side, entryType, entryPrice, entryStopPrice)
      case Err(e) => Err(e)
      case Ok(entry) =>
        var exit := ExitInstruction(side);
        var profit := HelperOrder(EquityAsset, "LIMIT", exit, symbol, quantity, Some(profitPrice), None);
        var loss := HelperOrder(EquityAsset, "STOP", exit, symbol, quantity, None, Some(lossPrice));
        Ok(FirstTriggersSecond(
             Single(ApplyOrderSettings(entry, session, duration)),
             OneCancelsOther(Single(ApplyOrderSettings(profit, session, duration)),
                             Single(ApplyOrderSettings(loss, session, duration)))))
  }

  /** An accepted bracket is an entry that triggers a take-profit limit and a
      stop-loss stop, both on the side opposite the entry, with the same
      symbol, quantity, session and duration. */
  lemma BracketExitsOppose(symbol: string, quantity: int, entryInstruction: string, entryType: string,
                           profitPrice: real, lossPrice: real, entryPrice: Option<real>, entryStopPrice: Option<real>,
                           session: Option<string>, duration: Option<string>)
    requires BracketOrder(symbol, quantity, entryInstruction, entryType, profitPrice, lossPrice,
                          entryPrice, entryStopPrice, session, duration).Ok?
    ensures var s := BracketOrder(symbol, quantity, entryInstruction, entryType, profitPrice, lossPrice,
                                  entryPrice, entryStopPrice, session, duration).value;
            && s.FirstTriggersSecond? && s.primary.Single?
            && s.triggered.OneCancelsOther? && s.triggered.first.Single? && s.triggered.second.Single?
            && var entry := s.primary.order;
               var profit := s.triggered.first.order;
               var loss := s.triggered.second.order;
               && entry.legs == [Leg(EquityAsset, Upper(entryInstruction), symbol, quantity)]
               && profit.orderType == "LIMIT" && profit.price == Some(profitPrice)
               && loss.orderType == "STOP" && loss.stopPrice == Some(lossPrice)
               && profit.legs == loss.legs == [Leg(EquityAsset, ExitInstruction(Upper(entryInstruction)), symbol, quantity)]
               && ExitInstruction(Upper(entryInstruction)) != Upper(entryInstruction)
               && entry.session == profit.session == loss.session
               && entry.duration == profit.duration == loss.duration
  {
    UpperIdempotent(entryInstruction);
    var side := Upper(entryInstruction);
    var built := BuildEquityOrderSpec(symbol, quantity, side, entryType, entryPrice, entryStopPrice);
    assert built.Ok? && built.value.legs == [Leg(EquityAsset, side, symbol, quantity)];
    var exit := ExitInstruction(side);
    var profit := HelperOrder(EquityAsset, "LIMIT", exit, symbol, quantity, Some(profitPrice), None);
    var loss := HelperOrder(EquityAsset, "STOP", exit, symbol, quantity, None, Some(lossPrice));
    assert BracketOrder(symbol, quantity, entryInstruction, entryType, profitPrice, lossPrice,
                        entryPrice, entryStopPrice, session, duration)
        == Ok(FirstTriggersSecond(
                Single(ApplyOrderSettings(built.value, session, duration)),
                OneCancelsOther(Single(ApplyOrderSettings(profit, session, duration)),
                                Single(ApplyOrderSettings(loss, session, duration)))));
  }

  /** One leg of a combo order as the agent gives it. */
  datatype ComboLeg = ComboLeg(instruction: string, symbol: string, quantity: int)

  /** `place_option_combo_order`: fewer than two legs is an error; otherwise a
      single order with the given session and duration (when non-empty), the
      upper-cased complex type (when non-empty) and order type, the net price
      if any, and one option leg per given leg, in order. */
  function ComboOrder(legs: seq<ComboLeg>, orderType: string, price: Option<real>, session: Option<string>,
                      duration: Option<string>, complexType: Option<string>): (r: Result<Builder>)
    ensures r.Err? <==> |legs| < 2
    ensures r.Err? ==> r.error == TooFewLegs
    ensures r.Ok? ==> && r.value.orderStrategyType == "SINGLE"
                      && r.value.orderType == Upper(orderType)
                      && r.value.price == price
                      && r.value.session == (if Truthy(session) then session else None)
                      && r.value.duration == (if Truthy(duration) then duration else None)
                      && r.value.complexOrderStrategyType == (if Truthy(complexType) then Some(Upper(complexType.value)) else None)
                      && |r.value.legs| == |legs|
                      && forall i :: 0 <= i < |legs| ==>
                           r.value.legs[i] == Leg(OptionAsset, legs[i].instruction, legs[i].symbol, legs[i].quantity)
  {
    if |legs| < 2 then Err(TooFewLegs)
    else
      var base := Builder("", [], None, None, None, None, None, None, None, None, "SINGLE");
      var withSettings := ApplyOrderSettings(base, session, duration);
      var withComplex :=
        if Truthy(complexType) then withSettings.(complexOrderStrategyType := Some(Upper(complexType.value)))
        else withSettings;
      var priced := withComplex.(orderType := Upper(orderType), price := price);
      Ok(priced.(legs := seq(|legs|, i requires 0 <= i < |legs| =>
                               Leg(OptionAsset, legs[i].instruction, legs[i].symbol, legs[i].quantity))))
  }

  // ---------------------------------------------------------------------------
  // Leg types of a first-triggers-second order

  /** A leg of an order specification given as a dictionary: its
      `orderLegType`, if set, and its instrument's `assetType`, if the leg has
      an instrument with one. */
  datatype SpecLeg = SpecLeg(orderLegType: Option<string>, assetType: Option<string>, instruction: string,
                             symbol: string, quantity: int)

  /** A leg without an `orderLegType` gets its instrument's asset type, or
      `EQUITY` when it has none; a leg with one is left alone. */
  function WithLegType(leg: SpecLeg): (r: SpecLeg)
    ensures r.orderLegType.Some?
    ensures leg.orderLegType.Some? ==> r == leg
    ensures leg.orderLegType.None? ==>
              r == leg.(orderLegType := Some(if leg.assetType.Some? then leg.assetType.value else "EQUITY"))
  {
    if leg.orderLegType.Some? then leg
    else leg.(orderLegType := Some(if leg.assetType.Some? then leg.assetType.value else "EQUITY"))
  }

  /** The leg loop of `place_first_triggers_second_order` on the copied legs:
      every leg gets a type, legs that had one keep everything, and nothing
      but the type changes. */
  method FillLegTypes(legs: seq<SpecLeg>) returns (filled: seq<SpecLeg>)
    ensures |filled| == |legs|
    ensures forall i :: 0 <= i < |legs| ==> filled[i] == WithLegType(legs[i])
  {
    filled := legs;
    var i := 0;
    while i < |filled|
      invariant 0 <= i <= |filled| == |legs|
      invariant forall k :: 0 <= k < i ==> filled[k] == WithLegType(legs[k])
      invariant forall k :: i <= k < |filled| ==> filled[k] == legs[k]
    {
      if filled[i].orderLegType.None? {
        var assetType := if filled[i].assetType.Some? then filled[i].assetType.value else "EQUITY";
        filled := filled[i := filled[i].(orderLegType := Some(assetType))];
      }
      i := i + 1;
    }
  }

  /** Filling the types of legs that already have them changes nothing. */
  lemma FillLegTypesIdempotent(leg: SpecLeg)
    ensures WithLegType(WithLegType(leg)) == WithLegType(leg)
  {
  }

  // ---------------------------------------------------------------------------
  // Registration

  const READ_ONLY_TOOLS: seq<string> := [
    "get_order", "get_orders", "build_equity_order_spec", "build_equity_trailing_stop_order_spec",
    "build_option_order_spec", "create_option_symbol"
  ]

  const WRITE_TOOLS: seq<string> := [
    "cancel_order", "place_equity_order", "place_option_order", "place_equity_trailing_stop_order",
    "place_one_cancels_other_order", "place_first_triggers_second_order", "place_bracket_order",
    "place_option_combo_order"
  ]

  /** A tool registered with the server, and whether it is marked as a write. */
  datatype Registration = Registration(name: string, write: bool)

  /** `register`: the read-only tools always, then the write tools, marked as
      writes, only when writes are allowed. */
  function Register(allowWrite: bool): (r: seq<Registration>)
    ensures |r| == |READ_ONLY_TOOLS| + (if allowWrite then |WRITE_TOOLS| else 0)
    ensures forall i :: 0 <= i < |READ_ONLY_TOOLS| ==> r[i] == Registration(READ_ONLY_TOOLS[i], false)
    ensures forall i :: |READ_ONLY_TOOLS| <= i < |r| ==>
              r[i] == Registration(WRITE_TOOLS[i - |READ_ONLY_TOOLS|], true)
  {
    var readOnly := seq(|READ_ONLY_TOOLS|, i requires 0 <= i < |READ_ONLY_TOOLS| => Registration(READ_ONLY_TOOLS[i], false));
    var writes := seq(|WRITE_TOOLS|, i requires 0 <= i < |WRITE_TOOLS| => Registration(WRITE_TOOLS[i], true));
    if allowWrite then readOnly + writes else readOnly
  }

  /** A tool is registered as a write exactly when it is a write tool and
      writes are allowed; no write tool is ever registered as read-only. */
  lemma WriteToolsOnlyWhenAllowed(allowWrite: bool, name: string)
    ensures (exists i :: 0 <= i < |Register(allowWrite)| && Register(allowWrite)[i] == Registration(name, true))
            <==> allowWrite && name in WRITE_TOOLS
    ensures name in WRITE_TOOLS ==>
              forall i :: 0 <= i < |Register(allowWrite)| ==> Register(allowWrite)[i] != Registration(name, false)
  {
    var r := Register(allowWrite);
    if allowWrite && name in WRITE_TOOLS {
      var k :| 0 <= k < |WRITE_TOOLS| && WRITE_TOOLS[k] == name;
      assert r[|READ_ONLY_TOOLS| + k] == Registration(name, true);
    }
  }
}
