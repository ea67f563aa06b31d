/** Take-profit / stop-loss orders on a futures position: the price rules
    checked before anything is sent, the side of the closing order, and the
    message reported on success. Prices are real numbers. */
module TradingUtils {
  import opened Wrappers

  /** The order handed to the repository. */
  datatype TPSLRequest = TPSLRequest(symbol: string, side: string, takeProfitPrice: Option<real>,
                                     stopLossPrice: Option<real>, quantity: real)

  /** Which repository endpoint gets the order. */
  datatype Call = Call(usdM: bool, request: TPSLRequest)

  /** What the repository call comes back with: a response, a failed
      `Result`, or an exception. */
  datatype Reply =
    | Response(success: bool, error: Option<string>)
    | Failure(message: string)
    | Thrown(message: string)

  datatype ApiResult = Success(data: string) | Error(message: string)

  /** The rules a take-profit price must meet. */
  predicate TakeProfitOk(isLong: bool, currentPrice: real, tp: real) {
    tp > 0.0 && (if isLong then tp > currentPrice else tp < currentPrice)
  }

  /** The rules a stop-loss price must meet. */
  predicate StopLossOk(isLong: bool, currentPrice: real, sl: real) {
    sl > 0.0 && (if isLong then sl < currentPrice else sl > currentPrice)
  }

  /** validateTPSLPrices: the first rule broken, or None when all hold.
      Any side other than "LONG" counts as short. */
  function ValidateTPSLPrices(positionSide: string, currentPrice: real,
                              takeProfitPrice: Option<real>, stopLossPrice: Option<real>): (r: Option<string>)
    ensures r.None? <==>
      (takeProfitPrice.Some? || stopLossPrice.Some?)
      && (takeProfitPrice.Some? ==> TakeProfitOk(positionSide == "LONG", currentPrice, takeProfitPrice.value))
      && (stopLossPrice.Some? ==> StopLossOk(positionSide == "LONG", currentPrice, stopLossPrice.value))
    ensures takeProfitPrice.None? && stopLossPrice.None? ==>
      r == Some("At least one TP or SL price must be provided")
  {
    if takeProfitPrice.None? && stopLossPrice.None? then
      Some("At least one TP or SL price must be provided")
    else
      var isLong := positionSide == "LONG";
      if takeProfitPrice.Some? && takeProfitPrice.value <= 0.0 then
        Some("Take Profit price must be positive")
      else if takeProfitPrice.Some? && isLong && takeProfitPrice.value <= currentPrice then
        Some("Take Profit must be above current price for LONG positions")
      else if takeProfitPrice.Some? && !isLong && takeProfitPrice.value >= currentPrice then
        Some("Take Profit must be below current price for SHORT positions")
      else if stopLossPrice.Some? && stopLossPrice.value <= 0.0 then
        Some("Stop Loss price must be positive")
      else if stopLossPrice.Some? && isLong && stopLossPrice.value >= currentPrice then
        Some("Stop Loss must be below current price for LONG positions")
      else if stopLossPrice.Some? && !isLong && stopLossPrice.value <= currentPrice then
        Some("Stop Loss must be above current price for SHORT positions")
      else None
  }

  /** The take-profit rules are checked before the stop-loss rules. */
  lemma TakeProfitFirst(positionSide: string, currentPrice: real, tp: real, stopLossPrice: Option<real>)
    requires !TakeProfitOk(positionSide == "LONG", currentPrice, tp)
    ensures var r := ValidateTPSLPrices(positionSide, currentPrice, Some(tp), stopLossPrice);
      r == Some("Take Profit price must be positive")
      || r == Some("Take Profit must be above current price for LONG positions")
      || r == Some("Take Profit must be below current price for SHORT positions")
  {
  }

  /** On a long position the two prices must bracket the current price. */
  lemma LongBracket(currentPrice: real, tp: real, sl: real)
    requires ValidateTPSLPrices("LONG", currentPrice, Some(tp), Some(sl)).None?
    ensures 0.0 < sl < currentPrice < tp
  {
  }

  /** On a short position the bracket is the other way round. */
  lemma ShortBracket(positionSide: string, currentPrice: real, tp: real, sl: real)
    requires positionSide != "LONG"
    requires ValidateTPSLPrices(positionSide, currentPrice, Some(tp), Some(sl)).None?
    ensures 0.0 < tp < currentPrice < sl
  {
  }

  /** buildSuccessMessage. */
  function BuildSuccessMessage(takeProfitPrice: Option<real>, stopLossPrice: Option<real>): (r: string)
    ensures r == "No changes made" <==> takeProfitPrice.None? && stopLossPrice.None?
  {
    if takeProfitPrice.Some? && stopLossPrice.Some? then "TP/SL orders placed successfully"
    else if takeProfitPrice.Some? then "Take Profit order placed successfully"
    else if stopLossPrice.Some? then "Stop Loss order placed successfully"
    else "No changes made"
  }

  /** The message tells exactly which of the two prices were given, and
      nothing about their values. */
  lemma SuccessMessagePresence(tp1: Option<real>, sl1: Option<real>, tp2: Option<real>, sl2: Option<real>)
    ensures BuildSuccessMessage(tp1, sl1) == BuildSuccessMessage(tp2, sl2)
      <==> tp1.Some? == tp2.Some? && sl1.Some? == sl2.Some?
  {
    var m := ["TP/SL orders placed successfully", "Take Profit order placed successfully",
              "Stop Loss order placed successfully", "No changes made"];
    assert m[0][0] == 'T' && m[1][0] == 'T' && m[2][0] == 'S' && m[3][0] == 'N';
    assert m[0][1] == 'P' && m[1][1] == 'a';
  }

  /** The closing order goes the other way from the position. */
  function OrderSide(positionSide: string): (r: string)
    ensures r == "SELL" <==> positionSide == "LONG"
    ensures r == "SELL" || r == "BUY"
  {
    if positionSide == "LONG" then "SELL" else "BUY"
  }

  /** setTPSL: the result and the repository call made, if any. */
  function SetTPSL(symbol: string, positionSide: string, currentPrice: real, quantity: real,
                   takeProfitPrice: Option<real>, stopLossPrice: Option<real>, isUSDM: bool,
                   reply: Call -> Reply): (r: (ApiResult, Option<Call>))
    ensures ValidateTPSLPrices(positionSide, currentPrice, takeProfitPrice, stopLossPrice).Some? ==>
      r == (ApiResult.Error(ValidateTPSLPrices(positionSide, currentPrice, takeProfitPrice, stopLossPrice).value), None)
    ensures ValidateTPSLPrices(positionSide, currentPrice, takeProfitPrice, stopLossPrice).None? ==>
      r.1 == Some(Call(isUSDM, TPSLRequest(symbol, OrderSide(positionSide), takeProfitPrice, stopLossPrice, quantity)))
    ensures r.0.Success? <==>
      ValidateTPSLPrices(positionSide, currentPrice, takeProfitPrice, stopLossPrice).None?
      && r.1.Some? && reply(r.1.value).Response? && reply(r.1.value).success
    ensures r.0.Success? ==> r.0.data == BuildSuccessMessage(takeProfitPrice, stopLossPrice)
  {
    var invalid := ValidateTPSLPrices(positionSide, currentPrice, takeProfitPrice, stopLossPrice);
    if invalid.Some? then (ApiResult.Error(invalid.value), None)
    else
      var call := Call(isUSDM, TPSLRequest(symbol, OrderSide(positionSide), takeProfitPrice, stopLossPrice, quantity));
      var result :=
        match reply(call)
        case Response(success, error) =>
          if success then ApiResult.Success(BuildSuccessMessage(takeProfitPrice, stopLossPrice))
          else ApiResult.Error(error.GetOr("Failed to set TP/SL"))
        case Failure(message) => ApiResult.Error("Network error: " + message)
        case Thrown(message) => ApiResult.Error("Error setting TP/SL: " + message);
      (result, Some(call))
  }
}
