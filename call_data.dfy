/**
 * Call-record accumulation (src/parse-call-data.js): each raw call line is
 * attributed to a caller, the call data is decoded into one or more exchange
 * calls, and per-caller tables of senders, methods, fee recipients and
 * makers, and order/fill/update counters, are bumped in place.
 *
 * ABI decoding is not modelled: a decoder carries the selector table and an
 * opaque decoding function, which is all `extractCalls` needs.
 */
module CallData {
  import opened Util
  import opened Tally

  // ---------------------------------------------------------------------
  // Decoded arguments and extracted calls
  // ---------------------------------------------------------------------

  /** The fields of a decoded order that the accumulator reads. */
  datatype Order = Order(feeRecipientAddress: string, makerAddress: string, senderAddress: string)

  /** Decoded call arguments; a field the method does not have is None. */
  datatype DecodedArgs = DecodedArgs(
    order: Option<Order>,
    leftOrder: Option<Order>,
    rightOrder: Option<Order>,
    orders: Option<seq<Order>>,
    data: Option<string>)

  /** What `args = {}` leaves when decoding throws. */
  const NoArgs := DecodedArgs(None, None, None, None, None)

  /** An ABI function entry; its inputs only matter to the opaque decoder. */
  datatype MethodAbi = MethodAbi(name: string)

  /** One exchange call extracted from a transaction's call data. */
  datatype Call = Call(id: string, orders: seq<Order>, fills: nat, updates: nat)

  datatype CallError =
    | UnknownSelector(selector: string)  // `throw new Error('Unknown selector: ...')`
    | MissingRightOrder                  // hashing an undefined right order throws
    | MissingTransactionData             // `executeTransaction` decoded without `data`

  /**
   * The selector table built from the ABI files, and the parameter decoder;
   * `None` is a decoding failure, which the source catches.
   */
  datatype CallDecoder = CallDecoder(
    selectors: map<string, MethodAbi>,
    decode: (MethodAbi, string) -> Option<DecodedArgs>)

  /**
   * A nested transaction payload is shorter than the hex argument text it is
   * decoded from, without that text's "0x" prefix (its digits are part of
   * the argument encoding). This is what makes the `executeTransaction`
   * recursion finite.
   */
  ghost predicate Shrinks(decode: (MethodAbi, string) -> Option<DecodedArgs>)
  {
    forall m, raw :: decode(m, raw).Some? && decode(m, raw).value.data.Some? ==>
      |decode(m, raw).value.data.value| + 2 < |raw|
  }

  const ExecuteTransaction := "executeTransaction"
  const TxPrefix := "tx_"

  /** ASCII case folding, which is what a JavaScript `/.../i` test applies to these patterns. */
  function Lower(c: char): char
  {
    if 'A' <= c <= 'Z' then (c as int + 32) as char else c
  }

  /** `s` holds `w` (all lower case) at position i, ignoring case. */
  predicate MatchesAt(s: string, w: string, i: nat)
  {
    i + |w| <= |s| && forall j :: 0 <= j < |w| ==> Lower(s[i + j]) == w[j]
  }

  /** `/w/i.test(s)`. */
  predicate ContainsIgnoringCase(s: string, w: string)
  {
    exists i :: 0 <= i <= |s| && MatchesAt(s, w, i)
  }

  /** Method names whose orders count as fills: fill, buy, sell or match, in any case. */
  predicate IsFillLike(name: string)
  {
    ContainsIgnoringCase(name, "fill") || ContainsIgnoringCase(name, "buy")
    || ContainsIgnoringCase(name, "sell") || ContainsIgnoringCase(name, "match")
  }

  /** The orders a call carries, chosen from its decoded arguments. */
  function OrdersOf(args: DecodedArgs): (r: Result<seq<Order>, CallError>)
    ensures args.order.Some? ==> r == Ok([args.order.value])
    ensures args.order.None? && args.leftOrder.Some? ==>
      if args.rightOrder.Some? then r == Ok([args.leftOrder.value, args.rightOrder.value])
      else r == Err(MissingRightOrder)
    ensures args.order.None? && args.leftOrder.None? ==>
      r == Ok(if args.orders.Some? then args.orders.value else [])
  {
    if args.order.Some? then Ok([args.order.value])
    else if args.leftOrder.Some? then
      if args.rightOrder.Some? then Ok([args.leftOrder.value, args.rightOrder.value])
      else Err(MissingRightOrder)
    else if args.orders.Some? then Ok(args.orders.value)
    else Ok([])
  }

  /**
   * The counting rule every extracted call obeys: only plain `call`s count;
   * then every order is an update, and every order of a fill-like method is
   * also a fill.
   */
  predicate CountedAsRule(c: Call, callType: string)
  {
    && c.updates == (if callType == "call" then |c.orders| else 0)
    && c.fills == (if callType == "call" && IsFillLike(c.id) then |c.orders| else 0)
  }

  /** A call of the named method with the given orders, counted for its call type. */
  function MakeCall(name: string, orders: seq<Order>, callType: string): (c: Call)
    ensures c.id == name && c.orders == orders
    ensures CountedAsRule(c, callType)
    ensures c.fills <= c.updates <= |orders|
  {
    var counted := callType == "call";
    Call(name, orders,
      if counted && IsFillLike(name) then |orders| else 0,
      if counted then |orders| else 0)
  }

  /** Nested calls of an `executeTransaction` are reported with ids prefixed "tx_". */
  function Prefixed(calls: seq<Call>): (r: seq<Call>)
    ensures |r| == |calls|
    ensures forall i :: 0 <= i < |r| ==>
      r[i] == calls[i].(id := TxPrefix + calls[i].id)
  {
    seq(|calls|, i requires 0 <= i < |calls| => calls[i].(id := TxPrefix + calls[i].id))
  }

  /** Prefixing "tx_" does not change whether a name is fill-like. */
  lemma FillLikePrefixed(name: string)
    ensures IsFillLike(TxPrefix + name) == IsFillLike(name)
  {
    ContainsPrefixed(name, "fill");
    ContainsPrefixed(name, "buy");
    ContainsPrefixed(name, "sell");
    ContainsPrefixed(name, "match");
  }

  /** A word that starts with none of the characters of "tx_" is found after the prefix or not at all. */
  lemma ContainsPrefixed(name: string, w: string)
    requires |w| > 0 && w[0] != 't' && w[0] != 'x' && w[0] != '_'
    ensures ContainsIgnoringCase(TxPrefix + name, w) == ContainsIgnoringCase(name, w)
  {
    var s := TxPrefix + name;
    if ContainsIgnoringCase(name, w) {
      var i :| 0 <= i <= |name| && MatchesAt(name, w, i);
      assert MatchesAt(s, w, i + 3);
    }
    if ContainsIgnoringCase(s, w) {
      var i :| 0 <= i <= |s| && MatchesAt(s, w, i);
      assert Lower(s[i]) == w[0];
      assert i >= 3;
      assert MatchesAt(name, w, i - 3);
    }
  }

  /** The first ten characters, like `callData.substr(0, 10)`. */
  function Selector(callData: string): string
  {
    if |callData| < 10 then callData else callData[..10]
  }

  /** `'0x' + callData.substr(10)`. */
  function RawArgs(callData: string): (r: string)
    ensures |r| + 8 <= |callData| + 10 && (|callData| >= 10 ==> |r| + 8 == |callData|)
  {
    "0x" + (if |callData| < 10 then "" else callData[10..])
  }

  /** The decoded arguments, or `{}` when decoding throws. */
  function DecodedArgsOf(dec: CallDecoder, abi: MethodAbi, rawArgs: string): (args: DecodedArgs)
    ensures dec.decode(abi, rawArgs).None? ==> args == NoArgs
    ensures dec.decode(abi, rawArgs).Some? ==> args == dec.decode(abi, rawArgs).value
  {
    match dec.decode(abi, rawArgs)
    case Some(a) => a
    case None => NoArgs
  }

  /**
   * `CallDecoder.extractCalls`: the call itself, followed, for an
   * `executeTransaction`, by the calls of the wrapped transaction with their
   * ids prefixed "tx_".
   */
  function ExtractCalls(dec: CallDecoder, callData: string, callType: string): (r: Result<seq<Call>, CallError>)
    requires Shrinks(dec.decode)
    ensures Selector(callData) !in dec.selectors ==> r == Err(UnknownSelector(Selector(callData)))
    ensures r.Ok? ==> |r.value| > 0 && r.value[0].id == dec.selectors[Selector(callData)].name
    ensures r.Ok? && r.value[0].id != ExecuteTransaction ==> |r.value| == 1
    ensures r.Ok? ==> forall i :: 1 <= i < |r.value| ==>
      |r.value[i].id| >= |TxPrefix| && r.value[i].id[..|TxPrefix|] == TxPrefix
    ensures r.Ok? ==> forall i :: 0 <= i < |r.value| ==> CountedAsRule(r.value[i], callType)
    decreases |callData|
  {
    var signature := Selector(callData);
    if signature !in dec.selectors then Err(UnknownSelector(signature))
    else
      var abi := dec.selectors[signature];
      var rawArgs := RawArgs(callData);
      var args := DecodedArgsOf(dec, abi, rawArgs);
      match OrdersOf(args)
      case Err(e) => Err(e)
      case Ok(orders) =>
        var call := MakeCall(abi.name, orders, callType);
        if abi.name != ExecuteTransaction then Ok([call])
        else if args.data.None? then Err(MissingTransactionData)
        else
          assert dec.decode(abi, rawArgs).Some?;
          match ExtractCalls(dec, args.data.value, callType)
          case Err(e) => Err(e)
          case Ok(inner) =>
            var nested := Prefixed(inner);
            assert forall i :: 0 <= i < |nested| ==> CountedAsRule(nested[i], callType) by {
              forall i | 0 <= i < |nested| ensures CountedAsRule(nested[i], callType) {
                FillLikePrefixed(inner[i].id);
              }
            }
            Ok([call] + nested)
  }

  /**
   * What `extractCalls` returns for a known selector: an error in choosing
   * the orders is passed on; the first call carries the method name and
   * the chosen orders; an `executeTransaction` without a payload fails, and
   * with one, the remaining calls are exactly the payload's calls with
   * their ids prefixed, and any error of the payload is passed on.
   */
  lemma ExtractCallsStructure(dec: CallDecoder, callData: string, callType: string)
    requires Shrinks(dec.decode)
    requires Selector(callData) in dec.selectors
    ensures var abi := dec.selectors[Selector(callData)];
      var args := DecodedArgsOf(dec, abi, RawArgs(callData));
      var r := ExtractCalls(dec, callData, callType);
      && (OrdersOf(args).Err? ==> r == Err(OrdersOf(args).error))
      && (OrdersOf(args).Ok? ==>
            && (abi.name != ExecuteTransaction ==> r == Ok([MakeCall(abi.name, OrdersOf(args).value, callType)]))
            && (abi.name == ExecuteTransaction && args.data.None? ==> r == Err(MissingTransactionData)))
      && (r.Ok? ==> r.value[0] == MakeCall(abi.name, OrdersOf(args).value, callType))
      && (abi.name == ExecuteTransaction && args.data.Some? && OrdersOf(args).Ok? ==>
            var inner := ExtractCalls(dec, args.data.value, callType);
            && (inner.Err? ==> r == inner)
            && (inner.Ok? ==> r.Ok? && r.value[1..] == Prefixed(inner.value)))
  {
    var abi := dec.selectors[Selector(callData)];
    var args := DecodedArgsOf(dec, abi, RawArgs(callData));
    var r := ExtractCalls(dec, callData, callType);
    if abi.name == ExecuteTransaction && args.data.Some? && OrdersOf(args).Ok? {
      var inner := ExtractCalls(dec, args.data.value, callType);
      if inner.Ok? {
        var call := MakeCall(abi.name, OrdersOf(args).value, callType);
        assert r == Ok([call] + Prefixed(inner.value));
        assert ([call] + Prefixed(inner.value))[1..] == Prefixed(inner.value);
      }
    }
  }

  /** Totals over two lists of calls add up. */
  lemma {:induction false} TotalsAppend(a: seq<Call>, b: seq<Call>)
    ensures OrderTotal(a + b) == OrderTotal(a) + OrderTotal(b)
    ensures FillTotal(a + b) == FillTotal(a) + FillTotal(b)
    ensures UpdateTotal(a + b) == UpdateTotal(a) + UpdateTotal(b)
  {
    if |b| == 0 {
      assert a + b == a;
    } else {
      var n := |b| - 1;
      TotalsAppend(a, b[..n]);
      assert (a + b)[..|a + b| - 1] == a + b[..n];
      assert (a + b)[|a + b| - 1] == b[n];
    }
  }

  /** Prefixing the ids keeps every order, fill and update, and counts each id under its prefixed name. */
  lemma {:induction false} PrefixedTotals(calls: seq<Call>)
    ensures OrderTotal(Prefixed(calls)) == OrderTotal(calls)
    ensures FillTotal(Prefixed(calls)) == FillTotal(calls)
    ensures UpdateTotal(Prefixed(calls)) == UpdateTotal(calls)
    ensures forall id :: IdCount(Prefixed(calls), TxPrefix + id) == IdCount(calls, id)
  {
    if |calls| > 0 {
      var n := |calls| - 1;
      PrefixedTotals(calls[..n]);
      assert Prefixed(calls)[..n] == Prefixed(calls[..n]);
      forall id ensures IdCount(Prefixed(calls), TxPrefix + id) == IdCount(calls, id) {
        PrefixInjective(calls[n].id, id);
      }
    }
  }

  lemma PrefixInjective(a: string, b: string)
    ensures TxPrefix + a == TxPrefix + b <==> a == b
  {
    if TxPrefix + a == TxPrefix + b {
      assert a == (TxPrefix + a)[|TxPrefix|..];
      assert b == (TxPrefix + b)[|TxPrefix|..];
    }
  }

  /**
   * An `executeTransaction` line counts the orders, fills and updates of
   * its own call plus exactly those of the wrapped transaction's calls.
   */
  lemma ExtractCallsTotals(dec: CallDecoder, callData: string, callType: string)
    requires Shrinks(dec.decode)
    requires Selector(callData) in dec.selectors
    requires dec.selectors[Selector(callData)].name == ExecuteTransaction
    requires ExtractCalls(dec, callData, callType).Ok?
    ensures var abi := dec.selectors[Selector(callData)];
      var args := DecodedArgsOf(dec, abi, RawArgs(callData));
      var calls := ExtractCalls(dec, callData, callType).value;
      && args.data.Some? && ExtractCalls(dec, args.data.value, callType).Ok?
      && var inner := ExtractCalls(dec, args.data.value, callType).value;
      && OrderTotal(calls) == |calls[0].orders| + OrderTotal(inner)
      && FillTotal(calls) == calls[0].fills + FillTotal(inner)
      && UpdateTotal(calls) == calls[0].updates + UpdateTotal(inner)
  {
    var abi := dec.selectors[Selector(callData)];
    var args := DecodedArgsOf(dec, abi, RawArgs(callData));
    var calls := ExtractCalls(dec, callData, callType).value;
    ExtractCallsStructure(dec, callData, callType);
    var inner := ExtractCalls(dec, args.data.value, callType).value;
    assert calls == [calls[0]] + calls[1..];
    TotalsAppend([calls[0]], calls[1..]);
    PrefixedTotals(inner);
  }

  // ---------------------------------------------------------------------
  // Per-caller accumulation
  // ---------------------------------------------------------------------

  /** One line of the call data file. */
  datatype RawCall = RawCall(
    timestamp: real,
    fromAddress: string,
    toAddress: string,
    calleeAddress: string,
    callData: string,
    callType: string)

  /** The record the accumulator keeps per caller, as written out as JSON. */
  datatype CallerInfo = CallerInfo(
    caller: string,
    senders: map<string, nat>,
    methods: map<string, nat>,
    feeRecipients: map<string, nat>,
    makers: map<string, nat>,
    orderCount: nat,
    fillCount: nat,
    updateCount: nat)

  /**
   * A direct call is attributed to the account that sent it; a call made
   * through a contract is attributed to that contract.
   */
  function CallerOf(raw: RawCall): (a: string)
    ensures raw.toAddress == raw.calleeAddress ==> a == raw.fromAddress
    ensures raw.toAddress != raw.calleeAddress ==> a == raw.toAddress
  {
    if raw.toAddress == raw.calleeAddress then raw.fromAddress else raw.toAddress
  }

  /** The time window a line must fall in (see the Findings in README.md). */
  predicate InWindow(raw: RawCall, since: real, until: real)
  {
    !(raw.timestamp < since || raw.timestamp > until)
  }

  /**
   * The window test as written: the upper bound compares the whole record
   * object with a number, a comparison JavaScript always answers false.
   */
  predicate InWindowAsWritten(raw: RawCall, since: real, until: real)
  {
    var recordAboveUntil := false;
    !(raw.timestamp < since || recordAboveUntil)
  }

  /**
   * The corrected window keeps exactly the lines between the two bounds:
   * it is the test as written with the missing upper bound added, and the
   * test as written depends on `since` alone.
   */
  lemma InWindowBounds(raw: RawCall, since: real, until: real)
    ensures InWindow(raw, since, until) <==> since <= raw.timestamp <= until
    ensures InWindow(raw, since, until) <==> InWindowAsWritten(raw, since, until) && raw.timestamp <= until
    ensures forall other: real :: InWindowAsWritten(raw, since, other) == InWindowAsWritten(raw, since, until)
  {
  }

  /** As written, a line after the end of the window is still accepted. */
  lemma AsWrittenAcceptsLateCalls()
    ensures var raw := RawCall(10.0, "a", "b", "b", "", "call");
      InWindowAsWritten(raw, 0.0, 5.0) && !InWindow(raw, 0.0, 5.0)
  {
  }

  /** A caller seen for the first time. */
  function NewCallerInfo(caller: string): CallerInfo
  {
    CallerInfo(caller, map[], map[], map[], map[], 0, 0, 0)
  }

  /** The effect of one order of an extracted call. */
  function RecordOrder(info: CallerInfo, o: Order): CallerInfo
  {
    info.(orderCount := info.orderCount + 1,
          feeRecipients := Bump(info.feeRecipients, o.feeRecipientAddress),
          makers := Bump(info.makers, o.makerAddress))
  }

  /** The orders, taken in turn. */
  function RecordOrders(info: CallerInfo, orders: seq<Order>): CallerInfo
  {
    if |orders| == 0 then info
    else RecordOrder(RecordOrders(info, orders[..|orders| - 1]), orders[|orders| - 1])
  }

  /** The effect of one extracted call. */
  function RecordCall(info: CallerInfo, c: Call): CallerInfo
  {
    var i := RecordOrders(info, c.orders);
    i.(fillCount := i.fillCount + c.fills,
       updateCount := i.updateCount + c.updates,
       methods := Bump(i.methods, c.id))
  }

  /** The extracted calls, taken in turn. */
  function RecordCalls(info: CallerInfo, calls: seq<Call>): CallerInfo
  {
    if |calls| == 0 then info
    else RecordCall(RecordCalls(info, calls[..|calls| - 1]), calls[|calls| - 1])
  }

  /** Number of orders over a list of calls. */
  function OrderTotal(calls: seq<Call>): nat
  {
    if |calls| == 0 then 0 else OrderTotal(calls[..|calls| - 1]) + |calls[|calls| - 1].orders|
  }

  function FillTotal(calls: seq<Call>): nat
  {
    if |calls| == 0 then 0 else FillTotal(calls[..|calls| - 1]) + calls[|calls| - 1].fills
  }

  function UpdateTotal(calls: seq<Call>): nat
  {
    if |calls| == 0 then 0 else UpdateTotal(calls[..|calls| - 1]) + calls[|calls| - 1].updates
  }

  /** Number of calls with the given id. */
  function IdCount(calls: seq<Call>, id: string): nat
  {
    if |calls| == 0 then 0
    else IdCount(calls[..|calls| - 1], id) + (if calls[|calls| - 1].id == id then 1 else 0)
  }

  /** Number of orders naming the address as fee recipient. */
  function FeeRecipientCount(orders: seq<Order>, a: string): nat
  {
    if |orders| == 0 then 0
    else
      var last := orders[|orders| - 1];
      FeeRecipientCount(orders[..|orders| - 1], a) + (if last.feeRecipientAddress == a then 1 else 0)
  }

  /** Number of orders naming the address as maker. */
  function MakerCount(orders: seq<Order>, a: string): nat
  {
    if |orders| == 0 then 0
    else
      var last := orders[|orders| - 1];
      MakerCount(orders[..|orders| - 1], a) + (if last.makerAddress == a then 1 else 0)
  }

  /** Number of orders, over a list of calls, naming the address as fee recipient. */
  function FeeRecipientTotal(calls: seq<Call>, a: string): nat
  {
    if |calls| == 0 then 0
    else FeeRecipientTotal(calls[..|calls| - 1], a) + FeeRecipientCount(calls[|calls| - 1].orders, a)
  }

  /** Number of orders, over a list of calls, naming the address as maker. */
  function MakerTotal(calls: seq<Call>, a: string): nat
  {
    if |calls| == 0 then 0
    else MakerTotal(calls[..|calls| - 1], a) + MakerCount(calls[|calls| - 1].orders, a)
  }

  /** `(m[k] || 0)`. */
  function CountOf(m: map<string, nat>, k: string): nat
  {
    if k in m then m[k] else 0
  }

  /**
   * Recording orders adds one to the order count per order and one to each
   * fee-recipient and maker entry per order naming it; nothing else changes.
   */
  lemma {:induction false} RecordOrdersEffect(info: CallerInfo, orders: seq<Order>)
    ensures var r := RecordOrders(info, orders);
      && r.orderCount == info.orderCount + |orders|
      && (forall a :: CountOf(r.feeRecipients, a) == CountOf(info.feeRecipients, a) + FeeRecipientCount(orders, a))
      && (forall a :: CountOf(r.makers, a) == CountOf(info.makers, a) + MakerCount(orders, a))
      && r.caller == info.caller && r.senders == info.senders && r.methods == info.methods
      && r.fillCount == info.fillCount && r.updateCount == info.updateCount
  {
    if |orders| > 0 {
      RecordOrdersEffect(info, orders[..|orders| - 1]);
    }
  }

  /** The method ids of a list of calls. */
  function Ids(calls: seq<Call>): (r: set<string>)
    ensures forall id :: id in r <==> exists i :: 0 <= i < |calls| && calls[i].id == id
  {
    set c | c in calls :: c.id
  }

  lemma IdsStep(calls: seq<Call>)
    requires |calls| > 0
    ensures Ids(calls) == Ids(calls[..|calls| - 1]) + {calls[|calls| - 1].id}
  {
    assert calls == calls[..|calls| - 1] + [calls[|calls| - 1]];
  }

  /** The effect of a single call on the record. */
  lemma RecordCallEffect(info: CallerInfo, c: Call)
    ensures var r := RecordCall(info, c);
      && r.orderCount == info.orderCount + |c.orders|
      && r.fillCount == info.fillCount + c.fills
      && r.updateCount == info.updateCount + c.updates
      && (forall id :: CountOf(r.methods, id) == CountOf(info.methods, id) + (if c.id == id then 1 else 0))
      && r.methods.Keys == info.methods.Keys + {c.id}
      && (forall a :: CountOf(r.feeRecipients, a) == CountOf(info.feeRecipients, a) + FeeRecipientCount(c.orders, a))
      && (forall a :: CountOf(r.makers, a) == CountOf(info.makers, a) + MakerCount(c.orders, a))
      && r.caller == info.caller && r.senders == info.senders
  {
    RecordOrdersEffect(info, c.orders);
  }

  /**
   * Recording calls adds one to a method's count per call with that id, the
   * calls' orders to the order count, and their fills and updates to the
   * fill and update counts, and one to an address's fee-recipient and
   * maker counts per order naming it; callers and senders stay as they were.
   */
  lemma {:induction false} RecordCallsEffect(info: CallerInfo, calls: seq<Call>)
    ensures var r := RecordCalls(info, calls);
      && r.orderCount == info.orderCount + OrderTotal(calls)
      && r.fillCount == info.fillCount + FillTotal(calls)
      && r.updateCount == info.updateCount + UpdateTotal(calls)
      && (forall id :: CountOf(r.methods, id) == CountOf(info.methods, id) + IdCount(calls, id))
      && r.methods.Keys == info.methods.Keys + Ids(calls)
      && (forall a :: CountOf(r.feeRecipients, a) == CountOf(info.feeRecipients, a) + FeeRecipientTotal(calls, a))
      && (forall a :: CountOf(r.makers, a) == CountOf(info.makers, a) + MakerTotal(calls, a))
      && r.caller == info.caller && r.senders == info.senders
  {
    if |calls| > 0 {
      var init := calls[..|calls| - 1];
      RecordCallsEffect(info, init);
      RecordCallEffect(RecordCalls(info, init), calls[|calls| - 1]);
      IdsStep(calls);
    }
  }

  /** Each recorded call adds exactly one to the record's total number of method calls. */
  lemma {:induction false} RecordCallsTotal(info: CallerInfo, calls: seq<Call>)
    ensures Total(RecordCalls(info, calls).methods) == Total(info.methods) + |calls|
  {
    if |calls| > 0 {
      var init := calls[..|calls| - 1];
      RecordCallsTotal(info, init);
      var i := RecordOrders(RecordCalls(info, init), calls[|calls| - 1].orders);
      RecordOrdersEffect(RecordCalls(info, init), calls[|calls| - 1].orders);
      TotalBump(i.methods, calls[|calls| - 1].id);
    }
  }

  /** Every count in the record's tables is at least one. */
  ghost predicate PositiveCounts(info: CallerInfo)
  {
    && (forall a :: a in info.senders ==> info.senders[a] >= 1)
    && (forall k :: k in info.methods ==> info.methods[k] >= 1)
    && (forall a :: a in info.feeRecipients ==> info.feeRecipients[a] >= 1)
    && (forall a :: a in info.makers ==> info.makers[a] >= 1)
  }

  lemma {:induction false} RecordCallsPositive(info: CallerInfo, calls: seq<Call>)
    requires PositiveCounts(info)
    ensures PositiveCounts(RecordCalls(info, calls))
  {
    if |calls| > 0 {
      var init := calls[..|calls| - 1];
      RecordCallsPositive(info, init);
      RecordOrdersPositive(RecordCalls(info, init), calls[|calls| - 1].orders);
    }
  }

  lemma {:induction false} RecordOrdersPositive(info: CallerInfo, orders: seq<Order>)
    requires PositiveCounts(info)
    ensures PositiveCounts(RecordOrders(info, orders))
  {
    if |orders| > 0 {
      RecordOrdersPositive(info, orders[..|orders| - 1]);
    }
  }

  /** What a line does once it is accepted: count the sender, then the extracted calls. */
  function SenderCounted(info: CallerInfo, caller: string, fromAddress: string): (r: CallerInfo)
    ensures r.senders == Bump(info.senders, fromAddress)
    ensures r.caller == caller
    ensures r.methods == info.methods && r.makers == info.makers && r.feeRecipients == info.feeRecipients
    ensures r.orderCount == info.orderCount && r.fillCount == info.fillCount && r.updateCount == info.updateCount
  {
    info.(caller := caller, senders := Bump(info.senders, fromAddress))
  }

  /** Every record is filed under its own caller and holds only positive counts. */
  ghost predicate ValidTable(callers: map<string, CallerInfo>)
  {
    forall a :: a in callers ==> callers[a].caller == a && PositiveCounts(callers[a])
  }

  /** Every record has seen at least one call. */
  ghost predicate CompleteTable(callers: map<string, CallerInfo>)
  {
    forall a :: a in callers ==> |callers[a].methods| > 0
  }

  lemma UpdateTable(callers: map<string, CallerInfo>, a: string, info: CallerInfo)
    requires ValidTable(callers) && info.caller == a && PositiveCounts(info)
    ensures ValidTable(callers[a := info])
    ensures CompleteTable(callers) && |info.methods| > 0 ==> CompleteTable(callers[a := info])
  {
  }

  lemma UpdateTwice(m: map<string, CallerInfo>, a: string, x: CallerInfo, y: CallerInfo)
    ensures m[a := x][a := y] == m[a := y]
  {
  }

  /** Counting the sender keeps the record's counts positive. */
  lemma SenderCountedPositive(info: CallerInfo, caller: string, fromAddress: string)
    requires PositiveCounts(info)
    ensures PositiveCounts(SenderCounted(info, caller, fromAddress))
  {
  }

  /** Recording at least one call leaves the record with a method count. */
  lemma RecordCallsNonEmpty(info: CallerInfo, calls: seq<Call>)
    requires |calls| > 0
    ensures |RecordCalls(info, calls).methods| > 0
  {
    RecordCallsEffect(info, calls);
    assert calls[0].id in RecordCalls(info, calls).methods;
  }

  /** The outcome of one line. */
  datatype LineOutcome = Skipped | Recorded(calls: seq<Call>) | Failed(error: CallError)

  /**
   * The `callers` table of the line handler, with the running call and order
   * counters it reports on stdout.
   */
  class CallerTable {
    var callers: map<string, CallerInfo>
    var callCount: nat
    var orderCount: nat

    ghost predicate Valid()
      reads this
    {
      ValidTable(callers)
    }

    ghost predicate Complete()
      reads this
    {
      CompleteTable(callers)
    }

    constructor ()
      ensures callers == map[] && callCount == 0 && orderCount == 0
      ensures Valid() && Complete()
    {
      callers := map[];
      callCount := 0;
      orderCount := 0;
    }

    /** The record a caller has now, or a new one. */
    function Current(caller: string): CallerInfo
      reads this
    {
      if caller in callers then callers[caller] else NewCallerInfo(caller)
    }

    /** The extracted calls of one line, in order. */
    method RecordCallsFor(caller: string, calls: seq<Call>)
      requires caller in callers
      modifies this
      ensures callers == old(callers)[caller := RecordCalls(old(callers)[caller], calls)]
      ensures callCount == old(callCount) + |calls|
      ensures orderCount == old(orderCount) + OrderTotal(calls)
    {
      ghost var start := callers[caller];
      var i := 0;
      while i < |calls|
        invariant 0 <= i <= |calls|
        invariant callers == old(callers)[caller := RecordCalls(start, calls[..i])]
        invariant callCount == old(callCount) + i
        invariant orderCount == old(orderCount) + OrderTotal(calls[..i])
      {
        RecordCallFor(caller, calls[i]);
        assert calls[..i + 1][..i] == calls[..i];
        i := i + 1;
      }
      assert calls[..i] == calls;
    }

    /** One extracted call: its orders, then its fills, updates and method count. */
    method RecordCallFor(caller: string, call: Call)
      requires caller in callers
      modifies this
      ensures callers == old(callers)[caller := RecordCall(old(callers)[caller], call)]
      ensures callCount == old(callCount) + 1
      ensures orderCount == old(orderCount) + |call.orders|
    {
      RecordOrdersFor(caller, call.orders);
      var info := callers[caller];
      info := info.(fillCount := info.fillCount + call.fills);
      info := info.(updateCount := info.updateCount + call.updates);
      info := info.(methods := Bump(info.methods, call.id));
      callers := callers[caller := info];
      callCount := callCount + 1;
    }

    /** The orders of one call, each counted with its fee recipient and maker. */
    method RecordOrdersFor(caller: string, orders: seq<Order>)
      requires caller in callers
      modifies this
      ensures callers == old(callers)[caller := RecordOrders(old(callers)[caller], orders)]
      ensures callCount == old(callCount)
      ensures orderCount == old(orderCount) + |orders|
    {
      ghost var before := callers[caller];
      var j := 0;
      while j < |orders|
        invariant 0 <= j <= |orders|
        invariant callers == old(callers)[caller := RecordOrders(before, orders[..j])]
        invariant callCount == old(callCount)
        invariant orderCount == old(orderCount) + j
      {
        var order := orders[j];
        var info := callers[caller];
        orderCount := orderCount + 1;
        info := info.(orderCount := info.orderCount + 1);
        info := info.(feeRecipients := Bump(info.feeRecipients, order.feeRecipientAddress));
        info := info.(makers := Bump(info.makers, order.makerAddress));
        callers := callers[caller := info];
        assert orders[..j + 1][..j] == orders[..j];
        j := j + 1;
      }
      assert orders[..j] == orders;
    }

    /**
     * The `'line'` handler. A line outside the time window is skipped. An
     * accepted line counts its sender under the attributed caller; when the
     * call data decodes, every extracted call is recorded, and when it does
     * not, the error is returned with the sender already counted (the source
     * throws at that point).
     */
    method HandleLine(raw: RawCall, dec: CallDecoder, since: real, until: real) returns (outcome: LineOutcome)
      requires Shrinks(dec.decode)
      requires Valid()
      modifies this
      ensures !InWindow(raw, since, until) ==>
        outcome == Skipped && callers == old(callers)
        && callCount == old(callCount) && orderCount == old(orderCount)
      ensures InWindow(raw, since, until) ==>
        var caller := CallerOf(raw);
        var counted := SenderCounted(old(Current(caller)), caller, raw.fromAddress);
        match ExtractCalls(dec, raw.callData, raw.callType)
        case Err(e) =>
          && outcome == Failed(e)
          && callers == old(callers)[caller := counted]
          && callCount == old(callCount) && orderCount == old(orderCount)
        case Ok(calls) =>
          && outcome == Recorded(calls)
          && callers == old(callers)[caller := RecordCalls(counted, calls)]
          && callCount == old(callCount) + |calls|
          && orderCount == old(orderCount) + OrderTotal(calls)
      ensures Valid()
      ensures outcome.Recorded? && old(Complete()) ==> Complete()
    {
      if raw.timestamp < since || raw.timestamp > until {
        return Skipped;
      }
      var caller := CallerOf(raw);
      var info := Current(caller);
      assert PositiveCounts(info);
      info := info.(caller := caller);
      info := info.(senders := Bump(info.senders, raw.fromAddress));
      SenderCountedPositive(old(Current(caller)), caller, raw.fromAddress);
      UpdateTable(callers, caller, info);
      callers := callers[caller := info];
      var extracted := ExtractCalls(dec, raw.callData, raw.callType);
      if extracted.Err? {
        return Failed(extracted.error);
      }
      var calls := extracted.value;
      ghost var recorded := RecordCalls(info, calls);
      ghost var counted := callers;
      RecordCallsFor(caller, calls);
      assert callers == counted[caller := recorded];
      UpdateTwice(old(callers), caller, info, recorded);
      RecordCallsEffect(info, calls);
      RecordCallsPositive(info, calls);
      RecordCallsNonEmpty(info, calls);
      UpdateTable(old(callers), caller, recorded);
      return Recorded(calls);
    }
  }
}
