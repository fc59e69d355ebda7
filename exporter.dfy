/**
 * The poll loop `fetch_metrics`: each tick queries `eth_blockNumber`,
 * `eth_gasPrice` and `eth_syncing` in that order and writes the gauges
 * `hyperliquid_block_number`, `hyperliquid_gas_price`, `hyperliquid_syncing`,
 * `hyperliquid_rpc_up` and the counter `hyperliquid_rpc_errors_total`.
 *
 * The specification is a pure transition on a `Gauges` value (`TickSpec`,
 * folded over a sequence of ticks by `RunSpec`); the class `Metrics` holds
 * the five values as fields and its methods `JsonRpcCall`, `Tick` and `Run`
 * update them in place and are proved against that specification.
 */
module Exporter {
  import opened Wrappers
  import opened Json
  import opened Hex
  import opened JsonRpc

  /** The current values of the five metrics. */
  datatype Gauges = Gauges(blockNumber: nat, gasPrice: nat, syncing: nat, rpcUp: nat, errorsTotal: nat)

  /** Every metric starts at zero when the process starts. */
  const Initial := Gauges(0, 0, 0, 0, 0)

  /** The two 0/1 gauges hold 0 or 1. */
  predicate WellFormed(g: Gauges) {
    g.syncing <= 1 && g.rpcUp <= 1
  }

  /** The methods a tick calls, in the order it calls them. */
  const MethodNames: seq<string> := ["eth_blockNumber", "eth_gasPrice", "eth_syncing"]

  const BlockRequest := Envelope(MethodNames[0], [])
  const GasRequest := Envelope(MethodNames[1], [])
  const SyncRequest := Envelope(MethodNames[2], [])

  /** The three requests of a tick, in the order they are made. */
  const TickRequests := [BlockRequest, GasRequest, SyncRequest]

  /** The replies the node gives to the three requests of one tick. */
  datatype TickReplies = TickReplies(block: Reply, gas: Reply, sync: Reply)

  /** The metrics after a tick, and the requests it posted. */
  datatype TickResult = TickResult(after: Gauges, sent: seq<JsonValue>)

  /** `int(x, 16)` applied to whatever the call returned: only a string can
      be decoded; any other value raises `TypeError`. */
  function IntBase16(v: JsonValue): (r: Option<nat>)
    ensures r.Some? ==> v.JString? && ParseHex(v.s) == r
  {
    if v.JString? then ParseHex(v.s) else None
  }

  /** True when the sub-step for `v` would raise: the value is truthy, so
      the code calls `int(v, 16)`, and that call fails. */
  predicate Raises(v: JsonValue) {
    Truthy(v) && IntBase16(v).None?
  }

  /** The effect of `json_rpc_call` on the counter. */
  function Count(g: Gauges, o: Outcome): Gauges {
    if o.Failed? then g.(errorsTotal := g.errorsTotal + 1) else g
  }

  /** A sub-step either lets the tick go on, or raises inside the `try`
      block; either way it carries the metrics as they stand at that point. */
  datatype Step = Continue(g: Gauges) | Abort(g: Gauges)

  /** Block-number sub-step: a truthy reply is decoded into the gauge and marks
      the endpoint up; a falsy one (including a failed call) marks it down. */
  function BlockStep(g: Gauges, reply: Reply): Step {
    var o := Classify(reply);
    var g1 := Count(g, o);
    var v := ResultValue(o);
    if !Truthy(v) then Continue(g1.(rpcUp := 0))
    else match IntBase16(v)
      case None => Abort(g1)
      case Some(n) => Continue(g1.(blockNumber := n, rpcUp := 1))
  }

  /** Gas-price sub-step: a truthy reply is decoded into the gauge; nothing
      else changes, the endpoint's up gauge included. */
  function GasStep(g: Gauges, reply: Reply): Step {
    var o := Classify(reply);
    var g1 := Count(g, o);
    var v := ResultValue(o);
    if !Truthy(v) then Continue(g1)
    else match IntBase16(v)
      case None => Abort(g1)
      case Some(n) => Continue(g1.(gasPrice := n))
  }

  /** Sync sub-step: exactly `false` clears the gauge, any truthy value sets
      it, anything else leaves it as it was. It never raises. */
  function SyncStep(g: Gauges, reply: Reply): Gauges {
    var o := Classify(reply);
    var g1 := Count(g, o);
    var v := ResultValue(o);
    if IsFalse(v) then g1.(syncing := 0)
    else if Truthy(v) then g1.(syncing := 1)
    else g1
  }

  /** One iteration of the loop body. A sub-step that raises ends the tick:
      the handler sets the up gauge to 0 and the later requests are not made. */
  function TickSpec(g: Gauges, t: TickReplies): TickResult {
    match BlockStep(g, t.block)
    case Abort(g1) => TickResult(g1.(rpcUp := 0), TickRequests[..1])
    case Continue(g1) =>
      match GasStep(g1, t.gas)
      case Abort(g2) => TickResult(g2.(rpcUp := 0), TickRequests[..2])
      case Continue(g2) => TickResult(SyncStep(g2, t.sync), TickRequests)
  }

  /** The loop run over a finite sequence of ticks; `sent` lists every
      request in the order it was posted. */
  function RunSpec(g: Gauges, ticks: seq<TickReplies>): TickResult
    decreases |ticks|
  {
    if ticks == [] then TickResult(g, [])
    else
      var before := RunSpec(g, ticks[..|ticks| - 1]);
      var last := TickSpec(before.after, ticks[|ticks| - 1]);
      TickResult(last.after, before.sent + last.sent)
  }

  // ---------------------------------------------------------------------
  // What a tick does, stated per sub-step.

  /** The value each call of the tick hands back to the loop. */
  function BlockValue(t: TickReplies): JsonValue { ResultValue(Classify(t.block)) }
  function GasValue(t: TickReplies): JsonValue { ResultValue(Classify(t.gas)) }
  function SyncValue(t: TickReplies): JsonValue { ResultValue(Classify(t.sync)) }

  /** How many of the three requests a tick makes; it depends on the replies
      only, never on the metrics. */
  function CallsMade(t: TickReplies): (k: nat)
    ensures 1 <= k <= 3
    ensures k == 1 <==> Raises(BlockValue(t))
    ensures k == 3 <==> !Raises(BlockValue(t)) && !Raises(GasValue(t))
  {
    if Raises(BlockValue(t)) then 1 else if Raises(GasValue(t)) then 2 else 3
  }

  /** The number of replies `json_rpc_call` counts as errors. */
  function FailedCalls(replies: seq<Reply>): (k: nat)
    ensures k <= |replies|
    ensures k == 0 <==> forall i :: 0 <= i < |replies| ==> Classify(replies[i]).Returned?
  {
    if replies == [] then 0
    else FailedCalls(replies[..|replies| - 1]) + (if Classify(replies[|replies| - 1]).Failed? then 1 else 0)
  }

  /** The errors a tick counts: one per call actually made whose reply failed. */
  function TickFailures(t: TickReplies): nat {
    FailedCalls([t.block, t.gas, t.sync][..CallsMade(t)])
  }

  /** The requests go out in the order block number, gas price, syncing, each
      a JSON-RPC 2.0 request with no parameters and id 1; a tick stops
      making them at the sub-step that raises. */
  lemma TickRequestOrder(g: Gauges, t: TickReplies)
    ensures var r := TickSpec(g, t);
      |r.sent| == CallsMade(t) && r.sent == TickRequests[..|r.sent|] &&
      forall i :: 0 <= i < |r.sent| ==>
        Lookup(r.sent[i].members, "jsonrpc") == Some(JString("2.0")) &&
        Lookup(r.sent[i].members, "method") == Some(JString(MethodNames[i])) &&
        Lookup(r.sent[i].members, "params") == Some(JArray([])) &&
        Lookup(r.sent[i].members, "id") == Some(JNumber(1.0))
  {
    var r := TickSpec(g, t);
    forall i | 0 <= i < |r.sent|
      ensures Lookup(r.sent[i].members, "jsonrpc") == Some(JString("2.0")) &&
              Lookup(r.sent[i].members, "method") == Some(JString(MethodNames[i])) &&
              Lookup(r.sent[i].members, "params") == Some(JArray([])) &&
              Lookup(r.sent[i].members, "id") == Some(JNumber(1.0))
    {
      EnvelopeFields(MethodNames[i], []);
    }
  }

  /** A truthy block result that decodes to `n` sets the block-number gauge to
      `n` and marks the endpoint up; the tick then goes on to the gas price,
      and only a gas result that raises brings the up gauge back to 0. */
  lemma TickBlockDecoded(g: Gauges, t: TickReplies, n: nat)
    requires Truthy(BlockValue(t)) && IntBase16(BlockValue(t)) == Some(n)
    ensures var r := TickSpec(g, t);
      r.after.blockNumber == n && |r.sent| >= 2 &&
      r.after.rpcUp == (if Raises(GasValue(t)) then 0 else 1)
  {
  }

  /** A failed or falsy block result (`null`, `""`, `0`, `false`, `{}`, `[]`)
      leaves the block-number gauge alone and marks the endpoint down; the
      gas and sync sub-steps still run. */
  lemma TickBlockFalsy(g: Gauges, t: TickReplies)
    requires !Truthy(BlockValue(t))
    ensures var r := TickSpec(g, t);
      r.after.blockNumber == g.blockNumber && r.after.rpcUp == 0 && |r.sent| >= 2 &&
      (Raises(GasValue(t)) || r.sent == TickRequests)
  {
  }

  /** A failed call to `eth_blockNumber` is counted and marks the endpoint down. */
  lemma TickBlockFailed(g: Gauges, t: TickReplies)
    requires Classify(t.block).Failed?
    ensures var r := TickSpec(g, t);
      r.after.rpcUp == 0 && r.after.blockNumber == g.blockNumber &&
      r.after.errorsTotal >= g.errorsTotal + 1
  {
  }

  /** Once the gas sub-step is reached: a failed or falsy gas result keeps the
      previous gas price, a truthy one that decodes to `n` sets it to `n`;
      either way the up gauge is the one the block sub-step left. */
  lemma TickGasPrice(g: Gauges, t: TickReplies)
    requires !Raises(BlockValue(t)) && !Raises(GasValue(t))
    ensures var r := TickSpec(g, t);
      r.sent == TickRequests &&
      r.after.gasPrice == (if Truthy(GasValue(t)) then IntBase16(GasValue(t)).value else g.gasPrice) &&
      r.after.rpcUp == (if Truthy(BlockValue(t)) then 1 else 0)
  {
  }

  /** The sync sub-step, once reached: exactly `false` clears the gauge, any
      truthy value sets it, and a failure, `null` or any other falsy value
      (`0`, `""`, `{}`, `[]`) leaves it as it was. */
  lemma TickSyncing(g: Gauges, t: TickReplies)
    requires !Raises(BlockValue(t)) && !Raises(GasValue(t))
    ensures var r := TickSpec(g, t);
      (IsFalse(SyncValue(t)) ==> r.after.syncing == 0) &&
      (Truthy(SyncValue(t)) ==> r.after.syncing == 1) &&
      (!IsFalse(SyncValue(t)) && !Truthy(SyncValue(t)) ==> r.after.syncing == g.syncing) &&
      (Classify(t.sync).Failed? ==> r.after.syncing == g.syncing)
  {
  }

  /** A block result that cannot be decoded ends the tick at once: only the
      block request was made, the up gauge is 0, and nothing else changed;
      the decode failure itself is not counted as an error. */
  lemma TickBlockRaises(g: Gauges, t: TickReplies)
    requires Raises(BlockValue(t))
    ensures TickSpec(g, t) == TickResult(g.(rpcUp := 0), [BlockRequest])
  {
  }

  /** A gas result that cannot be decoded ends the tick before `eth_syncing`:
      the block-number gauge keeps what this tick wrote, gas price and
      syncing keep their old values, the up gauge is 0, and only a failed
      block call was counted. */
  lemma TickGasRaises(g: Gauges, t: TickReplies)
    requires !Raises(BlockValue(t)) && Raises(GasValue(t))
    ensures var r := TickSpec(g, t);
      r.sent == [BlockRequest, GasRequest] &&
      r.after == g.(blockNumber := if Truthy(BlockValue(t)) then IntBase16(BlockValue(t)).value else g.blockNumber,
                    rpcUp := 0,
                    errorsTotal := g.errorsTotal + if Classify(t.block).Failed? then 1 else 0)
  {
  }

  /** After a tick the endpoint is up exactly when the block result was
      truthy and decoded and the gas result did not raise. */
  lemma TickRpcUp(g: Gauges, t: TickReplies)
    ensures var r := TickSpec(g, t);
      r.after.rpcUp <= 1 &&
      (r.after.rpcUp == 1 <==> Truthy(BlockValue(t)) && IntBase16(BlockValue(t)).Some? && !Raises(GasValue(t)))
  {
  }

  /** The counter grows by exactly the number of calls made in the tick
      whose reply failed, and by nothing else. */
  lemma TickErrors(g: Gauges, t: TickReplies)
    ensures TickSpec(g, t).after.errorsTotal == g.errorsTotal + TickFailures(t)
  {
    var rs := [t.block, t.gas, t.sync];
    assert rs[..1][..0] == [];
    assert rs[..2][..1] == rs[..1];
    assert rs[..3] == rs && rs[..2] == rs[..3][..2];
    var f1 := if Classify(t.block).Failed? then 1 else 0;
    var f2 := if Classify(t.gas).Failed? then 1 else 0;
    var f3 := if Classify(t.sync).Failed? then 1 else 0;
    assert FailedCalls(rs[..1]) == f1;
    assert FailedCalls(rs[..2]) == f1 + f2;
    assert FailedCalls(rs[..3]) == f1 + f2 + f3;
  }

  /** The 0/1 gauges stay 0 or 1. */
  lemma TickWellFormed(g: Gauges, t: TickReplies)
    requires WellFormed(g)
    ensures WellFormed(TickSpec(g, t).after)
  {
  }

  /** A healthy node: `"0x10"`, `"0x3b9aca00"` and `false`. */
  lemma HealthyTick(g: Gauges, id: JsonValue)
    ensures TickSpec(g, TickReplies(Body(SuccessResponse(id, JString("0x10"))),
                                    Body(SuccessResponse(id, JString("0x3b9aca00"))),
                                    Body(SuccessResponse(id, JBool(false)))))
         == TickResult(g.(blockNumber := 16, gasPrice := 1000000000, syncing := 0, rpcUp := 1), TickRequests)
  {
    ClassifySuccess(id, JString("0x10"));
    ClassifySuccess(id, JString("0x3b9aca00"));
    ClassifySuccess(id, JBool(false));
    ParseHexExamples();
  }

  /** An unreachable node: three counted failures, the endpoint marked down,
      every other gauge as it was. */
  lemma UnreachableTick(g: Gauges)
    ensures TickSpec(g, TickReplies(TransportError, TransportError, TransportError))
         == TickResult(g.(rpcUp := 0, errorsTotal := g.errorsTotal + 3), TickRequests)
  {
  }

  // ---------------------------------------------------------------------
  // What the loop does over many ticks.

  /** The last value `observe` yields over `ticks`, or `init` if none. */
  function Latest(init: nat, ticks: seq<TickReplies>, observe: TickReplies -> Option<nat>): nat {
    if ticks == [] then init
    else match observe(ticks[|ticks| - 1])
      case Some(n) => n
      case None => Latest(init, ticks[..|ticks| - 1], observe)
  }

  /** The block number a tick writes, if it writes one. */
  function BlockObserved(t: TickReplies): Option<nat> {
    if Truthy(BlockValue(t)) then IntBase16(BlockValue(t)) else None
  }

  /** The gas price a tick writes, if it reaches the gas sub-step and writes one. */
  function GasObserved(t: TickReplies): Option<nat> {
    if !Raises(BlockValue(t)) && Truthy(GasValue(t)) then IntBase16(GasValue(t)) else None
  }

  /** The syncing flag a tick writes, if it reaches the sync sub-step and writes one. */
  function SyncObserved(t: TickReplies): Option<nat> {
    if Raises(BlockValue(t)) || Raises(GasValue(t)) then None
    else if IsFalse(SyncValue(t)) then Some(0)
    else if Truthy(SyncValue(t)) then Some(1)
    else None
  }

  /** Errors counted over a run. */
  function RunFailures(ticks: seq<TickReplies>): nat {
    if ticks == [] then 0 else RunFailures(ticks[..|ticks| - 1]) + TickFailures(ticks[|ticks| - 1])
  }

  /** Each gauge holds the most recent value observed for it, or its value
      before the run when none was observed: a failed or unusable reply never
      resets it. */
  lemma {:induction false} RunBlockNumberIsLatest(g: Gauges, ticks: seq<TickReplies>)
    ensures RunSpec(g, ticks).after.blockNumber == Latest(g.blockNumber, ticks, BlockObserved)
  {
    if ticks != [] {
      RunBlockNumberIsLatest(g, ticks[..|ticks| - 1]);
    }
  }

  lemma {:induction false} RunGasPriceIsLatest(g: Gauges, ticks: seq<TickReplies>)
    ensures RunSpec(g, ticks).after.gasPrice == Latest(g.gasPrice, ticks, GasObserved)
  {
    if ticks != [] {
      RunGasPriceIsLatest(g, ticks[..|ticks| - 1]);
    }
  }

  lemma {:induction false} RunSyncingIsLatest(g: Gauges, ticks: seq<TickReplies>)
    ensures RunSpec(g, ticks).after.syncing == Latest(g.syncing, ticks, SyncObserved)
  {
    if ticks != [] {
      RunSyncingIsLatest(g, ticks[..|ticks| - 1]);
    }
  }

  /** The counter ends at its starting value plus one per failed call made
      during the run. */
  lemma {:induction false} RunErrors(g: Gauges, ticks: seq<TickReplies>)
    ensures RunSpec(g, ticks).after.errorsTotal == g.errorsTotal + RunFailures(ticks)
  {
    if ticks != [] {
      RunErrors(g, ticks[..|ticks| - 1]);
      TickErrors(RunSpec(g, ticks[..|ticks| - 1]).after, ticks[|ticks| - 1]);
    }
  }

  /** The counter never decreases: every prefix of a run ends with at most
      the count of the whole run. */
  lemma {:induction false} RunErrorsMonotone(g: Gauges, ticks: seq<TickReplies>, k: nat)
    requires k <= |ticks|
    ensures RunSpec(g, ticks[..k]).after.errorsTotal <= RunSpec(g, ticks).after.errorsTotal
  {
    if k < |ticks| {
      var prefix := ticks[..|ticks| - 1];
      assert ticks[..k] == prefix[..k];
      RunErrorsMonotone(g, prefix, k);
      TickErrors(RunSpec(g, prefix).after, ticks[|ticks| - 1]);
    } else {
      assert ticks[..k] == ticks;
    }
  }

  /** After a non-empty run the up gauge reflects the last tick alone. */
  lemma RunRpcUp(g: Gauges, ticks: seq<TickReplies>)
    requires ticks != []
    ensures var t := ticks[|ticks| - 1];
      RunSpec(g, ticks).after.rpcUp ==
        if Truthy(BlockValue(t)) && IntBase16(BlockValue(t)).Some? && !Raises(GasValue(t)) then 1 else 0
  {
    TickRpcUp(RunSpec(g, ticks[..|ticks| - 1]).after, ticks[|ticks| - 1]);
  }

  /** The 0/1 gauges stay 0 or 1 however long the loop runs. */
  lemma {:induction false} RunWellFormed(g: Gauges, ticks: seq<TickReplies>)
    requires WellFormed(g)
    ensures WellFormed(RunSpec(g, ticks).after)
  {
    if ticks != [] {
      RunWellFormed(g, ticks[..|ticks| - 1]);
      TickWellFormed(RunSpec(g, ticks[..|ticks| - 1]).after, ticks[|ticks| - 1]);
    }
  }

  // ---------------------------------------------------------------------
  // The metrics as mutable state.

  class Metrics {
    var blockNumber: nat
    var gasPrice: nat
    var syncing: nat
    var rpcUp: nat
    var errorsTotal: nat

    function Snapshot(): Gauges
      reads this
    {
      Gauges(blockNumber, gasPrice, syncing, rpcUp, errorsTotal)
    }

    /** The metrics are registered with value zero. */
    constructor ()
      ensures Snapshot() == Initial
    {
      blockNumber, gasPrice, syncing, rpcUp, errorsTotal := 0, 0, 0, 0, 0;
    }

    /** `json_rpc_call(client, name, params)`, given the reply the POST
        produced: it posts the request object, counts a failure exactly once
        and returns `None` (`JNull`) for it, or returns the reply's result. */
    method JsonRpcCall(name: string, params: seq<JsonValue>, reply: Reply)
      returns (request: JsonValue, result: JsonValue)
      modifies this`errorsTotal
      ensures request == Envelope(name, params)
      ensures result == ResultValue(Classify(reply))
      ensures errorsTotal == old(errorsTotal) + (if Classify(reply).Failed? then 1 else 0)
    {
      request := Envelope(name, params);
      var outcome := Classify(reply);
      if outcome.Failed? {
        errorsTotal := errorsTotal + 1;
        result := JNull;
      } else {
        result := outcome.v;
      }
    }

    /** One iteration of the `while True` body of `fetch_metrics`. */
    method Tick(block: Reply, gas: Reply, sync: Reply) returns (sent: seq<JsonValue>)
      modifies this
      ensures TickResult(Snapshot(), sent) == TickSpec(old(Snapshot()), TickReplies(block, gas, sync))
    {
      ghost var g0 := Snapshot();
      var request, blockHex := JsonRpcCall(MethodNames[0], [], block);
      sent := [request];
      assert sent == TickRequests[..1];
      if Truthy(blockHex) {
        var n := IntBase16(blockHex);
        if n.None? {
          rpcUp := 0;
          assert BlockStep(g0, block) == Abort(Snapshot().(rpcUp := old(rpcUp)));
          return;
        }
        blockNumber := n.value;
        rpcUp := 1;
      } else {
        rpcUp := 0;
      }
      ghost var g1 := Snapshot();
      assert BlockStep(g0, block) == Continue(g1);

      var gasHex;
      request, gasHex := JsonRpcCall(MethodNames[1], [], gas);
      sent := sent + [request];
      assert sent == TickRequests[..2];
      if Truthy(gasHex) {
        var n := IntBase16(gasHex);
        if n.None? {
          rpcUp := 0;
          assert GasStep(g1, gas) == Abort(Snapshot().(rpcUp := g1.rpcUp));
          return;
        }
        gasPrice := n.value;
      }
      ghost var g2 := Snapshot();
      assert GasStep(g1, gas) == Continue(g2);

      var syncStatus;
      request, syncStatus := JsonRpcCall(MethodNames[2], [], sync);
      sent := sent + [request];
      assert sent == TickRequests;
      if IsFalse(syncStatus) {
        syncing := 0;
      } else if Truthy(syncStatus) {
        syncing := 1;
      }
      assert SyncStep(g2, sync) == Snapshot();
    }

    /** The loop run for as many ticks as there are reply triples. */
    method Run(ticks: seq<TickReplies>) returns (sent: seq<JsonValue>)
      modifies this
      ensures TickResult(Snapshot(), sent) == RunSpec(old(Snapshot()), ticks)
    {
      sent := [];
      var i := 0;
      while i < |ticks|
        invariant 0 <= i <= |ticks|
        invariant TickResult(Snapshot(), sent) == RunSpec(old(Snapshot()), ticks[..i])
      {
        var t := ticks[i];
        var more := Tick(t.block, t.gas, t.sync);
        sent := sent + more;
        i := i + 1;
        assert ticks[..i][..i - 1] == ticks[..i - 1];
      }
      assert ticks[..i] == ticks;
    }
  }
}
