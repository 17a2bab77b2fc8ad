/**
  What a failed callback gets back: over every run a pending callback carries the terms
  of its registration, so at its height a failure is charged by the registered gas limit
  and refunds something only if the gas price fell in between.
 */
module Refunds {
  import opened Machine
  import opened Decimal
  import opened SudoErrorCodec
  import opened Store
  import opened CallbackModule
  import opened ErrorsModule
  import opened Chain
  import opened Invariants
  import opened Settlement
  import opened Delivery
  import opened Runs
  import opened Admission

  /** What was agreed when a callback was registered, and the gas price at that time. */
  datatype Terms = Terms(fees: FeeSplit, maxGas: nat, price: nat)

  /** The terms of the latest registration of a key in the log. */
  function LastTerms(events: seq<Event>, k: Key): (r: Option<Terms>) {
    if events == [] then None else
    var last := events[|events| - 1];
    if last.Registered? && last.key == k then Some(Terms(last.fees, last.maxGas, last.price))
    else LastTerms(events[..|events| - 1], k)
  }

  lemma TermsAppend(events: seq<Event>, e: Event, k: Key)
    ensures LastTerms(events + [e], k) ==
            if e.Registered? && e.key == k then Some(Terms(e.fees, e.maxGas, e.price)) else LastTerms(events, k)
  {
    assert (events + [e])[..|events|] == events;
  }

  /** The stored value is the one registered, and its transaction fee was the fee at that price. */
  predicate OnTerms(st: State, k: Key) {
    k in st.cb.pending ==>
      var t := LastTerms(st.events, k);
      && t.Some?
      && st.cb.pending[k].fees == t.value.fees && st.cb.pending[k].maxGas == t.value.maxGas
      && t.value.fees.transaction == TransactionFee(t.value.price, t.value.maxGas)
  }

  ghost predicate Priced(st: State) {
    forall k :: OnTerms(st, k)
  }

  // ---------------------------------------------------------------- what keeps it

  /** Entries may leave, and the log may grow by anything but a registration. */
  lemma PricedShrinks(st: State, next: State)
    requires Priced(st)
    requires forall k :: k in next.cb.pending ==> k in st.cb.pending && next.cb.pending[k] == st.cb.pending[k]
    requires LogsOne(st, next) && (next.events != st.events ==> !next.events[|st.events|].Registered?)
    ensures Priced(next)
  {
    forall k ensures OnTerms(next, k) {
      assert OnTerms(st, k);
      if next.events != st.events {
        TermsAppend(st.events, next.events[|st.events|], k);
      }
    }
  }

  lemma ReservePriced(env: Env, st: State, next: State, sender: Str, key: Key, fees: int)
    requires Priced(st) && Reserved(env, st, next, sender, key, fees)
    requires next.cb.pending[key].fees.transaction == TransactionFee(st.gasPrice, st.cb.params.gasLimit)
    ensures Priced(next)
  {
    hide Send, TransactionFee;
    forall k ensures OnTerms(next, k) {
      assert OnTerms(st, k);
      TermsAppend(st.events, next.events[|st.events|], k);
    }
  }

  lemma HandlePriced(env: Env, st: State, msg: Msg)
    requires Priced(st) && Handle(env, st, msg).Success?
    ensures Priced(Handle(env, st, msg).value)
  {
    hide Priced, EstimateFees, TransactionFee, Reserve;
    if msg.RequestCallback? {
      var key := Key(msg.height, env.decode(msg.contract).value, msg.job);
      ReservePriced(env, st, Handle(env, st, msg).value, msg.sender, key, msg.fees);
    } else {
      OneEvent(env, st, msg);
      hide Send, Refund, Controls, Admit;
      PricedShrinks(st, Handle(env, st, msg).value);
    }
  }

  lemma PayOutPriced(env: Env, st: State, c: Callback, gas: nat, ok: bool)
    requires Priced(st) && PayOut(env, st, c, gas, ok).Success?
    ensures Priced(PayOut(env, st, c, gas, ok).value)
  {
    hide ChargeFor, Refund, Send, Priced;
    PricedShrinks(st, PayOut(env, st, c, gas, ok).value);
  }

  lemma RunBlockPriced(env: Env, st: State, b: Block)
    requires EnvOk(env) && Priced(st) && RunBlock(env, st, b).Success?
    ensures Priced(RunBlock(env, st, b).value)
  {
    hide Handle, Execute, PayOut, RunBlock, BeforePruning, Priced, StoreError;
    forall s: State, m: Msg | Priced(s) && Handle(env, s, m).Success?
      ensures Priced(Handle(env, s, m).value)
    {
      HandlePriced(env, s, m);
    }
    forall s: State, c: Callback, gas: nat, ok: bool | Priced(s) && PayOut(env, s, c, gas, ok).Success?
      ensures Priced(PayOut(env, s, c, gas, ok).value)
    {
      PayOutPriced(env, s, c, gas, ok);
    }
    forall s: State, contract: Address, err: SudoError
      | Priced(s) && env.decode(err.contractAddress) == Some(contract)
      ensures Priced(StoreError(s, contract, err))
    {
      StoreErrorAdds(s, contract, err);
      PricedShrinks(s, StoreError(s, contract, err));
    }
    forall s: State, id: nat | Priced(s)
      ensures Priced(NoteDelivered(s, id))
    {
      PricedShrinks(s, NoteDelivered(s, id));
    }
    forall s: State, id: nat, record: nat | Priced(s)
      ensures Priced(NoteCarried(s, id, record))
    {
      PricedShrinks(s, NoteCarried(s, id, record));
    }
    BlockPreserves(env, st, b, (s: State) => Priced(s), Any);
    var s3 := BeforePruning(env, st, b).value;
    PruneFrame(env, s3);
    PricedShrinks(s3, NextHeight(Prune(env, s3)));
  }

  lemma {:induction false} RunBlocksPriced(env: Env, st: State, blocks: seq<Block>)
    requires EnvOk(env) && Priced(st) && RunBlocks(env, st, blocks).Success?
    ensures Priced(RunBlocks(env, st, blocks).value)
    decreases |blocks|
  {
    hide RunBlock, Priced;
    if blocks != [] {
      RunBlockPriced(env, st, blocks[0]);
      RunBlocksPriced(env, RunBlock(env, st, blocks[0]).value, blocks[1..]);
    }
  }

  lemma DeliverAllPriced(env: Env, st: State, txs: seq<seq<Msg>>)
    requires Priced(st)
    ensures Priced(DeliverAll(env, st, txs))
  {
    hide Handle, DeliverAll, Priced;
    forall s: State, m: Msg | Priced(s) && Handle(env, s, m).Success?
      ensures Priced(Handle(env, s, m).value)
    {
      HandlePriced(env, s, m);
    }
    DeliverAllKeeps(env, st, txs, (s: State) => Priced(s), Any);
  }

  // ---------------------------------------------------------------- a failed settlement

  /** One failed settlement refunds the registered transaction fee less the fee at today's price. */
  lemma FailedRefund(env: Env, st: State, k: Key, c: Callback, run: SudoRun, n: nat, price: nat)
    requires EnvOk(env) && Inv(env, st) && Short(env, st, n) && Filed(env, st.contracts, k, c)
    requires Settle(env, st, c, run).Success? && Execute(env, st, run, c.maxGas).problem.Some?
    requires c.fees.transaction == TransactionFee(price, c.maxGas)
    ensures var payee := env.decode(c.reservedBy).value;
            var fee := TransactionFee(st.gasPrice, c.maxGas);
            var next := Settle(env, st, c, run).value;
            && Balance(next.bank, payee) ==
               Balance(st.bank, payee) + (if fee < c.fees.transaction then c.fees.transaction - fee else 0)
            && Nearest(fee, st.gasPrice * AsInt64(c.maxGas))
            && (fee < c.fees.transaction ==> st.gasPrice < price)
  {
    hide Execute, Inv, Settle, TransactionFee, Short, Nearest;
    FeeIsNearest(st.gasPrice, c.maxGas);
    SettleSplits(env, st, k, c, run, n);
    PayStatePrice(env, st, k, c, run, n);
    SettleCompletes(env, st, k, c, run, n);
    ExecuteIs(env, st, run, c.maxGas);
    if st.gasPrice >= price {
      FeeFollowsPrice(price, st.gasPrice, c.maxGas);
    }
  }

  /** The state in which the walk of the callback EndBlocker reaches its entry `i`. */
  function AtEntry(env: Env, st: State, runs: Key -> SudoRun, i: nat): (r: Result<State>)
    requires EnvOk(env) && i <= |env.walk(KeysAt(st.cb.pending, st.height))|
  {
    var due := KeysAt(st.cb.pending, st.height);
    var keys := env.walk(due)[..i];
    assert Enumerates(env.walk(due), due);
    assert forall k :: k in keys ==> k in env.walk(due);
    SettleAll(env, st, keys, st.cb.pending, runs)
  }

  lemma WalkReaches(env: Env, st: State, runs: Key -> SudoRun, i: nat, n: nat)
    requires EnvOk(env) && Inv(env, st) && Short(env, st, n)
    requires i < |env.walk(KeysAt(st.cb.pending, st.height))| && AtEntry(env, st, runs, i).Success?
    ensures var k := env.walk(KeysAt(st.cb.pending, st.height))[i];
            var s := AtEntry(env, st, runs, i).value;
            && k in st.cb.pending && k.height == st.height
            && Filed(env, s.contracts, k, st.cb.pending[k])
            && Inv(env, s) && exists m: nat :: Short(env, s, m)
  {
    hide Execute, Settle, Shortfall, SettleAll, Short, Filed;
    var due := KeysAt(st.cb.pending, st.height);
    var keys := env.walk(due);
    assert Enumerates(keys, due);
    assert keys[i] in keys && forall k :: k in keys[..i] ==> k in keys;
    assert WalkOk(env, st, keys[..i], st.cb.pending) && Filed(env, st.contracts, keys[i], st.cb.pending[keys[i]]);
    hide Inv, WalkOk;
    SettleAllKeeps(env, st, keys[..i], st.cb.pending, runs, n);
    FiledLater(env, st.contracts, AtEntry(env, st, runs, i).value.contracts, keys[i], st.cb.pending[keys[i]]);
    assert Short(env, AtEntry(env, st, runs, i).value, n + Shortfall(env, st, keys[..i], st.cb.pending, runs));
  }

  lemma FiledLater(env: Env, a: map<Address, ContractInfo>, b: map<Address, ContractInfo>, k: Key, c: Callback)
    requires Filed(env, a, k, c) && a.Keys <= b.Keys
    ensures Filed(env, b, k, c)
  {
    assert k.contract in a.Keys;
  }

  /**
    The entry the walk reaches is the value of its latest registration. If its execution
    fails, its reserver gets back exactly what the registered transaction fee exceeds the
    fee of the registered gas limit at the current price, which is something only if that
    price is below the one at registration.
   */
  ghost predicate RefundsByTerms(env: Env, st: State, runs: Key -> SudoRun, i: nat)
    requires EnvOk(env) && i < |env.walk(KeysAt(st.cb.pending, st.height))| && AtEntry(env, st, runs, i).Success?
  {
    var k := env.walk(KeysAt(st.cb.pending, st.height))[i];
    var s := AtEntry(env, st, runs, i).value;
    && k in st.cb.pending && LastTerms(st.events, k).Some?
    && var c, t := st.cb.pending[k], LastTerms(st.events, k).value;
       var fee := TransactionFee(s.gasPrice, t.maxGas);
       var refund := t.fees.transaction - fee;
       && Nearest(fee, s.gasPrice * AsInt64(t.maxGas)) && Nearest(t.fees.transaction, t.price * AsInt64(t.maxGas))
       && env.decode(c.reservedBy).Some? && c.fees == t.fees && c.maxGas == t.maxGas
       && (Execute(env, s, runs(k), c.maxGas).problem.Some? && Settle(env, s, c, runs(k)).Success? ==>
             var payee := env.decode(c.reservedBy).value;
             && Balance(Settle(env, s, c, runs(k)).value.bank, payee) ==
                Balance(s.bank, payee) + (if refund > 0 then refund else 0)
             && (refund > 0 ==> s.gasPrice < t.price))
  }

  /** A pending callback's terms are those of its latest registration, at the fee of that time. */
  lemma TermsOf(st: State, k: Key)
    requires Priced(st) && k in st.cb.pending
    ensures LastTerms(st.events, k).Some?
    ensures var c, t := st.cb.pending[k], LastTerms(st.events, k).value;
            && c.fees == t.fees && c.maxGas == t.maxGas
            && c.fees.transaction == TransactionFee(t.price, c.maxGas)
            && Nearest(t.fees.transaction, t.price * AsInt64(t.maxGas))
  {
    hide TransactionFee, Nearest;
    assert OnTerms(st, k);
    var t := LastTerms(st.events, k).value;
    FeeIsNearest(t.price, t.maxGas);
  }

  lemma EntryRefunds(env: Env, st: State, runs: Key -> SudoRun, i: nat, n: nat)
    requires EnvOk(env) && Inv(env, st) && Short(env, st, n) && Priced(st)
    requires i < |env.walk(KeysAt(st.cb.pending, st.height))| && AtEntry(env, st, runs, i).Success?
    ensures RefundsByTerms(env, st, runs, i)
  {
    hide Inv, Priced, Execute, Settle, AtEntry, TransactionFee, Short, Nearest, LastTerms, EnvOk, KeysAt;
    WalkReaches(env, st, runs, i, n);
    var k := env.walk(KeysAt(st.cb.pending, st.height))[i];
    TermsOf(st, k);
    var s := AtEntry(env, st, runs, i).value;
    var m: nat :| Short(env, s, m);
    var c := st.cb.pending[k];
    FeeIsNearest(s.gasPrice, c.maxGas);
    if Execute(env, s, runs(k), c.maxGas).problem.Some? && Settle(env, s, c, runs(k)).Success? {
      FailedRefund(env, s, k, c, runs(k), m, LastTerms(st.events, k).value.price);
    }
  }

  /**
    Failed callbacks from genesis over every run, for arbitrary contracts, whatever gas
    limits and prices were in between: wherever the walk of a block has got to, the entry
    it reaches is refunded by the terms of its registration.
   */
  lemma FailureRefundsNothing(env: Env, st: State, blocks: seq<Block>, b: Block, i: nat)
    requires EnvOk(env) && Genesis(env, st) && st.height + |blocks| < TWO63
    requires RunBlocks(env, st, blocks).Success?
    requires var s1 := DeliverAll(env, RunBlocks(env, st, blocks).value, b.txs);
             && i < |env.walk(KeysAt(s1.cb.pending, s1.height))|
             && AtEntry(env, s1, b.callbackRuns, i).Success?
    ensures RefundsByTerms(env, DeliverAll(env, RunBlocks(env, st, blocks).value, b.txs), b.callbackRuns, i)
  {
    hide RunBlocks, DeliverAll, Inv, Priced, Genesis, AtEntry, RefundsByTerms, ErrorLogOk;
    var last := RunBlocks(env, st, blocks).value;
    GenesisIsSound(env, st);
    RunBlocksSound(env, st, blocks);
    GenesisPriced(env, st);
    RunBlocksPriced(env, st, blocks);
    DeliverAllPriced(env, last, b.txs);
    DeliverAllKeepsInv(env, last, b.txs);
    var n := Owed(last.cb.pending) - Balance(last.bank, env.callbackAccount);
    DeliverAllShort(env, last, b.txs, n);
    EntryRefunds(env, DeliverAll(env, last, b.txs), b.callbackRuns, i, n);
  }

  lemma GenesisPriced(env: Env, st: State)
    requires Genesis(env, st)
    ensures Priced(st)
  {
  }
}
