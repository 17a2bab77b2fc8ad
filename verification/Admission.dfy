/** Admission control of x/callback: reservation limits and the fee threshold. */
module Admission {
  import opened Machine
  import opened Decimal
  import opened SudoErrorCodec
  import opened Store
  import opened CallbackModule
  import opened ErrorsModule
  import opened Chain
  import opened Invariants
  import opened Delivery
  import opened Runs

  // ---------------------------------------------------------------- reservation limit

  /** No height holds more than `m` callbacks, nor does the current limit allow more. */
  ghost predicate Within(cb: CallbackStore, m: nat) {
    cb.params.maxBlock <= m && forall h: int :: |KeysAt(cb.pending, h)| <= m
  }

  /** The largest of `m` and the reservation limits that were set. */
  function Largest(events: seq<Event>, m: nat): (r: nat) {
    if events == [] then m else
    var last, before := events[|events| - 1], Largest(events[..|events| - 1], m);
    if last.LimitSet? && last.limit > before then last.limit else before
  }

  /** It is the least bound of all of them. */
  lemma {:induction false} LargestIsMax(events: seq<Event>, m: nat, bound: nat)
    ensures m <= Largest(events, m)
    ensures Largest(events, m) <= bound <==> m <= bound && forall e :: e in events && e.LimitSet? ==> e.limit <= bound
    decreases |events|
  {
    if events != [] {
      var last, init := events[|events| - 1], events[..|events| - 1];
      LargestIsMax(init, m, bound);
      assert forall e :: e in events <==> e in init || e == last;
    }
  }

  lemma LargestAppend(events: seq<Event>, e: Event, m: nat)
    ensures Largest(events + [e], m) ==
            var before := Largest(events, m);
            if e.LimitSet? && e.limit > before then e.limit else before
  {
    assert (events + [e])[..|events|] == events;
  }

  lemma FewerKeys(small: set<Key>, large: set<Key>)
    requires small <= large
    ensures |small| <= |large|
  {
    assert large == small + (large - small);
  }

  lemma RemoveWithin(cb: CallbackStore, k: Key, m: nat)
    requires Within(cb, m)
    ensures Within(cb.(pending := cb.pending - {k}), m)
  {
    forall h: int ensures |KeysAt(cb.pending - {k}, h)| <= m {
      FewerKeys(KeysAt(cb.pending - {k}, h), KeysAt(cb.pending, h));
    }
  }

  lemma ReserveWithin(env: Env, st: State, next: State, sender: Str, k: Key, fees: int, m: nat)
    requires Within(st.cb, m) && |KeysAt(st.cb.pending, k.height)| < st.cb.params.maxBlock
    requires Reserved(env, st, next, sender, k, fees)
    ensures Within(next.cb, m)
  {
    hide Send;
    forall h: int ensures |KeysAt(next.cb.pending, h)| <= m {
      if h == k.height {
        assert KeysAt(next.cb.pending, h) == KeysAt(st.cb.pending, h) + {k};
      } else {
        assert KeysAt(next.cb.pending, h) == KeysAt(st.cb.pending, h);
      }
    }
  }

  lemma HandleWithin(env: Env, st: State, msg: Msg, m: nat)
    requires Within(st.cb, m) && Handle(env, st, msg).Success?
    ensures var next := Handle(env, st, msg).value.cb;
            Within(next, if next.params.maxBlock > m then next.params.maxBlock else m)
  {
    assert st.cb.params.maxBlock <= m;
    hide Send, Controls, Refund, EstimateFees, Within, Reserve;
    var next := Handle(env, st, msg).value;
    if msg.RequestCallback? {
      var key := Key(msg.height, env.decode(msg.contract).value, msg.job);
      ReserveWithin(env, st, next, msg.sender, key, msg.fees, m);
    } else if msg.CancelCallback? {
      var key := RebuiltKey(env, st.cb.pending[Key(msg.height, env.decode(msg.contract).value, msg.job)]).value;
      RemoveWithin(st.cb, key, m);
    } else {
      SamePending(st.cb, next.cb, m);
    }
  }

  lemma SamePending(cb: CallbackStore, next: CallbackStore, m: nat)
    requires Within(cb, m) && next.pending == cb.pending
    ensures Within(next, if next.params.maxBlock > m then next.params.maxBlock else m)
  {
    assert forall h: int :: |KeysAt(next.pending, h)| <= m;
  }

  lemma PayOutWithin(env: Env, st: State, c: Callback, gas: nat, ok: bool, m: nat)
    requires Within(st.cb, m) && PayOut(env, st, c, gas, ok).Success?
    ensures Within(PayOut(env, st, c, gas, ok).value.cb, m)
  {
    hide ChargeFor, Refund, Send, Within;
    RemoveWithin(st.cb, RebuiltKey(env, c).value, m);
  }

  /** No height holds more callbacks than the largest limit that was in force. */
  ghost predicate Limited(st: State, m: nat) {
    Within(st.cb, Largest(st.events, m))
  }

  /** A new limit is logged when it is accepted, and only then. */
  lemma LimitLogged(env: Env, st: State, msg: Msg)
    requires Handle(env, st, msg).Success?
    ensures var next := Handle(env, st, msg).value;
            if msg.UpdateCallbackParams?
            then next.events == st.events + [LimitSet(next.cb.params.maxBlock, st.height)]
            else && next.cb.params == st.cb.params
                 && (|next.events| > |st.events| ==> !next.events[|st.events|].LimitSet?)
  {
    hide EstimateFees, Send, Refund, Controls, Admit;
  }

  lemma HandleLimited(env: Env, st: State, msg: Msg, m: nat)
    requires Limited(st, m) && Handle(env, st, msg).Success?
    ensures Limited(Handle(env, st, msg).value, m)
  {
    hide Handle, Largest;
    var next := Handle(env, st, msg).value;
    HandleWithin(env, st, msg, Largest(st.events, m));
    LimitLogged(env, st, msg);
    OneEvent(env, st, msg);
    if next.events != st.events {
      LargestAppend(st.events, next.events[|st.events|], m);
    }
  }

  /** What adds another event and registers nothing. */
  lemma StaysLimited(st: State, next: State, m: nat)
    requires Limited(st, m) && LogsOne(st, next) && Within(next.cb, Largest(st.events, m))
    requires next.events != st.events ==> !next.events[|st.events|].LimitSet?
    ensures Limited(next, m)
  {
    hide Largest, Within;
    if next.events != st.events {
      LargestAppend(st.events, next.events[|st.events|], m);
    }
  }

  /** Inside one block, from its transactions to its end, whoever sends whatever. */
  lemma RunBlockLimited(env: Env, st: State, b: Block, m: nat)
    requires EnvOk(env) && Limited(st, m)
    ensures Limited(DeliverAll(env, st, b.txs), m)
    ensures AtErrorEnd(env, st, b).Success? ==> Limited(AtErrorEnd(env, st, b).value, m)
    ensures RunBlock(env, st, b).Success? ==>
              && BeforePruning(env, st, b).Success? && Limited(BeforePruning(env, st, b).value, m)
              && Limited(RunBlock(env, st, b).value, m)
  {
    hide Handle, Execute, PayOut, RunBlock, BeforePruning, AtErrorEnd, DeliverAll, Within, StoreError, Prune, Largest;
    forall s: State, msg: Msg | Limited(s, m) && Handle(env, s, msg).Success?
      ensures Limited(Handle(env, s, msg).value, m)
    {
      HandleLimited(env, s, msg, m);
    }
    forall s: State, c: Callback, gas: nat, ok: bool | Limited(s, m) && PayOut(env, s, c, gas, ok).Success?
      ensures Limited(PayOut(env, s, c, gas, ok).value, m)
    {
      PayOutWithin(env, s, c, gas, ok, Largest(s.events, m));
      PayOutLogs(env, s, c, gas, ok);
      StaysLimited(s, PayOut(env, s, c, gas, ok).value, m);
    }
    forall s: State, contract: Address, err: SudoError
      | Limited(s, m) && env.decode(err.contractAddress) == Some(contract)
      ensures Limited(StoreError(s, contract, err), m)
    {
      StoreErrorAdds(s, contract, err);
      StaysLimited(s, StoreError(s, contract, err), m);
    }
    forall s: State, id: nat | Limited(s, m)
      ensures Limited(NoteDelivered(s, id), m)
    {
      StaysLimited(s, NoteDelivered(s, id), m);
    }
    forall s: State, id: nat, record: nat | Limited(s, m)
      ensures Limited(NoteCarried(s, id, record), m)
    {
      StaysLimited(s, NoteCarried(s, id, record), m);
    }
    BlockPreserves(env, st, b, (s: State) => Limited(s, m), Any);
    if RunBlock(env, st, b).Success? {
      PruneFrame(env, BeforePruning(env, st, b).value);
    }
  }

  lemma {:induction false} RunBlocksLimited(env: Env, st: State, blocks: seq<Block>, m: nat)
    requires EnvOk(env) && Limited(st, m) && RunBlocks(env, st, blocks).Success?
    ensures Limited(RunBlocks(env, st, blocks).value, m)
    decreases |blocks|
  {
    hide RunBlock, Limited;
    if blocks != [] {
      RunBlockLimited(env, st, blocks[0], m);
      RunBlocksLimited(env, RunBlock(env, st, blocks[0]).value, blocks[1..], m);
    }
  }

  /** At every height there are at most as many callbacks as the largest limit ever in force allows. */
  ghost predicate NeverFuller(st: State, first: nat) {
    forall h: int :: |KeysAt(st.cb.pending, h)| <= Largest(st.events, first)
  }

  /**
    Over every run from genesis, between blocks and inside the next one, no height ever
    holds more callbacks than the largest reservation limit that was in force so far: the
    first one or one that governance set since. Nothing is assumed of any message.
   */
  lemma RunStaysWithin(env: Env, st: State, blocks: seq<Block>, b: Block)
    requires EnvOk(env) && Genesis(env, st) && RunBlocks(env, st, blocks).Success?
    ensures var last, first := RunBlocks(env, st, blocks).value, st.cb.params.maxBlock;
            && NeverFuller(last, first) && NeverFuller(DeliverAll(env, last, b.txs), first)
            && (AtErrorEnd(env, last, b).Success? ==> NeverFuller(AtErrorEnd(env, last, b).value, first))
            && (RunBlock(env, last, b).Success? ==>
                  && BeforePruning(env, last, b).Success?
                  && NeverFuller(BeforePruning(env, last, b).value, first))
  {
    assert forall h: int :: KeysAt(st.cb.pending, h) == {};
    hide RunBlocks, RunBlock, DeliverAll, AtErrorEnd, BeforePruning;
    var first := st.cb.params.maxBlock;
    assert Limited(st, first);
    hide Largest;
    RunBlocksLimited(env, st, blocks, first);
    RunBlockLimited(env, RunBlocks(env, st, blocks).value, b, first);
  }

  // ---------------------------------------------------------------- fees

  /**
    The quoted total is exactly the acceptance threshold: an admitted request goes through
    if and only if it offers that much and the sender holds what it offers.
   */
  lemma QuoteIsThreshold(env: Env, st: State, q: Quote, sender: Str, contract: Str, job: nat, height: int, fees: int)
    ensures Reserve(env, st, q, sender, contract, job, height, fees).Success? <==>
              && Admit(env, st, contract, height, job, sender).Success?
              && q.Total() <= fees <= Balance(st.bank, env.decode(sender).value)
  {
    hide Admit;
  }

  /**
    The quote, for every state and height. There is one exactly for a future height inside
    the reservation window that still has room, if none of the three amounts is a negative
    coin. Each of its fees is the nearest number of coins to its amount: price times gas
    limit, future multiplier times distance, block multiplier times callbacks there.
   */
  lemma QuoteIs(st: State, height: int)
    ensures var r, p, count := EstimateFees(st, height), st.cb.params, |KeysAt(st.cb.pending, height)|;
            var ahead := height - st.height;
            var window := Wrap64(st.height + AsInt64(p.maxFuture));
            && (r.Success? <==>
                  && st.height < height <= window && count < AsInt64(p.maxBlock)
                  && st.gasPrice * AsInt64(p.gasLimit) >= -HALF
                  && p.futureMultiplier * ahead >= -HALF && p.blockMultiplier * count >= -HALF)
            && (r.Success? ==>
                  && Nearest(r.value.transaction, st.gasPrice * AsInt64(p.gasLimit))
                  && Nearest(r.value.future, p.futureMultiplier * ahead)
                  && Nearest(r.value.block, p.blockMultiplier * count))
            && (r == Failure(HeightNotInFuture) <==> height <= st.height)
            && (r == Failure(HeightTooFarInFuture) <==> height > st.height && height > window)
            && (r == Failure(BlockFilled) <==> st.height < height <= window && count >= AsInt64(p.maxBlock))
  {
    hide RoundInt, Nearest;
    var p, count := st.cb.params, |KeysAt(st.cb.pending, height)|;
    var ahead := height - st.height;
    RoundIsNearest(p.futureMultiplier * ahead);
    RoundIsNearest(p.blockMultiplier * count);
    FeeIsNearest(st.gasPrice, p.gasLimit);
    RoundsBelowZero(st.gasPrice * AsInt64(p.gasLimit));
    RoundsBelowZero(p.futureMultiplier * ahead);
    RoundsBelowZero(p.blockMultiplier * count);
  }

  /** A later height and a fuller one never cost less, all else equal. */
  lemma QuoteGrows(a: State, b: State, h: int, later: int)
    requires a.cb.params == b.cb.params && a.cb.params.Valid() && a.height == b.height && a.gasPrice == b.gasPrice
    requires h <= later && |KeysAt(a.cb.pending, h)| <= |KeysAt(b.cb.pending, later)|
    requires EstimateFees(a, h).Success? && EstimateFees(b, later).Success?
    ensures var qa, qb := EstimateFees(a, h).value, EstimateFees(b, later).value;
            qa.future <= qb.future && qa.block <= qb.block && qa.transaction == qb.transaction
  {
    hide RoundInt, TransactionFee;
    var p := a.cb.params;
    RoundedMulMonotone(p.futureMultiplier, h - a.height, later - a.height);
    RoundedMulMonotone(p.blockMultiplier, |KeysAt(a.cb.pending, h)|, |KeysAt(b.cb.pending, later)|);
  }

  /** The fee of `gas` units is negative, and NewCoin panics, exactly for outsized gas. */
  lemma NegativeFeeIff(price: nat, gas: nat)
    requires gas < TWO64
    ensures TransactionFee(price, gas) < 0 <==> gas >= TWO63 && price * (TWO64 - gas) > HALF
  {
    if gas < TWO63 {
      assert price * gas >= 0;
    } else {
      var d := price * (TWO64 - gas);
      assert price * AsInt64(gas) == -d;
      assert d >= 0;
    }
  }

  /** At a higher price the same gas is never cheaper, unless its fee was not positive. */
  lemma FeeFollowsPrice(low: nat, high: nat, gas: nat)
    requires low <= high
    ensures TransactionFee(low, gas) <= TransactionFee(high, gas) || TransactionFee(low, gas) <= 0
  {
    assert RoundInt(0) == 0;
    hide RoundInt;
    var g := AsInt64(gas);
    if g >= 0 {
      RoundedMulMonotone(g, low, high);
      assert low * g == g * low && high * g == g * high;
    } else {
      assert low * g <= 0;
      RoundMonotone(low * g, 0);
    }
  }
}
