/**
  x/callback: fee quotes, registration, cancellation and the payout of an executed
  callback. Each handler is given as one atomic step: the new state, or the error that
  makes the message roll back.
 */
module CallbackModule {
  import opened Machine
  import opened Decimal
  import opened Store

  // ---------------------------------------------------------------- fees

  datatype Quote = Quote(future: nat, block: nat, transaction: nat) {
    function Total(): (r: nat) {
      transaction + block + future
    }
  }

  /** The amount of CalculateTransactionFees; NewCoin panics when it is negative. */
  function TransactionFee(price: nat, gas: nat): (r: int) {
    RoundInt(price * AsInt64(gas))
  }

  /** The fee is the nearest number of coins to price times gas, the gas read as int64. */
  lemma FeeIsNearest(price: nat, gas: nat)
    ensures Nearest(TransactionFee(price, gas), price * AsInt64(gas))
  {
    RoundIsNearest(price * AsInt64(gas));
  }

  /** EstimateCallbackFees: only for a future height with room, and by the current price. */
  function EstimateFees(st: State, height: int): (r: Result<Quote>)
    ensures r.Success? ==> height > st.height && |KeysAt(st.cb.pending, height)| < st.cb.params.maxBlock
    ensures r.Success? ==> r.value.transaction == TransactionFee(st.gasPrice, st.cb.params.gasLimit)
  {
    var p := st.cb.params;
    if height <= st.height then Failure(HeightNotInFuture)
    else if height > Wrap64(st.height + AsInt64(p.maxFuture)) then Failure(HeightTooFarInFuture)
    else
      var count := |KeysAt(st.cb.pending, height)|;
      if count >= AsInt64(p.maxBlock) then Failure(BlockFilled)
      else
        var transaction := TransactionFee(st.gasPrice, p.gasLimit);
        var future := RoundInt(p.futureMultiplier * (height - st.height));
        var block := RoundInt(p.blockMultiplier * count);
        if transaction < 0 || future < 0 || block < 0 then Failure(NegativeCoin)
        else Success(Quote(future, block, transaction))
  }

  // ---------------------------------------------------------------- authority

  /** The contract itself, its admin or its owner. */
  predicate Controls(env: Env, st: State, contract: Address, sender: Str) {
    || env.equalFold(sender, env.encode(contract))
    || (contract in st.contracts && env.equalFold(sender, st.contracts[contract].admin))
    || (contract in st.contracts && st.contracts[contract].owner.Some? &&
        env.equalFold(sender, st.contracts[contract].owner.value))
  }

  /** isAuthorizedToModify: blocked accounts never, they could not be refunded. */
  predicate MayModify(env: Env, st: State, contract: Address, sender: Str) {
    env.decode(sender).Some? && env.decode(sender).value !in env.blocked && Controls(env, st, contract, sender)
  }

  // ---------------------------------------------------------------- messages

  /**
    What can still refuse a request once its height has a quote: the contract, the
    sender's authority, a callback under the same key.
   */
  function Admit(env: Env, st: State, contract: Str, height: int, job: nat, sender: Str): (r: Result<Key>)
    ensures r.Success? ==> env.decode(sender).Some? && env.decode(contract).Some?
    ensures r.Success? ==> r.value == Key(height, env.decode(contract).value, job)
    ensures r.Success? ==>
              && r.value !in st.cb.pending && r.value.contract in st.contracts
              && env.decode(sender).value !in env.blocked
    ensures r.Failure? ==> r.error in {InvalidAddress, ContractNotFound, Unauthorized, CallbackExists}
    ensures r == Failure(CallbackExists) ==>
              env.decode(contract).Some? && Key(height, env.decode(contract).value, job) in st.cb.pending
  {
    if env.decode(contract).None? then Failure(InvalidAddress)
    else
      var key := Key(height, env.decode(contract).value, job);
      if key.contract !in st.contracts then Failure(ContractNotFound)
      else if !MayModify(env, st, key.contract, sender) then Failure(Unauthorized)
      else if key in st.cb.pending then Failure(CallbackExists)
      else Success(key)
  }

  /** RequestCallback with its rollback: accepted requests are stored and fully paid. */
  function Request(env: Env, st: State, sender: Str, contract: Str, job: nat, height: int, fees: int)
    : (r: Result<State>)
  {
    var quote :- EstimateFees(st, height);
    Reserve(env, st, quote, sender, contract, job, height, fees)
  }

  /** An accepted request: its fees are in the account, its callback is stored and logged under `key`. */
  predicate Reserved(env: Env, st: State, next: State, sender: Str, key: Key, fees: int) {
    && env.decode(sender).Some? && env.decode(sender).value !in env.blocked
    && fees >= 0 && Send(st.bank, env.decode(sender).value, env.callbackAccount, fees) == Success(next.bank)
    && key !in st.cb.pending && key.contract in st.contracts && key in next.cb.pending
    && next == st.(bank := next.bank, cb := next.cb, events := next.events)
    && next.cb.params == st.cb.params
    && var c := next.cb.pending[key];
       && next.cb.pending == st.cb.pending[key := c]
       && RebuiltKey(env, c) == Success(key)
       && c.reservedBy == sender && c.maxGas == st.cb.params.gasLimit && c.fees.Total() == fees
       && next.events == st.events + [Registered(key, c.fees, c.maxGas, st.gasPrice, st.height)]
  }

  /** What RequestCallback does with a quote. */
  function Reserve(env: Env, st: State, quote: Quote, sender: Str, contract: Str, job: nat, height: int, fees: int)
    : (r: Result<State>)
    ensures r.Success? ==>
              && env.decode(contract).Some?
              && var key := Key(height, env.decode(contract).value, job);
                 && Reserved(env, st, r.value, sender, key, fees)
                 && r.value.cb.pending[key].contract == contract
                 && var split := r.value.cb.pending[key].fees;
                    && split.transaction == quote.transaction && split.block == quote.block
                    && split.future == quote.future && split.surplus == fees - quote.Total()
  {
    if fees < quote.Total() then Failure(InsufficientFees)
    else
      var key :- Admit(env, st, contract, height, job, sender);
      var split := FeeSplit(quote.transaction, quote.block, quote.future, fees - quote.Total());
      var bank :- Send(st.bank, env.decode(sender).value, env.callbackAccount, fees);
      var callback := Callback(contract, height, job, sender, split, st.cb.params.gasLimit);
      Success(st.(
        bank := bank,
        cb := st.cb.(pending := st.cb.pending[key := callback]),
        events := st.events + [Registered(key, split, st.cb.params.gasLimit, st.gasPrice, st.height)]))
  }

  /** The key under which a stored callback is removed: rebuilt from its value. */
  function RebuiltKey(env: Env, callback: Callback): (r: Result<Key>) {
    if env.decode(callback.contract).None? then Failure(InvalidAddress)
    else Success(Key(callback.height, env.decode(callback.contract).value, callback.job))
  }

  /** RefundFromCallbackModule: a blocked recipient's refund goes to the fee collector. */
  function Refund(env: Env, bank: map<Address, nat>, recipient: Str, amount: nat)
    : (r: Result<map<Address, nat>>)
  {
    if env.decode(recipient).None? then Failure(InvalidAddress)
    else if env.decode(recipient).value in env.blocked then
      Send(bank, env.callbackAccount, env.feeCollector, amount)
    else Send(bank, env.callbackAccount, env.decode(recipient).value, amount)
  }

  /** CancelCallback with its rollback. */
  function Cancel(env: Env, st: State, sender: Str, contract: Str, job: nat, height: int): (r: Result<State>) {
    if env.decode(contract).None? || Key(height, env.decode(contract).value, job) !in st.cb.pending then
      Failure(CallbackNotFound)
    else
      var callback := st.cb.pending[Key(height, env.decode(contract).value, job)];
      var key :- RebuiltKey(env, callback);
      if !MayModify(env, st, key.contract, sender) then Failure(Unauthorized)
      else
        var refunded :- Refund(env, st.bank, sender, callback.fees.transaction + callback.fees.surplus);
        var settled :- Send(refunded, env.callbackAccount, env.feeCollector,
                            callback.fees.block + callback.fees.future);
        Success(st.(
          bank := settled,
          cb := st.cb.(pending := st.cb.pending - {key}),
          events := st.events + [Cancelled(key, st.height)]))
  }

  /** UpdateParams. */
  function UpdateParams(env: Env, st: State, authority: Str, params: CallbackParams): (r: Result<State>) {
    if env.decode(authority).None? then Failure(InvalidAddress)
    else if authority != env.authority then Failure(Unauthorized)
    else if !params.Valid() then Failure(InvalidParams)
    else Success(st.(cb := st.cb.(params := params),
                     events := st.events + [LimitSet(params.maxBlock, st.height)]))
  }

  // ---------------------------------------------------------------- payout

  /** What callbackExec charges and refunds for `gas` units at the current price. */
  datatype Charge = Charge(consumed: nat, refund: nat)

  function ChargeFor(price: nat, callback: Callback, gas: nat): (r: Result<Charge>)
    ensures r.Success? ==> r.value.consumed + r.value.refund == callback.fees.transaction
  {
    var fee := TransactionFee(price, gas);
    if fee < 0 then Failure(NegativeCoin)
    else if fee < callback.fees.transaction then Success(Charge(fee, callback.fees.transaction - fee))
    else Success(Charge(callback.fees.transaction, 0))
  }

  /** The part of callbackExec behind the execution: refund, fee collector, removal. */
  function PayOut(env: Env, st: State, callback: Callback, gas: nat, ok: bool): (r: Result<State>) {
    var charge :- ChargeFor(st.gasPrice, callback, gas);
    var refunded :- if TransactionFee(st.gasPrice, gas) < callback.fees.transaction
                    then Refund(env, st.bank, callback.reservedBy, charge.refund)
                    else Success(st.bank);
    var settled :- Send(refunded, env.callbackAccount, env.feeCollector,
                        callback.fees.block + callback.fees.future + callback.fees.surplus + charge.consumed);
    var key :- RebuiltKey(env, callback);
    Success(st.(
      bank := settled,
      cb := st.cb.(pending := st.cb.pending - {key}),
      events := st.events + [Executed(key, ok, st.height)]))
  }
}
