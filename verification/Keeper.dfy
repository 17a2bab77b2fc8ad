/**
  The keepers and handlers as the source runs them: step by step on the stores of a
  context, writing before later checks, returning early with an error and leaving the
  rollback to the caller. Each is proved against the atomic step it amounts to.
 */
module Keeper {
  import opened Machine
  import opened SudoErrorCodec
  import opened Store
  import opened CallbackModule
  import opened ErrorsModule
  import opened FeeGrants
  import opened Chain
  import opened Invariants
  import opened Settlement
  import opened Delivery
  import opened Lifecycle
  import opened Runs

  /** The outcome of a fallible step agrees with its specification. */
  ghost predicate Agrees(r: Result<()>, after: State, spec: Result<State>) {
    match spec
    case Success(next) => r.Success? && after == next
    case Failure(e) => r == Failure(e)
  }

  class Context {
    const env: Env

    var height: int
    var gasPrice: nat
    var bank: map<Address, nat>
    var contracts: map<Address, ContractInfo>
    var cb: CallbackStore
    var er: ErrorStore
    var granters: set<Address>
    var events: seq<Event>

    var gasLimit: Option<nat>
    var gasConsumed: nat

    /** The committed state this context stands for. */
    function View(): (r: State)
      reads this
    {
      State(height, gasPrice, bank, contracts, cb, er, granters, events)
    }

    // -------------------------------------------------------------- branching

    /** CacheContext: a branch with the same stores. */
    constructor Branch(from: Context)
      ensures env == from.env && View() == from.View()
    {
      env := from.env;
      height, gasPrice, bank, contracts := from.height, from.gasPrice, from.bank, from.contracts;
      cb, er, granters, events := from.cb, from.er, from.granters, from.events;
      gasLimit, gasConsumed := None, 0;
    }

    /** The branch's commit function; the gas meter stays the parent's. */
    method Commit(branch: Context)
      modifies this
      ensures View() == old(branch.View())
      ensures gasLimit == old(gasLimit) && gasConsumed == old(gasConsumed)
    {
      height, gasPrice, bank, contracts := branch.height, branch.gasPrice, branch.bank, branch.contracts;
      cb, er, granters, events := branch.cb, branch.er, branch.granters, branch.events;
    }

    // -------------------------------------------------------------- x/callback

    /** GetCallbacksByHeight: a walk over the height's prefix. */
    method GetCallbacksByHeight(at: int) returns (found: seq<Callback>)
      requires EnvOk(env)
      ensures |found| == |KeysAt(cb.pending, at)|
      ensures forall c :: c in found <==> exists k :: k in KeysAt(cb.pending, at) && cb.pending[k] == c
    {
      var due := KeysAt(cb.pending, at);
      var keys := env.walk(due);
      assert Enumerates(keys, due);
      found := [];
      var i := 0;
      while i < |keys|
        invariant 0 <= i <= |keys| && |found| == i
        invariant forall k :: k in keys ==> k in cb.pending
        invariant forall j :: 0 <= j < i ==> found[j] == cb.pending[keys[j]]
      {
        found := found + [cb.pending[keys[i]]];
        i := i + 1;
      }
      EnumerationSize(keys, due);
      forall c ensures c in found <==> exists k :: k in due && cb.pending[k] == c {
        if c in found {
          var j :| 0 <= j < |found| && found[j] == c;
          assert keys[j] in due;
        }
        if k :| k in due && cb.pending[k] == c {
          var j :| 0 <= j < |keys| && keys[j] == k;
          assert found[j] == c;
        }
      }
    }

    /** SaveCallback. After a quote in the same message only three checks can still fail. */
    method SaveCallback(callback: Callback) returns (r: Result<()>)
      requires EnvOk(env)
      modifies this`cb
      ensures r.Success? <==>
                && Admit(env, old(View()), callback.contract, callback.height, callback.job,
                         callback.reservedBy).Success?
                && height < callback.height <= Wrap64(height + AsInt64(old(cb.params.maxFuture)))
                && |KeysAt(old(cb.pending), callback.height)| < AsInt64(old(cb.params.maxBlock))
      ensures r.Failure? ==> cb == old(cb)
      ensures EstimateFees(old(View()), callback.height).Success? ==>
                match Admit(env, old(View()), callback.contract, callback.height, callback.job, callback.reservedBy)
                case Failure(e) => r == Failure(e)
                case Success(key) =>
                  r.Success? &&
                  cb == old(cb).(pending := old(cb.pending)[key := callback.(maxGas := old(cb.params.gasLimit))])
    {
      if env.decode(callback.contract).None? { return Failure(InvalidAddress); }
      var addr := env.decode(callback.contract).value;
      if addr !in contracts { return Failure(ContractNotFound); }
      if !MayModify(env, View(), addr, callback.reservedBy) { return Failure(Unauthorized); }
      assert env.decode(env.encode(addr)) == Some(addr);
      if env.decode(env.encode(addr)).None? { return Failure(InvalidAddress); }
      if Key(callback.height, env.decode(env.encode(addr)).value, callback.job) in cb.pending {
        return Failure(CallbackExists);
      }
      if callback.height <= height { return Failure(HeightNotInFuture); }
      if callback.height > Wrap64(height + AsInt64(cb.params.maxFuture)) { return Failure(HeightTooFarInFuture); }
      var callbacksForBlock := GetCallbacksByHeight(callback.height);
      if |callbacksForBlock| >= AsInt64(cb.params.maxBlock) { return Failure(BlockFilled); }
      var key := Key(callback.height, addr, callback.job);
      cb := cb.(pending := cb.pending[key := callback.(maxGas := cb.params.gasLimit)]);
      r := Success(());
    }

    method SendCoins(payer: Address, payee: Address, amount: nat) returns (r: Result<()>)
      modifies this`bank
      ensures match Send(old(bank), payer, payee, amount)
              case Success(after) => r.Success? && bank == after
              case Failure(e) => r == Failure(e) && bank == old(bank)
    {
      if Balance(bank, payer) < amount { return Failure(InsufficientFunds); }
      bank := bank[payer := Balance(bank, payer) - amount];
      bank := bank[payee := Balance(bank, payee) + amount];
      r := Success(());
    }

    /** RefundFromCallbackModule. */
    method RefundFromCallbackModule(recipient: Str, amount: nat) returns (r: Result<()>)
      modifies this`bank
      ensures match Refund(env, old(bank), recipient, amount)
              case Success(after) => r.Success? && bank == after
              case Failure(e) => r == Failure(e)
      ensures r.Success? <==> env.decode(recipient).Some? && amount <= Balance(old(bank), env.callbackAccount)
      ensures r.Failure? ==> bank == old(bank)
      ensures r.Success? ==>
                var addr := env.decode(recipient).value;
                var payee := if addr in env.blocked then env.feeCollector else addr;
                payee != env.callbackAccount ==>
                  && Balance(bank, payee) == Balance(old(bank), payee) + amount
                  && Balance(bank, env.callbackAccount) == Balance(old(bank), env.callbackAccount) - amount
                  && forall a :: a != payee && a != env.callbackAccount ==> Balance(bank, a) == Balance(old(bank), a)
    {
      hide Send;
      if env.decode(recipient).None? { return Failure(InvalidAddress); }
      var addr := env.decode(recipient).value;
      if addr in env.blocked {
        r := SendCoins(env.callbackAccount, env.feeCollector, amount);
      } else {
        r := SendCoins(env.callbackAccount, addr, amount);
      }
    }

    /** MsgServer.RequestCallback: the callback is stored before it is paid. */
    method RequestCallback(sender: Str, contract: Str, job: nat, at: int, fees: int) returns (r: Result<()>)
      requires EnvOk(env)
      modifies this`cb, this`bank, this`events
      ensures Agrees(r, View(), Request(env, old(View()), sender, contract, job, at, fees))
    {
      hide Admit, Send, EstimateFees, EnvOk, KeysAt, Balance, TransactionFee, MayModify, Enumerates;
      var quote := EstimateFees(View(), at);
      if quote.Failure? { return Failure(quote.error); }
      var expected := quote.value.transaction + quote.value.block + quote.value.future;
      if fees < expected { return Failure(InsufficientFees); }
      var split := FeeSplit(quote.value.transaction, quote.value.block, quote.value.future, fees - expected);
      r := SaveCallback(Callback(contract, at, job, sender, split, 0));
      if r.Failure? { return; }
      r := SendCoins(env.decode(sender).value, env.callbackAccount, fees);
      if r.Failure? { return; }
      var key := Key(at, env.decode(contract).value, job);
      events := events + [Registered(key, split, cb.params.gasLimit, gasPrice, height)];
    }

    /** MsgServer.CancelCallback: the entry is removed before anything is paid back. */
    method CancelCallback(sender: Str, contract: Str, job: nat, at: int) returns (r: Result<()>)
      modifies this`cb, this`bank, this`events
      ensures Agrees(r, View(), Cancel(env, old(View()), sender, contract, job, at))
    {
      hide Controls, Send, Refund;
      if env.decode(contract).None? || Key(at, env.decode(contract).value, job) !in cb.pending {
        return Failure(CallbackNotFound);
      }
      var callback := cb.pending[Key(at, env.decode(contract).value, job)];
      var key := RebuiltKey(env, callback);
      if key.Failure? { return Failure(key.error); }
      if !MayModify(env, View(), key.value.contract, sender) { return Failure(Unauthorized); }
      cb := cb.(pending := cb.pending - {key.value});
      r := RefundFromCallbackModule(sender, callback.fees.transaction + callback.fees.surplus);
      if r.Failure? { return; }
      r := SendCoins(env.callbackAccount, env.feeCollector, callback.fees.block + callback.fees.future);
      if r.Failure? { return; }
      events := events + [Cancelled(key.value, height)];
    }

    // -------------------------------------------------------------- x/cwerrors

    /** StoreErrorInState: the three indexes are written one after the other. */
    method StoreErrorInState(contract: Address, err: SudoError)
      modifies this`er, this`events
      ensures View() == StoreError(old(View()), contract, err)
    {
      var id := er.nextId;
      er := er.(nextId := id + 1);
      er := er.(contractErrors := er.contractErrors + {ByContract(contract, id)});
      var deletionHeight := Wrap64(height + er.params.storedTime);
      er := er.(deletionBlocks := er.deletionBlocks + {ByDeletion(deletionHeight, id)});
      er := er.(errors := er.errors[id := err]);
      events := events + [ErrorStored(id, err, er.params.storedTime, height)];
    }

    /** SetError. */
    method RecordError(err: SudoError) returns (r: Result<()>)
      modifies this`er, this`events
      ensures Agrees(r, View(), SetError(env, old(View()), err))
      ensures r.Failure? ==> View() == old(View())
    {
      if env.decode(err.contractAddress).None? { return Failure(InvalidAddress); }
      if err.moduleName == [] { return Failure(ModuleNameMissing); }
      var contract := env.decode(err.contractAddress).value;
      if contract !in contracts { return Failure(ContractNotFound); }
      if contract in er.subscriptions {
        events := events + [ErrorQueued(er.nextId, err, height)];
        er := er.(queue := er.queue[er.nextId := err]);
        er := er.(nextId := er.nextId + 1);
      } else {
        StoreErrorInState(contract, err);
      }
      r := Success(());
    }

    /** SetSubscription: the old index entry is removed before the fee is checked. */
    method SetSubscription(sender: Str, contract: Str, fee: int) returns (r: Result<()>)
      modifies this`er, this`bank, this`events
      ensures Agrees(r, View(), Subscribe(env, old(View()), sender, contract, fee))
    {
      hide Controls, Send;
      if env.decode(sender).None? || env.decode(contract).None? { return Failure(InvalidAddress); }
      var addr := env.decode(contract).value;
      if addr !in contracts { return Failure(ContractNotFound); }
      if !Controls(env, View(), addr, env.encode(env.decode(sender).value)) { return Failure(Unauthorized); }
      var existing := EndHeight(er, addr);
      if addr in er.subscriptions {
        er := er.(subscriptionEnds := er.subscriptionEnds - {ByEnd(existing, addr)});
      }
      if fee != er.params.fee || fee < 0 { return Failure(IncorrectSubscriptionFee); }
      r := SendCoins(env.decode(sender).value, env.feeCollector, fee);
      if r.Failure? { return; }
      var end := Wrap64(Max(height, existing) + er.params.period);
      er := er.(subscriptionEnds := er.subscriptionEnds + {ByEnd(end, addr)});
      er := er.(subscriptions := er.subscriptions[addr := end]);
      events := events + [Subscribed(addr, er.params.period, height)];
      assert er.subscriptionEnds == SubscribedUntil(old(er), addr, end).subscriptionEnds;
      hide SubscribedUntil;
    }

    /**
      PruneErrorsCurrentBlock: collects the due ids, then removes them one by one. It fails
      exactly if some due id has no error or one that names no address.
     */
    method PruneErrorsCurrentBlock() returns (r: Result<()>)
      modifies this`er
      ensures r == if Prunable(env, old(er), height) then Success(()) else Failure(MissingError)
      ensures r.Success? ==> View() == old(View()).(er := PruneErrors(env, old(er), height))
    {
      ghost var was := er;
      ghost var due := DueIds(er, height);
      var todo := DueIds(er, height);
      while todo != {}
        invariant todo <= due && Pruning(env, was, er, height, due - todo)
        decreases todo
      {
        var id :| id in todo;
        PruneStep(env, was, er, height, due, todo, id);
        if id !in er.errors { return Failure(MissingError); }
        var err := er.errors[id];
        er := er.(errors := er.errors - {id});
        if env.decode(err.contractAddress).None? { return Failure(MissingError); }
        er := er.(contractErrors := er.contractErrors - {ByContract(env.decode(err.contractAddress).value, id)});
        er := er.(deletionBlocks := er.deletionBlocks - {ByDeletion(height, id)});
        todo := todo - {id};
      }
      assert due - todo == due;
      PruneDone(env, was, er, height);
      r := Success(());
    }

    /** PruneSubscriptionsEndBlock: a walk over the ending entries, then one range clear. */
    method PruneSubscriptionsEndBlock()
      modifies this`er
      ensures View() == old(View()).(er := PruneSubscriptions(old(er), height))
    {
      ghost var was := er;
      var ending := set e | e in er.subscriptionEnds && e.height == height;
      var todo := ending;
      ghost var gone: set<Address> := {};
      while todo != {}
        invariant todo <= ending
        invariant gone == (set e | e in ending - todo :: e.contract)
        invariant er == was.(subscriptions := was.subscriptions - gone)
        decreases todo
      {
        var e :| e in todo;
        er := er.(subscriptions := er.subscriptions - {e.contract});
        assert ending - (todo - {e}) == (ending - todo) + {e};
        todo := todo - {e};
        gone := gone + {e.contract};
      }
      assert ending - todo == ending;
      er := er.(subscriptionEnds := er.subscriptionEnds - ending);
      assert er.subscriptionEnds == set e | e in was.subscriptionEnds && e.height != height;
      assert gone == set e | e in was.subscriptionEnds && e.height == height :: e.contract;
    }

    /** GetErrorsByContractAddress: a walk over the contract's index, reading each error. */
    method GetErrorsByContractAddress(contract: Address) returns (r: Result<seq<SudoError>>)
      ensures var ids := IdsOf(er, contract);
              && (r.Success? <==> forall id :: id in ids ==> id in er.errors)
              && (r.Success? ==>
                    && |r.value| == |ids|
                    && forall i :: 0 <= i < |ids| ==> r.value[i] == er.errors[ids[i]])
    {
      var ids := IdsOf(er, contract);
      var sudoErrs: seq<SudoError> := [];
      var i := 0;
      while i < |ids|
        invariant 0 <= i <= |ids| && |sudoErrs| == i
        invariant forall j :: 0 <= j < i ==> ids[j] in er.errors && sudoErrs[j] == er.errors[ids[j]]
      {
        if ids[i] !in er.errors { return Failure(MissingError); }
        sudoErrs := sudoErrs + [er.errors[ids[i]]];
        i := i + 1;
      }
      r := Success(sudoErrs);
    }

    // -------------------------------------------------------------- x/cwfees

    method RegisterGranter(contract: Str) returns (r: Result<()>)
      modifies this`granters
      ensures r.Success? <==>
                && env.decode(contract).Some?
                && env.decode(contract).value in contracts && env.decode(contract).value !in old(granters)
      ensures granters == if r.Success? then old(granters) + {env.decode(contract).value} else old(granters)
      ensures Agrees(r, View(), Register(env, old(View()), contract))
    {
      if env.decode(contract).None? { return Failure(InvalidAddress); }
      var granter := env.decode(contract).value;
      if granter !in contracts { return Failure(NotAContract); }
      if granter in granters { return Failure(AlreadyGranter); }
      granters := granters + {granter};
      r := Success(());
    }

    method UnregisterGranter(contract: Str) returns (r: Result<()>)
      modifies this`granters
      ensures r.Success? <==> env.decode(contract).Some? && env.decode(contract).value in old(granters)
      ensures r.Success? ==> env.decode(contract).value !in granters
      ensures r.Success? ==> granters + {env.decode(contract).value} == old(granters)
      ensures r.Failure? ==> granters == old(granters)
      ensures Agrees(r, View(), Unregister(env, old(View()), contract))
    {
      if env.decode(contract).None? { return Failure(InvalidAddress); }
      var granter := env.decode(contract).value;
      if granter !in granters { return Failure(NotAGranter); }
      granters := granters - {granter};
      r := Success(());
    }

    // -------------------------------------------------------------- messages and transactions

    /** One message on this context; after an error its partial writes are still there. */
    method HandleMsg(msg: Msg) returns (r: Result<()>)
      requires EnvOk(env)
      modifies this
      ensures Agrees(r, View(), Handle(env, old(View()), msg))
      ensures gasLimit == old(gasLimit) && gasConsumed == old(gasConsumed)
    {
      hide Request, Cancel, Subscribe, SetError, Register, Unregister;
      match msg {
        case RequestCallback(sender, contract, job, at, fees) => r := RequestCallback(sender, contract, job, at, fees);
        case CancelCallback(sender, contract, job, at) => r := CancelCallback(sender, contract, job, at);
        case SubscribeToError(sender, contract, fee) =>
          if env.decode(sender) == Some(env.callbackAccount) { return Failure(Unauthorized); }
          r := SetSubscription(sender, contract, fee);
        case RegisterAsGranter(contract) => r := RegisterGranter(contract);
        case UnregisterAsGranter(contract) => r := UnregisterGranter(contract);
        case RaiseError(err) => r := RecordError(err);
        case UpdateCallbackParams(authority, params) =>
          if env.decode(authority).None? { return Failure(InvalidAddress); }
          if authority != env.authority { return Failure(Unauthorized); }
          if !params.Valid() { return Failure(InvalidParams); }
          cb := cb.(params := params);
          events := events + [LimitSet(params.maxBlock, height)];
          r := Success(());
        case UpdateErrorsParams(authority, params) =>
          if env.decode(authority).None? { return Failure(InvalidAddress); }
          if authority != env.authority { return Failure(Unauthorized); }
          if !params.Valid() { return Failure(InvalidParams); }
          er := er.(params := params);
          r := Success(());
        case SetGasPrice(price) =>
          gasPrice := price;
          r := Success(());
        case SetBalance(account, balance) =>
          if account == env.callbackAccount { return Failure(Unauthorized); }
          bank := bank[account := balance];
          r := Success(());
        case SetContract(address, info) =>
          contracts := contracts[address := info];
          r := Success(());
      }
    }

    /** One transaction on a branch that is committed only when every message succeeded. */
    method DeliverTx(tx: seq<Msg>) returns (r: Result<()>)
      requires EnvOk(env)
      modifies this
      ensures View() == Deliver(env, old(View()), tx)
      ensures match HandleAll(env, old(View()), tx)
              case Success(_) => r.Success?
              case Failure(e) => r == Failure(e)
      ensures gasLimit == old(gasLimit) && gasConsumed == old(gasConsumed)
    {
      hide Handle;
      var branch := new Context.Branch(this);
      ghost var start := View();
      var i := 0;
      while i < |tx|
        invariant 0 <= i <= |tx|
        invariant fresh(branch) && branch.env == env
        invariant View() == start && gasLimit == old(gasLimit) && gasConsumed == old(gasConsumed)
        invariant HandleAll(env, branch.View(), tx[i..]) == HandleAll(env, start, tx)
      {
        r := branch.HandleMsg(tx[i]);
        if r.Failure? { return; }
        assert tx[i..][1..] == tx[i + 1..];
        i := i + 1;
      }
      Commit(branch);
      r := Success(());
    }

    // -------------------------------------------------------------- executor

    /** GasMeter().ConsumeGas: the gas is counted even when it is over the limit. */
    method ConsumeGas(amount: nat) returns (r: Result<()>)
      modifies this`gasConsumed
      ensures gasConsumed == old(gasConsumed) + amount
      ensures r == if gasLimit.Some? && gasConsumed > gasLimit.value then Failure(OutOfGas) else Success(())
    {
      gasConsumed := gasConsumed + amount;
      if gasLimit.Some? && gasConsumed > gasLimit.value { return Failure(OutOfGas); }
      r := Success(());
    }

    /** GasMeter().GasRemaining, which is the largest uint64 for an unlimited meter. */
    function GasRemaining(): (r: nat)
      reads this
    {
      if gasLimit.None? then TWO64 - 1
      else if gasConsumed > gasLimit.value then 0
      else gasLimit.value - gasConsumed
    }

    /**
      ExecuteWithGasLimit: runs the body on a branch under its own meter, charges the
      parent what was used, and commits only a successful run. The failure it returns is a
      panic: the parent's own out-of-gas, or one of the body that is raised again before
      anything is charged.
     */
    method ExecuteWithGasLimit(limit: nat, run: SudoRun) returns (r: Result<()>, gasUsed: nat, problem: Option<Problem>)
      requires EnvOk(env)
      modifies this
      ensures var x := Execute(env, old(View()), run, limit);
              && gasLimit == old(gasLimit)
              && View() == (if r.Success? then x.state else old(View()))
              && if x.panicked
                 then r == Failure(NegativeCoin) && gasConsumed == old(gasConsumed)
                 else && gasUsed == x.gasUsed && problem == x.problem && gasConsumed == old(gasConsumed) + gasUsed
                      && r == if gasLimit.Some? && gasConsumed > gasLimit.value then Failure(OutOfGas) else Success(())
    {
      hide Deliver, EnvOk, HandleAll;
      ghost var start := View();
      var branch := new Context.Branch(this);
      var outOfGas := false;
      var i := 0;
      gasUsed, problem := 0, None;
      while i < |run.steps| && !outOfGas
        invariant 0 <= i <= |run.steps|
        invariant fresh(branch) && branch.env == env
        invariant View() == start && gasLimit == old(gasLimit) && gasConsumed == old(gasConsumed)
        invariant if outOfGas
                  then RunSteps(env, start, run.steps, 0, limit).outOfGas &&
                       !RunSteps(env, start, run.steps, 0, limit).panicked &&
                       RunSteps(env, start, run.steps, 0, limit).used == gasUsed
                  else RunSteps(env, branch.View(), run.steps[i..], gasUsed, limit) ==
                       RunSteps(env, start, run.steps, 0, limit)
      {
        gasUsed := gasUsed + run.steps[i].gas;
        assert run.steps[i..][1..] == run.steps[i + 1..];
        if gasUsed > limit {
          outOfGas := true;
        } else {
          var dispatched := branch.DeliverTx(run.steps[i].msgs);
          if dispatched == Failure(NegativeCoin) { return dispatched, gasUsed, problem; }
        }
        i := i + 1;
      }
      problem := if outOfGas then Some(Problem(true, false, env.outOfGasText))
                 else if run.verdict.Fails? then Some(run.verdict.problem)
                 else None;
      r := ConsumeGas(gasUsed);
      if r.Failure? { return; }
      if problem.None? {
        Commit(branch);
      }
    }

    const RequestGrantGasLimit: nat := 100_000

    /**
      RequestGrant: a granted request used no more than the grant limit and no more than
      the transaction had left; a refused one changed nothing.
     */
    method RequestGrant(run: SudoRun) returns (r: Result<()>)
      requires EnvOk(env)
      modifies this
      ensures r.Success? ==>
                && gasConsumed - old(gasConsumed) <= RequestGrantGasLimit
                && gasConsumed - old(gasConsumed) <= old(GasRemaining())
                && (gasLimit.Some? && old(gasConsumed) <= gasLimit.value ==> gasConsumed <= gasLimit.value)
                && View() == DeliverAll(env, old(View()), Txs(run.steps))
      ensures r.Failure? ==> View() == old(View())
      ensures gasLimit == old(gasLimit)
      ensures r.Success? <==>
                run.verdict.Succeeds? && Gas(run.steps) <= 100_000 && Gas(run.steps) <= old(GasRemaining())
                && (gasLimit.Some? ==> old(gasConsumed) + Gas(run.steps) <= gasLimit.value)
                && forall i: nat :: i < |run.steps| ==>
                     !Panics(env, DeliverAll(env, old(View()), Txs(run.steps[..i])), run.steps[i].msgs)
    {
      hide Execute, DeliverAll, EnvOk;
      var limit := if GasRemaining() < RequestGrantGasLimit then GasRemaining() else RequestGrantGasLimit;
      ExecuteIs(env, View(), run, limit);
      if Gas(run.steps) <= limit {
        PanicsAnywhere(env, View(), run.steps, limit);
      }
      var panic, gasUsed, problem := ExecuteWithGasLimit(limit, run);
      if panic.Failure? { return panic; }
      if problem.Some? {
        return Failure(if problem.value.outOfGas then OutOfGas else SudoFailed);
      }
      r := Success(());
    }

    // -------------------------------------------------------------- end of block

    /** callbackExec; its failures are the panics that stop the chain. */
    method CallbackExec(callback: Callback, run: SudoRun) returns (r: Result<()>)
      requires EnvOk(env) && gasLimit.None?
      modifies this
      ensures Agrees(r, View(), Settle(env, old(View()), callback, run))
      ensures gasLimit.None?
    {
      hide Execute, EnvOk, Send, Refund, SetError, TransactionFee;
      if env.decode(callback.contract).None? { return Failure(InvalidAddress); }
      var panic, gasUsed, problem := ExecuteWithGasLimit(callback.maxGas, run);
      if panic.Failure? { return panic; }
      if problem.Some? {
        r := RecordError(FailureRecord(env, callback, problem.value));
        if r.Failure? { return; }
        gasUsed := callback.maxGas;
      }
      r := PayCallback(callback, gasUsed, problem.None?);
    }

    /** The money side of callbackExec: refund what was not consumed, pass on the rest. */
    method PayCallback(callback: Callback, gasUsed: nat, ok: bool) returns (r: Result<()>)
      modifies this`bank, this`cb, this`events
      ensures Agrees(r, View(), PayOut(env, old(View()), callback, gasUsed, ok))
    {
      hide Send, Refund, TransactionFee;
      var consumed := TransactionFee(gasPrice, gasUsed);
      if consumed < 0 { return Failure(NegativeCoin); }
      if consumed < callback.fees.transaction {
        r := RefundFromCallbackModule(callback.reservedBy, callback.fees.transaction - consumed);
        if r.Failure? { return; }
      } else {
        consumed := callback.fees.transaction;
      }
      r := SendCoins(env.callbackAccount, env.feeCollector,
                     callback.fees.block + callback.fees.future + callback.fees.surplus + consumed);
      if r.Failure? { return; }
      var key := RebuiltKey(env, callback);
      if key.Failure? { return Failure(key.error); }
      cb := cb.(pending := cb.pending - {key.value});
      events := events + [Event.Executed(key.value, ok, height)];
    }

    /** The callback EndBlocker: the walk's entries are fixed when it starts. */
    method EndBlockCallbacks(runs: Key -> SudoRun) returns (r: Result<()>)
      requires EnvOk(env) && gasLimit.None?
      modifies this
      ensures Agrees(r, View(), CallbackEnd(env, old(View()), runs))
      ensures gasLimit.None?
    {
      hide Settle;
      ghost var start := View();
      var found := cb.pending;
      var keys := env.walk(KeysAt(found, height));
      assert Enumerates(keys, KeysAt(found, height));
      hide EnvOk;
      var i := 0;
      while i < |keys|
        invariant 0 <= i <= |keys| && gasLimit.None?
        invariant forall k :: k in keys ==> k in found
        invariant SettleAll(env, View(), keys[i..], found, runs) == SettleAll(env, start, keys, found, runs)
      {
        assert keys[i] in keys && keys[i..][1..] == keys[i + 1..];
        r := CallbackExec(found[keys[i]], runs(keys[i]));
        if r.Failure? { return; }
        i := i + 1;
      }
      r := Success(());
    }

    /** sudoErrorCallbackExec. */
    method SudoErrorCallbackExec(id: nat, err: SudoError, run: SudoRun) returns (r: Result<()>)
      requires EnvOk(env) && gasLimit.None?
      modifies this
      ensures Agrees(r, View(), DeliverError(env, old(View()), id, err, run))
      ensures gasLimit.None?
    {
      hide Execute, EnvOk, StoreError;
      if env.decode(err.contractAddress).None? { return Failure(InvalidAddress); }
      ghost var x := Execute(env, View(), run, ERROR_CALLBACK_GAS);
      ExecuteHeight(env, View(), run, ERROR_CALLBACK_GAS);
      var panic, gasUsed, problem := ExecuteWithGasLimit(ERROR_CALLBACK_GAS, run);
      if panic.Failure? { return panic; }
      if problem.Some? {
        var record := er.nextId;
        StoreErrorInState(env.decode(err.contractAddress).value, CarriedBy(env, err, problem.value.text));
        StoreErrorAdds(x.state, env.decode(err.contractAddress).value, CarriedBy(env, err, problem.value.text));
        events := events + [ErrorCarried(id, record, height)];
      } else {
        events := events + [ErrorDelivered(id, height)];
      }
      r := Success(());
    }

    /** The cwerrors EndBlocker: deliver the queue in id order, then prune. */
    method EndBlockErrors(runs: nat -> SudoRun) returns (r: Result<()>)
      requires EnvOk(env) && gasLimit.None?
      modifies this
      ensures Agrees(r, View(), ErrorEnd(env, old(View()), runs))
    {
      hide DeliverError, EnvOk, PruneErrors, Prunable, PruneSubscriptions, Increasing;
      ghost var start := View();
      var found := er.queue;
      var ids := Increasing(found.Keys);
      var i := 0;
      while i < |ids|
        invariant 0 <= i <= |ids| && gasLimit.None?
        invariant forall id :: id in ids ==> id in found
        invariant DeliverErrors(env, View(), ids[i..], found, runs) == DeliverErrors(env, start, ids, found, runs)
      {
        assert ids[i] in ids && ids[i..][1..] == ids[i + 1..];
        r := SudoErrorCallbackExec(ids[i], found[ids[i]], runs(ids[i]));
        if r.Failure? { return; }
        i := i + 1;
      }
      PruneSubscriptionsEndBlock();
      r := PruneErrorsCurrentBlock();
    }

    /** One whole block, its gas unmetered at the end as in the application. */
    method RunOneBlock(b: Block) returns (r: Result<()>)
      requires EnvOk(env) && gasLimit.None?
      modifies this
      ensures Agrees(r, View(), RunBlock(env, old(View()), b))
    {
      hide Handle, Deliver, SettleAll, DeliverErrors, EnvOk;
      ghost var start := View();
      var i := 0;
      while i < |b.txs|
        invariant 0 <= i <= |b.txs| && gasLimit.None?
        invariant DeliverAll(env, View(), b.txs[i..]) == DeliverAll(env, start, b.txs)
      {
        assert b.txs[i..][1..] == b.txs[i + 1..];
        var _ := DeliverTx(b.txs[i]);
        i := i + 1;
      }
      r := EndBlockCallbacks(b.callbackRuns);
      if r.Failure? { return; }
      r := EndBlockErrors(b.errorRuns);
      if r.Failure? { return; }
      height := height + 1;
      er := er.(queue := map[]);
    }
  }

  /** When all gas is within the limit, so is that of every step. */
  lemma PanicsAnywhere(env: Env, st: State, steps: seq<Step>, limit: nat)
    requires Gas(steps) <= limit
    ensures (exists i: nat :: PanicAt(env, st, steps, 0, limit, i)) <==>
            (exists i: nat :: i < |steps| && Panics(env, DeliverAll(env, st, Txs(steps[..i])), steps[i].msgs))
  {
    hide Panics, DeliverAll;
    forall i: nat | i < |steps|
      ensures PanicAt(env, st, steps, 0, limit, i) <==>
              Panics(env, DeliverAll(env, st, Txs(steps[..i])), steps[i].msgs)
    {
      GasPrefix(steps, i + 1);
    }
    if i: nat :| i < |steps| && Panics(env, DeliverAll(env, st, Txs(steps[..i])), steps[i].msgs) {
      assert PanicAt(env, st, steps, 0, limit, i);
    }
  }

  lemma {:induction false} GasPrefix(steps: seq<Step>, n: nat)
    requires n <= |steps|
    ensures Gas(steps[..n]) <= Gas(steps)
    decreases n
  {
    if n > 0 {
      GasPrefix(steps[1..], n - 1);
      assert steps[..n][1..] == steps[1..][..n - 1];
    }
  }

  // ---------------------------------------------------------------- the pruning loop

  /** The error store after the ids in `done`, all prunable, were removed from its indexes. */
  ghost predicate Pruning(env: Env, was: ErrorStore, er: ErrorStore, height: int, done: set<nat>) {
    && (forall id :: id in done ==> id in was.errors && env.decode(was.errors[id].contractAddress).Some?)
    && er == was.(
         errors := was.errors - done,
         contractErrors := (set e | e in was.contractErrors && !IsOwnEntry(env, was, done, e)),
         deletionBlocks := (set e | e in was.deletionBlocks && !(e.height == height && e.id in done)))
  }

  /** Removing one more error is the next step; an error that cannot be removed was not prunable. */
  lemma PruneStep(env: Env, was: ErrorStore, er: ErrorStore, height: int, due: set<nat>, todo: set<nat>, id: nat)
    requires due == DueIds(was, height) && todo <= due && id in todo
    requires Pruning(env, was, er, height, due - todo)
    ensures id in er.errors <==> id in was.errors
    ensures id in er.errors ==> er.errors[id] == was.errors[id]
    ensures id in er.errors && env.decode(er.errors[id].contractAddress).Some? ==>
              Pruning(env, was, Removed(env, er, height, id), height, due - (todo - {id}))
  {
    if id in er.errors && env.decode(er.errors[id].contractAddress).Some? {
      var next := Removed(env, er, height, id);
      var done := due - (todo - {id});
      assert done == (due - todo) + {id};
      assert next.errors == was.errors - done;
      assert next.contractErrors == set e | e in was.contractErrors && !IsOwnEntry(env, was, done, e);
      assert next.deletionBlocks == set e | e in was.deletionBlocks && !(e.height == height && e.id in done);
    }
  }

  function Removed(env: Env, er: ErrorStore, height: int, id: nat): (r: ErrorStore)
    requires id in er.errors && env.decode(er.errors[id].contractAddress).Some?
  {
    er.(errors := er.errors - {id},
        contractErrors := er.contractErrors - {ByContract(env.decode(er.errors[id].contractAddress).value, id)},
        deletionBlocks := er.deletionBlocks - {ByDeletion(height, id)})
  }

  lemma PruneDone(env: Env, was: ErrorStore, er: ErrorStore, height: int)
    requires Pruning(env, was, er, height, DueIds(was, height))
    ensures Prunable(env, was, height) && er == PruneErrors(env, was, height)
  {
    assert er.deletionBlocks == set e | e in was.deletionBlocks && e.height != height;
  }

  /** The ids filed under a contract, in the order the index walk meets them. */
  function IdsOf(er: ErrorStore, contract: Address): (r: seq<nat>) {
    Increasing(set e | e in er.contractErrors && e.contract == contract :: e.id)
  }

  /**
    The index query is the plain filter: in every state whose indexes agree it lists
    exactly the stored errors of the contract, each once, in increasing id order, and
    none of them is missing.
   */
  lemma IndexIsFilter(env: Env, er: ErrorStore, contract: Address)
    requires IndexesAgree(env, er)
    ensures var ids := IdsOf(er, contract);
            && (forall id :: id in ids <==>
                  id in er.errors && env.decode(er.errors[id].contractAddress) == Some(contract))
            && (forall i, j :: 0 <= i < j < |ids| ==> ids[i] < ids[j])
  {
    var filed := set e | e in er.contractErrors && e.contract == contract :: e.id;
    forall id ensures id in filed <==> id in er.errors && env.decode(er.errors[id].contractAddress) == Some(contract) {
      if id in er.errors && env.decode(er.errors[id].contractAddress) == Some(contract) {
        assert ByContract(contract, id) in er.contractErrors;
      }
    }
  }

  /**
    The query on reachable states, from genesis and for arbitrary contracts: it meets no
    missing error, and what it lists is exactly the contract's readable errors.
   */
  lemma QueryIsFilter(env: Env, st: State, blocks: seq<Block>, contract: Address)
    requires EnvOk(env) && Genesis(env, st) && st.height + |blocks| < TWO63
    requires RunBlocks(env, st, blocks).Success?
    ensures var er := RunBlocks(env, st, blocks).value.er;
            var ids := IdsOf(er, contract);
            && (forall id :: id in ids <==>
                  id in er.errors && env.decode(er.errors[id].contractAddress) == Some(contract))
            && (forall i, j :: 0 <= i < j < |ids| ==> ids[i] < ids[j])
  {
    hide RunBlocks, Genesis, ErrorLogOk, IdsOf, Traced, Once;
    GenesisIsSound(env, st);
    RunBlocksSound(env, st, blocks);
    IndexIsFilter(env, RunBlocks(env, st, blocks).value.er, contract);
  }

  lemma {:induction false} EnumerationSize<T(!new)>(order: seq<T>, s: set<T>)
    requires Enumerates(order, s)
    ensures |order| == |s|
    decreases |order|
  {
    if order == [] {
      if x :| x in s {
        assert x in order;
      }
    } else {
      var last := order[|order| - 1];
      var init := order[..|order| - 1];
      assert forall x :: x in order <==> x in init || x == last;
      assert Enumerates(init, s - {last});
      EnumerationSize(init, s - {last});
    }
  }
}
