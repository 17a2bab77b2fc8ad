/**
  The escrow of x/callback: what the module account holds against what the pending
  callbacks paid, through messages, Sudo calls and the settlement loop.
 */
module Settlement {
  import opened Machine
  import opened Decimal
  import opened SudoErrorCodec
  import opened Store
  import opened CallbackModule
  import opened ErrorsModule
  import opened Chain
  import opened Invariants

  /** The module account is `n` coins short of what pending callbacks paid in. */
  ghost predicate Short(env: Env, st: State, n: nat) {
    Balance(st.bank, env.callbackAccount) + n == Owed(st.cb.pending)
  }

  /** Escrow exactness. */
  ghost predicate EscrowExact(env: Env, st: State) {
    Balance(st.bank, env.callbackAccount) == Owed(st.cb.pending)
  }

  // ---------------------------------------------------------------- messages

  lemma ReserveBalances(env: Env, st: State, next: State, sender: Str, key: Key, fees: int, n: nat)
    requires EnvOk(env) && Short(env, st, n) && Reserved(env, st, next, sender, key, fees)
    ensures Short(env, next, n)
  {
    hide Send;
    OwedAdd(st.cb.pending, key, next.cb.pending[key]);
  }

  lemma CancelBalances(env: Env, st: State, sender: Str, contract: Str, job: nat, height: int, n: nat)
    requires EnvOk(env) && Inv(env, st) && Short(env, st, n)
    requires Cancel(env, st, sender, contract, job, height).Success?
    ensures Short(env, Cancel(env, st, sender, contract, job, height).value, n)
  {
    hide Send;
    var key := Key(height, env.decode(contract).value, job);
    assert Filed(env, st.contracts, key, st.cb.pending[key]);
    OwedRemove(st.cb.pending, key);
  }

  /** A request moves exactly the offered fees from the sender into the account. */
  lemma ReservePays(env: Env, st: State, next: State, sender: Str, key: Key, fees: int)
    requires EnvOk(env) && Reserved(env, st, next, sender, key, fees)
    ensures var payer := env.decode(sender).value;
            && payer != env.callbackAccount
            && Balance(next.bank, payer) == Balance(st.bank, payer) - fees
            && Balance(next.bank, env.callbackAccount) == Balance(st.bank, env.callbackAccount) + fees
            && (forall a :: a != payer && a != env.callbackAccount ==> Balance(next.bank, a) == Balance(st.bank, a))
            && next.cb.pending[key].fees.Total() == fees
            && next.cb.pending - {key} == st.cb.pending
  {
    hide Send;
  }

  /** A cancellation pays transaction and surplus fees back and passes the others on. */
  lemma CancelSplits(env: Env, st: State, sender: Str, contract: Str, job: nat, height: int)
    requires EnvOk(env) && Inv(env, st) && Cancel(env, st, sender, contract, job, height).Success?
    ensures var next := Cancel(env, st, sender, contract, job, height).value;
            var payee := env.decode(sender).value;
            var key := Key(height, env.decode(contract).value, job);
            && key in st.cb.pending && next.cb.pending == st.cb.pending - {key}
            && var fees := st.cb.pending[key].fees;
               && Balance(next.bank, payee) == Balance(st.bank, payee) + fees.transaction + fees.surplus
               && Balance(next.bank, env.feeCollector) == Balance(st.bank, env.feeCollector) + fees.block + fees.future
               && Balance(next.bank, env.callbackAccount) == Balance(st.bank, env.callbackAccount) - fees.Total()
               && (forall a :: a != payee && a != env.feeCollector && a != env.callbackAccount ==>
                     Balance(next.bank, a) == Balance(st.bank, a))
  {
    hide Send, Controls;
    var key := Key(height, env.decode(contract).value, job);
    assert Filed(env, st.contracts, key, st.cb.pending[key]);
  }

  /** No message changes by how much the account is off. */
  lemma HandleBalances(env: Env, st: State, msg: Msg, n: nat)
    requires EnvOk(env) && Inv(env, st) && Short(env, st, n)
    requires Handle(env, st, msg).Success?
    ensures Short(env, Handle(env, st, msg).value, n)
  {
    hide Reserve, Reserved, Cancel, EstimateFees, Inv, Controls;
    match msg
    case RequestCallback(sender, contract, job, height, fees) =>
      var key := Key(height, env.decode(contract).value, job);
      ReserveBalances(env, st, Handle(env, st, msg).value, sender, key, fees, n);
    case CancelCallback(sender, contract, job, height) => CancelBalances(env, st, sender, contract, job, height, n);
    case _ =>
  }

  // ---------------------------------------------------------------- what messages do to due entries

  /** The message cancels no entry of the given height. */
  predicate CancelsOther(m: Msg, height: int) {
    m.CancelCallback? ==> m.height != height
  }

  /** Nothing is registered for the current height, and no stored value changes. */
  predicate DueShrinks(before: map<Key, Callback>, after: map<Key, Callback>, height: int) {
    forall k :: k in after && k.height <= height ==> k in before && after[k] == before[k]
  }

  lemma HandleDue(env: Env, st: State, msg: Msg)
    requires EnvOk(env) && Inv(env, st) && Handle(env, st, msg).Success?
    ensures DueShrinks(st.cb.pending, Handle(env, st, msg).value.cb.pending, st.height)
    ensures CancelsOther(msg, st.height) ==>
              forall k :: k in KeysAt(st.cb.pending, st.height) ==> k in Handle(env, st, msg).value.cb.pending
  {
    hide Handle, Inv, EnvOk;
    PendingChange(env, st, msg);
  }

  /** How a message changes the pending callbacks. */
  lemma PendingChange(env: Env, st: State, msg: Msg)
    requires EnvOk(env) && Inv(env, st) && Handle(env, st, msg).Success?
    ensures var before, after := st.cb.pending, Handle(env, st, msg).value.cb.pending;
            if msg.RequestCallback? then
              && msg.height > st.height && env.decode(msg.contract).Some?
              && var k := Key(msg.height, env.decode(msg.contract).value, msg.job);
                 k !in before && k in after && after == before[k := after[k]]
            else if msg.CancelCallback? then
              && env.decode(msg.contract).Some?
              && after == before - {Key(msg.height, env.decode(msg.contract).value, msg.job)}
            else after == before
  {
    hide Send, Controls, Refund, EnvOk, EstimateFees, Reserve;
    if msg.CancelCallback? {
      var key := Key(msg.height, env.decode(msg.contract).value, msg.job);
      assert Filed(env, st.contracts, key, st.cb.pending[key]);
    }
  }

  /** What a Sudo call keeps, whatever it dispatches. */
  ghost predicate SudoKeeps(env: Env, from: State, s: State, n: nat) {
    && Inv(env, s) && s.height == from.height && Short(env, s, n)
    && from.contracts.Keys <= s.contracts.Keys
    && DueShrinks(from.cb.pending, s.cb.pending, from.height)
  }

  lemma ExecuteBalances(env: Env, st: State, run: SudoRun, limit: nat, n: nat)
    requires EnvOk(env) && Inv(env, st) && Short(env, st, n)
    ensures SudoKeeps(env, st, Execute(env, st, run, limit).state, n)
  {
    hide Handle, Execute, Inv, Short;
    forall s: State, m: Msg | SudoKeeps(env, st, s, n) && Handle(env, s, m).Success?
      ensures SudoKeeps(env, st, Handle(env, s, m).value, n)
    {
      HandleKeeps(env, s, m);
      FrameKept(env, s, m);
      HandleBalances(env, s, m, n);
      HandleDue(env, s, m);
    }
    ExecuteKeeps(env, st, run, limit, (s: State) => SudoKeeps(env, st, s, n), Any);
  }

  lemma FrameKept(env: Env, st: State, msg: Msg)
    ensures Handle(env, st, msg).Success? ==>
              && Handle(env, st, msg).value.height == st.height
              && st.contracts.Keys <= Handle(env, st, msg).value.contracts.Keys
  {
  }

  // ---------------------------------------------------------------- payout

  /**
    Who gets a refund: the recipient, or the fee collector in place of a blocked one.
    Nobody else's balance moves but the module account's.
   */
  lemma RefundGoes(env: Env, bank: map<Address, nat>, recipient: Str, amount: nat)
    requires EnvOk(env)
    ensures var r, to := Refund(env, bank, recipient, amount), env.decode(recipient);
            && (r.Success? <==> to.Some? && amount <= Balance(bank, env.callbackAccount))
            && (r.Success? ==>
                  var payee := if to.value in env.blocked then env.feeCollector else to.value;
                  && Balance(r.value, payee) == Balance(bank, payee) + amount
                  && Balance(r.value, env.callbackAccount) == Balance(bank, env.callbackAccount) - amount
                  && forall a :: a != payee && a != env.callbackAccount ==>
                       Balance(r.value, a) == Balance(bank, a))
  {
    hide Send;
  }

  /**
    The payout panics in exactly two situations: the charged gas, read as int64, rounds
    to a negative fee, or the module account does not hold what the callback paid.
   */
  lemma PayOutCompletes(env: Env, st: State, k: Key, c: Callback, gas: nat, ok: bool)
    requires EnvOk(env) && Filed(env, st.contracts, k, c)
    ensures PayOut(env, st, c, gas, ok).Success? <==>
              TransactionFee(st.gasPrice, gas) >= 0 && c.fees.Total() <= Balance(st.bank, env.callbackAccount)
  {
    hide TransactionFee;
  }

  /** Every coin the callback paid leaves the account once: to its reserver or the collector. */
  lemma PayOutSplits(env: Env, st: State, k: Key, c: Callback, gas: nat, ok: bool)
    requires EnvOk(env) && Filed(env, st.contracts, k, c)
    requires PayOut(env, st, c, gas, ok).Success?
    ensures var fee := TransactionFee(st.gasPrice, gas);
            var refund := if fee < c.fees.transaction then c.fees.transaction - fee else 0;
            var next := PayOut(env, st, c, gas, ok).value;
            var payee := env.decode(c.reservedBy).value;
            && Nearest(fee, st.gasPrice * AsInt64(gas))
            && payee != env.feeCollector
            && Balance(next.bank, payee) == Balance(st.bank, payee) + refund
            && Balance(next.bank, env.feeCollector) ==
               Balance(st.bank, env.feeCollector) + (c.fees.Total() - refund)
            && Balance(next.bank, env.callbackAccount) ==
               Balance(st.bank, env.callbackAccount) - c.fees.Total()
            && (forall a :: a != payee && a != env.feeCollector && a != env.callbackAccount ==>
                  Balance(next.bank, a) == Balance(st.bank, a))
  {
    hide TransactionFee, Send, Nearest;
    FeeIsNearest(st.gasPrice, gas);
  }

  lemma PayOutKeeps(env: Env, st: State, k: Key, c: Callback, gas: nat, ok: bool, n: nat)
    requires EnvOk(env) && Inv(env, st) && Short(env, st, n)
    requires Filed(env, st.contracts, k, c)
    requires k in st.cb.pending ==> st.cb.pending[k] == c
    requires PayOut(env, st, c, gas, ok).Success?
    ensures var next := PayOut(env, st, c, gas, ok).value;
            && Inv(env, next) && next.height == st.height
            && next.cb.pending == st.cb.pending - {k}
            && Short(env, next, if k in st.cb.pending then n else n + c.fees.Total())
  {
    hide TransactionFee, PayOut, Inv;
    PayOutSplits(env, st, k, c, gas, ok);
    PayOutFrame(env, st, k, c, gas, ok);
    RemoveKeeps(env, st, PayOut(env, st, c, gas, ok).value, k);
    if k in st.cb.pending {
      OwedRemove(st.cb.pending, k);
    } else {
      assert st.cb.pending - {k} == st.cb.pending;
    }
  }

  // ---------------------------------------------------------------- one callback

  /** The failure record of a pending callback is always accepted, without touching money. */
  lemma RecordAccepted(env: Env, st: State, k: Key, c: Callback, p: Problem)
    requires Filed(env, st.contracts, k, c)
    ensures SetError(env, st, FailureRecord(env, c, p)).Success?
    ensures var next := SetError(env, st, FailureRecord(env, c, p)).value;
            next == st.(er := next.er, events := next.events)
  {
  }

  /** The state callbackExec pays out from, and the gas it charges. */
  function PayState(env: Env, st: State, c: Callback, run: SudoRun): (r: Result<State>) {
    var x := Execute(env, st, run, c.maxGas);
    if x.problem.None? then Success(x.state) else SetError(env, x.state, FailureRecord(env, c, x.problem.value))
  }

  function ChargedGas(env: Env, st: State, c: Callback, run: SudoRun): (r: nat) {
    var x := Execute(env, st, run, c.maxGas);
    if x.problem.None? then x.gasUsed else c.maxGas
  }

  lemma PayStateKeeps(env: Env, st: State, k: Key, c: Callback, run: SudoRun, n: nat)
    requires EnvOk(env) && Inv(env, st) && Short(env, st, n) && Filed(env, st.contracts, k, c)
    ensures PayState(env, st, c, run).Success?
    ensures SudoKeeps(env, st, PayState(env, st, c, run).value, n)
    ensures PayState(env, st, c, run).value.cb == Execute(env, st, run, c.maxGas).state.cb
    ensures Settle(env, st, c, run) ==
            if Execute(env, st, run, c.maxGas).panicked then Failure(NegativeCoin)
            else PayOut(env, PayState(env, st, c, run).value, c, ChargedGas(env, st, c, run),
                        Execute(env, st, run, c.maxGas).problem.None?)
    ensures Filed(env, PayState(env, st, c, run).value.contracts, k, c)
  {
    hide Execute, Inv, PayOut, SetError;
    ExecuteBalances(env, st, run, c.maxGas, n);
    var x := Execute(env, st, run, c.maxGas);
    if x.problem.Some? {
      RecordAccepted(env, x.state, k, c, x.problem.value);
      SetErrorKeeps(env, x.state, FailureRecord(env, c, x.problem.value));
    }
  }

  /**
    Exactly when the settlement of one callback goes through: no dispatched message
    panicked, the fee is a coin, and the account holds what the callback paid.
   */
  lemma SettleCompletes(env: Env, st: State, k: Key, c: Callback, run: SudoRun, n: nat)
    requires EnvOk(env) && Inv(env, st) && Short(env, st, n) && Filed(env, st.contracts, k, c)
    ensures var paying := PayState(env, st, c, run).value;
            Settle(env, st, c, run).Success? <==>
              && !Execute(env, st, run, c.maxGas).panicked
              && TransactionFee(paying.gasPrice, ChargedGas(env, st, c, run)) >= 0
              && c.fees.Total() <= Balance(paying.bank, env.callbackAccount)
  {
    hide Execute, Inv, PayOut, PayState, Settle;
    PayStateKeeps(env, st, k, c, run, n);
    PayOutCompletes(env, PayState(env, st, c, run).value, k, c, ChargedGas(env, st, c, run),
                    Execute(env, st, run, c.maxGas).problem.None?);
  }

  /**
    Per-callback split: from the balances after the execution, the reserver gets
    max(0, transaction fees - fee) back, where the fee is the nearest number of coins to
    price times gas, and the fee collector the rest of
    the four fees. A failed callback is charged its whole gas limit.
   */
  lemma SettleSplits(env: Env, st: State, k: Key, c: Callback, run: SudoRun, n: nat)
    requires EnvOk(env) && Inv(env, st) && Short(env, st, n) && Filed(env, st.contracts, k, c)
    requires Settle(env, st, c, run).Success?
    ensures var x := Execute(env, st, run, c.maxGas);
            var gas := if x.problem.None? then Gas(run.steps) else c.maxGas;
            var fee := TransactionFee(x.state.gasPrice, gas);
            var refund := if fee < c.fees.transaction then c.fees.transaction - fee else 0;
            var next := Settle(env, st, c, run).value;
            var payee := env.decode(c.reservedBy).value;
            && Nearest(fee, x.state.gasPrice * AsInt64(gas))
            && gas <= c.maxGas && payee !in env.blocked
            && Balance(next.bank, payee) == Balance(x.state.bank, payee) + refund
            && Balance(next.bank, env.feeCollector) ==
               Balance(x.state.bank, env.feeCollector) + (c.fees.Total() - refund)
            && (forall a :: a != payee && a != env.feeCollector && a != env.callbackAccount ==>
                  Balance(next.bank, a) == Balance(x.state.bank, a))
  {
    hide Execute, Inv, PayOut, Settle, TransactionFee, SetError, FailureRecord, Nearest;
    PayStateKeeps(env, st, k, c, run, n);
    ExecuteIs(env, st, run, c.maxGas);
    var x := Execute(env, st, run, c.maxGas);
    var paying := PayState(env, st, c, run).value;
    if x.problem.Some? {
      ExecuteBalances(env, st, run, c.maxGas, n);
      RecordAccepted(env, x.state, k, c, x.problem.value);
    }
    PayOutSplits(env, paying, k, c, ChargedGas(env, st, c, run), x.problem.None?);
  }

  lemma ModuleNames()
    ensures CALLBACK_MODULE == Ascii("callback") && CWERRORS_MODULE == Ascii("cwerrors")
  {
  }

  /**
    The failure of a callback is on record: under the next id, stored or queued by its
    contract's subscription, with the module's name, the callback's contract and message,
    the text of the failed call, and the code of its cause.
   */
  lemma FailureIsRecorded(env: Env, st: State, k: Key, c: Callback, run: SudoRun, n: nat)
    requires EnvOk(env) && Inv(env, st) && Short(env, st, n) && Filed(env, st.contracts, k, c)
    requires Settle(env, st, c, run).Success? && Execute(env, st, run, c.maxGas).problem.Some?
    ensures var p, id := Execute(env, st, run, c.maxGas).problem.value, st.er.nextId;
            var next := Settle(env, st, c, run).value;
            && next.er.nextId == id + 1
            && (if k.contract in st.er.subscriptions then id in next.er.queue else id in next.er.errors)
            && var rec := if k.contract in st.er.subscriptions then next.er.queue[id] else next.er.errors[id];
               && rec.moduleName == Ascii("callback") && rec.contractAddress == c.contract
               && rec.inputPayload == env.callbackJson(c.job) && rec.errorMessage == p.text
               && rec.errorCode == if p.executeFailed then 2 else if p.outOfGas then 1 else 0
    ensures Gas(run.steps) > c.maxGas ==>
              Execute(env, st, run, c.maxGas).problem == Some(Problem(true, false, env.outOfGasText))
  {
    ModuleNames();
    hide Execute, Inv, PayOut, Ascii;
    ExecuteIs(env, st, run, c.maxGas);
    var x := Execute(env, st, run, c.maxGas);
    RecordAccepted(env, st, k, c, x.problem.value);
    var recorded := SetError(env, st, FailureRecord(env, c, x.problem.value)).value;
    PayOutFrame(env, recorded, k, c, c.maxGas, false);
  }

  /** What one settlement adds to the shortage: the fees of an entry that is no longer stored. */
  ghost function Overpaid(env: Env, st: State, k: Key, c: Callback, run: SudoRun): (r: nat) {
    if k in Execute(env, st, run, c.maxGas).state.cb.pending then 0 else c.fees.Total()
  }

  lemma SettleKeeps(env: Env, st: State, k: Key, c: Callback, run: SudoRun, n: nat)
    requires EnvOk(env) && Inv(env, st) && Short(env, st, n)
    requires Filed(env, st.contracts, k, c) && k.height == st.height
    requires k in st.cb.pending ==> st.cb.pending[k] == c
    requires Settle(env, st, c, run).Success?
    ensures var next := Settle(env, st, c, run).value;
            && SudoKeeps(env, st, next, n + Overpaid(env, st, k, c, run))
            && k !in next.cb.pending
            && next.cb.pending == Execute(env, st, run, c.maxGas).state.cb.pending - {k}
  {
    hide Execute, Inv, PayOut, PayState, Settle;
    PayStateKeeps(env, st, k, c, run, n);
    var paying := PayState(env, st, c, run).value;
    var ok := Execute(env, st, run, c.maxGas).problem.None?;
    PayOutKeeps(env, paying, k, c, ChargedGas(env, st, c, run), ok, n);
    PayOutFrame(env, paying, k, c, ChargedGas(env, st, c, run), ok);
  }

  /** Beside money, a payout removes its entry and logs the execution. */
  lemma PayOutFrame(env: Env, st: State, k: Key, c: Callback, gas: nat, ok: bool)
    requires RebuiltKey(env, c) == Success(k) && PayOut(env, st, c, gas, ok).Success?
    ensures var next := PayOut(env, st, c, gas, ok).value;
            next == st.(bank := next.bank,
                        cb := st.cb.(pending := st.cb.pending - {k}),
                        events := st.events + [Executed(k, ok, st.height)])
  {
    hide ChargeFor, Refund, Send;
  }

  lemma RemoveKeeps(env: Env, st: State, next: State, k: Key)
    requires Inv(env, st)
    requires next == st.(bank := next.bank, cb := st.cb.(pending := st.cb.pending - {k}), events := next.events)
    ensures Inv(env, next)
  {
    hide Filed;
    assert next.er == st.er;
  }

  // ---------------------------------------------------------------- the walk

  /** The fees of the entries found by the walk that were gone when they were paid out. */
  ghost function Shortfall(env: Env, st: State, keys: seq<Key>, found: map<Key, Callback>,
                           runs: Key -> SudoRun): (r: nat)
    requires forall k :: k in keys ==> k in found
    decreases |keys|
  {
    if keys == [] then 0 else
    var k := keys[0];
    Overpaid(env, st, k, found[k], runs(k)) +
    match Settle(env, st, found[k], runs(k))
      case Failure(_) => 0
      case Success(next) => Shortfall(env, next, keys[1..], found, runs)
  }

  /** The entries still to be walked are filed, due, and unchanged where they are still stored. */
  ghost predicate WalkOk(env: Env, st: State, keys: seq<Key>, found: map<Key, Callback>) {
    && (forall k :: k in keys ==> k in found && k.height == st.height && Filed(env, st.contracts, k, found[k]))
    && (forall k :: k in keys && k in st.cb.pending ==> st.cb.pending[k] == found[k])
  }

  /**
    The whole settlement loop, for arbitrary contracts: the invariant holds, no walked
    entry is left, and the account is short by exactly the fees paid out twice.
   */
  lemma {:induction false} SettleAllKeeps(env: Env, st: State, keys: seq<Key>, found: map<Key, Callback>,
                                          runs: Key -> SudoRun, n: nat)
    requires EnvOk(env) && Inv(env, st) && Short(env, st, n)
    requires WalkOk(env, st, keys, found)
    requires SettleAll(env, st, keys, found, runs).Success?
    ensures var next := SettleAll(env, st, keys, found, runs).value;
            && SudoKeeps(env, st, next, n + Shortfall(env, st, keys, found, runs))
            && forall k :: k in keys ==> k !in next.cb.pending
    decreases |keys|
  {
    hide Execute, Inv, Settle, Overpaid, Short, Filed;
    if keys != [] {
      var k := keys[0];
      SettleKeeps(env, st, k, found[k], runs(k), n);
      var next := Settle(env, st, found[k], runs(k)).value;
      assert forall j :: j in keys[1..] ==> j in keys;
      WalkGoesOn(env, st, next, keys[1..], found);
      SettleAllKeeps(env, next, keys[1..], found, runs, n + Overpaid(env, st, k, found[k], runs(k)));
      var last := SettleAll(env, st, keys, found, runs).value;
      assert forall j :: j in keys ==> j == k || j in keys[1..];
    }
  }

  /** The callback EndBlocker settles every due entry and leaves none at or below its height. */
  lemma CallbackEndKeeps(env: Env, st: State, runs: Key -> SudoRun, n: nat)
    requires EnvOk(env) && Inv(env, st) && Short(env, st, n)
    requires CallbackEnd(env, st, runs).Success?
    ensures var next := CallbackEnd(env, st, runs).value;
            && SudoKeeps(env, st, next, n + EndShortfall(env, st, runs))
            && forall k :: k in next.cb.pending ==> k.height > st.height
  {
    hide Execute, Settle, Short, Filed, Shortfall;
    var due := KeysAt(st.cb.pending, st.height);
    assert Enumerates(env.walk(due), due);
    SettleAllKeeps(env, st, env.walk(due), st.cb.pending, runs, n);
  }

  ghost function EndShortfall(env: Env, st: State, runs: Key -> SudoRun): (r: nat)
    requires EnvOk(env)
  {
    Shortfall(env, st, env.walk(KeysAt(st.cb.pending, st.height)), st.cb.pending, runs)
  }

  /** Every walked callback with fees was still in the store when it was paid out. */
  ghost predicate StoredWhenPaid(env: Env, st: State, keys: seq<Key>, found: map<Key, Callback>, runs: Key -> SudoRun)
    requires forall k :: k in keys ==> k in found
    decreases |keys|
  {
    keys == [] ||
    (var k := keys[0];
     && (found[k].fees.Total() == 0 || k in Execute(env, st, runs(k), found[k].maxGas).state.cb.pending)
     && match Settle(env, st, found[k], runs(k))
        case Failure(_) => true
        case Success(next) => StoredWhenPaid(env, next, keys[1..], found, runs))
  }

  ghost predicate WalkPaidStored(env: Env, st: State, runs: Key -> SudoRun)
    requires EnvOk(env)
  {
    var due := KeysAt(st.cb.pending, st.height);
    assert Enumerates(env.walk(due), due);
    StoredWhenPaid(env, st, env.walk(due), st.cb.pending, runs)
  }

  lemma {:induction false} ShortfallZeroIff(env: Env, st: State, keys: seq<Key>, found: map<Key, Callback>,
                                            runs: Key -> SudoRun)
    requires forall k :: k in keys ==> k in found
    ensures Shortfall(env, st, keys, found, runs) == 0 <==> StoredWhenPaid(env, st, keys, found, runs)
    decreases |keys|
  {
    hide Execute, Settle;
    if keys != [] {
      var k := keys[0];
      var next := Settle(env, st, found[k], runs(k));
      if next.Success? {
        assert forall j :: j in keys[1..] ==> j in keys;
        ShortfallZeroIff(env, next.value, keys[1..], found, runs);
      }
    }
  }

  /**
    Escrow exactness across the EndBlocker, both ways: a block end that starts exact and
    completes ends exact if and only if every due callback with fees was still stored
    when it was paid out, that is, no contract had cancelled it during the walk.
   */
  lemma EscrowExactIff(env: Env, st: State, runs: Key -> SudoRun)
    requires EnvOk(env) && Inv(env, st) && EscrowExact(env, st)
    requires CallbackEnd(env, st, runs).Success?
    ensures EscrowExact(env, CallbackEnd(env, st, runs).value) <==> WalkPaidStored(env, st, runs)
  {
    hide SettleAll, Shortfall, StoredWhenPaid, Inv;
    CallbackEndKeeps(env, st, runs, 0);
    ShortfallZeroIff(env, st, env.walk(KeysAt(st.cb.pending, st.height)), st.cb.pending, runs);
  }

  // ---------------------------------------------------------------- when the walk completes

  /**
    What lets the walk go on at each of its entries, with the account `n` coins short: no
    dispatched message panics, the charged fee is a coin, and the shortage leaves enough
    for the fees of the entry.
   */
  ghost predicate Affordable(env: Env, st: State, keys: seq<Key>, found: map<Key, Callback>, runs: Key -> SudoRun,
                             n: nat)
    requires forall k :: k in keys ==> k in found
    decreases |keys|
  {
    keys == [] ||
    (var k := keys[0];
     && SettlesAt(env, st, found[k], runs(k), n)
     && match Settle(env, st, found[k], runs(k))
        case Failure(_) => true
        case Success(next) =>
          Affordable(env, next, keys[1..], found, runs, n + Overpaid(env, st, k, found[k], runs(k))))
  }

  ghost predicate SettlesAt(env: Env, st: State, c: Callback, run: SudoRun, n: nat) {
    var x := Execute(env, st, run, c.maxGas);
    && FeeIsCoin(env, st, c, run)
    && n + c.fees.Total() <= Owed(x.state.cb.pending)
  }

  /** No fee of this settlement is negative: none quoted to a dispatched message, nor the one charged. */
  predicate FeeIsCoin(env: Env, st: State, c: Callback, run: SudoRun) {
    var x := Execute(env, st, run, c.maxGas);
    !x.panicked && TransactionFee(x.state.gasPrice, ChargedGas(env, st, c, run)) >= 0
  }

  /** Exactly when one settlement goes through, by the shortage of the account. */
  lemma SettleExactly(env: Env, st: State, k: Key, c: Callback, run: SudoRun, n: nat)
    requires EnvOk(env) && Inv(env, st) && Short(env, st, n) && Filed(env, st.contracts, k, c)
    ensures Settle(env, st, c, run).Success? <==> SettlesAt(env, st, c, run, n)
  {
    hide Execute, Inv, PayOut, Settle, TransactionFee, Filed, PayState, ChargedGas;
    PayStateKeeps(env, st, k, c, run, n);
    SettleCompletes(env, st, k, c, run, n);
    PayStatePrice(env, st, k, c, run, n);
  }

  lemma PayStatePrice(env: Env, st: State, k: Key, c: Callback, run: SudoRun, n: nat)
    requires EnvOk(env) && Inv(env, st) && Short(env, st, n) && Filed(env, st.contracts, k, c)
    ensures PayState(env, st, c, run).Success?
    ensures PayState(env, st, c, run).value.gasPrice == Execute(env, st, run, c.maxGas).state.gasPrice
  {
    hide Execute, Inv, SetError, FailureRecord;
    ExecuteBalances(env, st, run, c.maxGas, n);
    var x := Execute(env, st, run, c.maxGas);
    if x.problem.Some? {
      RecordAccepted(env, x.state, k, c, x.problem.value);
    }
  }

  lemma {:induction false} SettleAllCompletesIff(env: Env, st: State, keys: seq<Key>, found: map<Key, Callback>,
                                                 runs: Key -> SudoRun, n: nat)
    requires EnvOk(env) && Inv(env, st) && Short(env, st, n) && WalkOk(env, st, keys, found)
    ensures SettleAll(env, st, keys, found, runs).Success? <==> Affordable(env, st, keys, found, runs, n)
    decreases |keys|
  {
    hide Execute, Inv, Settle, Short, Filed, SettlesAt, Overpaid;
    if keys != [] {
      var k := keys[0];
      assert k in keys;
      SettleExactly(env, st, k, found[k], runs(k), n);
      if Settle(env, st, found[k], runs(k)).Success? {
        SettleKeeps(env, st, k, found[k], runs(k), n);
        var next := Settle(env, st, found[k], runs(k)).value;
        assert forall j :: j in keys[1..] ==> j in keys;
        WalkGoesOn(env, st, next, keys[1..], found);
        SettleAllCompletesIff(env, next, keys[1..], found, runs, n + Overpaid(env, st, k, found[k], runs(k)));
      }
    }
  }

  lemma WalkGoesOn(env: Env, st: State, next: State, keys: seq<Key>, found: map<Key, Callback>)
    requires WalkOk(env, st, keys, found)
    requires st.contracts.Keys <= next.contracts.Keys && next.height == st.height
    requires DueShrinks(st.cb.pending, next.cb.pending, st.height)
    ensures WalkOk(env, next, keys, found)
  {
  }

  ghost predicate WalkAffordable(env: Env, st: State, runs: Key -> SudoRun, n: nat)
    requires EnvOk(env)
  {
    var due := KeysAt(st.cb.pending, st.height);
    assert Enumerates(env.walk(due), due);
    Affordable(env, st, env.walk(due), st.cb.pending, runs, n)
  }

  /**
    When the chain stops, for arbitrary contracts and whatever was cancelled: the
    EndBlocker completes if and only if it can afford every entry of its walk.
   */
  lemma CallbackEndCompletesIff(env: Env, st: State, runs: Key -> SudoRun, n: nat)
    requires EnvOk(env) && Inv(env, st) && Short(env, st, n)
    ensures CallbackEnd(env, st, runs).Success? <==> WalkAffordable(env, st, runs, n)
  {
    hide Execute, Settle, Filed, Affordable;
    var due := KeysAt(st.cb.pending, st.height);
    assert Enumerates(env.walk(due), due);
    SettleAllCompletesIff(env, st, env.walk(due), st.cb.pending, runs, n);
  }

  /** No fee of the walk is negative, as long as it goes on. */
  ghost predicate FeesPayable(env: Env, st: State, keys: seq<Key>, found: map<Key, Callback>, runs: Key -> SudoRun)
    requires forall k :: k in keys ==> k in found
    decreases |keys|
  {
    keys == [] ||
    (var k := keys[0];
     && FeeIsCoin(env, st, found[k], runs(k))
     && match Settle(env, st, found[k], runs(k))
        case Failure(_) => true
        case Success(next) => FeesPayable(env, next, keys[1..], found, runs))
  }

  /** As long as what is paid out is stored, an exact account can afford it. */
  lemma {:induction false} FeesDecide(env: Env, st: State, keys: seq<Key>, found: map<Key, Callback>,
                                      runs: Key -> SudoRun)
    requires EnvOk(env) && Inv(env, st) && Short(env, st, 0) && WalkOk(env, st, keys, found)
    requires StoredWhenPaid(env, st, keys, found, runs)
    ensures Affordable(env, st, keys, found, runs, 0) <==> FeesPayable(env, st, keys, found, runs)
    decreases |keys|
  {
    hide Execute, Inv, Settle, Short, Filed, FeeIsCoin;
    if keys != [] {
      var k := keys[0];
      assert k in keys;
      var c, x := found[k], Execute(env, st, runs(k), found[k].maxGas);
      ExecuteBalances(env, st, runs(k), c.maxGas, 0);
      if k in x.state.cb.pending {
        OwedRemove(x.state.cb.pending, k);
      }
      if Settle(env, st, c, runs(k)).Success? {
        SettleKeeps(env, st, k, c, runs(k), 0);
        var next := Settle(env, st, c, runs(k)).value;
        assert forall j :: j in keys[1..] ==> j in keys;
        WalkGoesOn(env, st, next, keys[1..], found);
        FeesDecide(env, next, keys[1..], found, runs);
      }
    }
  }

  /**
    From exact escrow, with every due callback still stored when it is paid out, the
    EndBlocker completes if and only if no quoted or charged fee is negative.
   */
  lemma ExactEndCompletesIff(env: Env, st: State, runs: Key -> SudoRun)
    requires EnvOk(env) && Inv(env, st) && EscrowExact(env, st) && WalkPaidStored(env, st, runs)
    ensures CallbackEnd(env, st, runs).Success? <==>
              FeesPayable(env, st, env.walk(KeysAt(st.cb.pending, st.height)), st.cb.pending, runs)
  {
    hide Execute, Settle, Filed, Affordable, FeesPayable, SettleAll;
    var due := KeysAt(st.cb.pending, st.height);
    assert Enumerates(env.walk(due), due);
    CallbackEndCompletesIff(env, st, runs, 0);
    FeesDecide(env, st, env.walk(due), st.cb.pending, runs);
  }
}
