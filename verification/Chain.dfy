/**
  The chain around the modules: messages and transactions with rollback, the
  gas-limited executor, the two EndBlockers in the application's order, and runs of
  whole blocks.
 */
module Chain {
  import opened Machine
  import opened SudoErrorCodec
  import opened Store
  import opened CallbackModule
  import opened ErrorsModule
  import opened FeeGrants

  // ---------------------------------------------------------------- messages

  datatype Msg =
    | RequestCallback(sender: Str, contract: Str, job: nat, height: int, fees: int)
    | CancelCallback(sender: Str, contract: Str, job: nat, height: int)
    | UpdateCallbackParams(authority: Str, callbackParams: CallbackParams)
    | SubscribeToError(sender: Str, contract: Str, fee: int)
    | UpdateErrorsParams(authority: Str, errorParams: ErrorParams)
    | RegisterAsGranter(contract: Str)
    | UnregisterAsGranter(contract: Str)
    // What other modules do: report an error, move the gas price, change a balance
    // other than the callback account's, add or reconfigure a contract.
    | RaiseError(err: SudoError)
    | SetGasPrice(price: nat)
    | SetBalance(account: Address, balance: nat)
    | SetContract(address: Address, info: ContractInfo)

  /** One message; a failure is rolled back by the caller. */
  function Handle(env: Env, st: State, msg: Msg): (r: Result<State>) {
    match msg
    case RequestCallback(sender, contract, job, height, fees) => Request(env, st, sender, contract, job, height, fees)
    case CancelCallback(sender, contract, job, height) => Cancel(env, st, sender, contract, job, height)
    case UpdateCallbackParams(authority, params) => UpdateParams(env, st, authority, params)
    case SubscribeToError(sender, contract, fee) =>
      // Nobody holds a key for the callback account, so it never signs a message.
      if env.decode(sender) == Some(env.callbackAccount) then Failure(Unauthorized)
      else Subscribe(env, st, sender, contract, fee)
    case UpdateErrorsParams(authority, params) => UpdateErrorParams(env, st, authority, params)
    case RegisterAsGranter(contract) => Register(env, st, contract)
    case UnregisterAsGranter(contract) => Unregister(env, st, contract)
    case RaiseError(err) => SetError(env, st, err)
    case SetGasPrice(price) => Success(st.(gasPrice := price))
    case SetBalance(account, balance) =>
      if account == env.callbackAccount then Failure(Unauthorized)
      else Success(st.(bank := st.bank[account := balance]))
    case SetContract(address, info) => Success(st.(contracts := st.contracts[address := info]))
  }

  /** The messages of one transaction, which succeed or fail together. */
  function HandleAll(env: Env, st: State, msgs: seq<Msg>): (r: Result<State>)
    decreases |msgs|
  {
    if msgs == [] then Success(st) else
    var next :- Handle(env, st, msgs[0]);
    HandleAll(env, next, msgs[1..])
  }

  /** One transaction with its rollback. */
  function Deliver(env: Env, st: State, tx: seq<Msg>): (r: State) {
    match HandleAll(env, st, tx)
    case Success(next) => next
    case Failure(_) => st
  }

  function DeliverAll(env: Env, st: State, txs: seq<seq<Msg>>): (r: State)
    decreases |txs|
  {
    if txs == [] then st else DeliverAll(env, Deliver(env, st, txs[0]), txs[1..])
  }

  // ---------------------------------------------------------------- executor

  /** One stretch of a contract's run: gas, then a dispatched message batch. */
  datatype Step = Step(gas: nat, msgs: seq<Msg>)

  /** A failed call reports what kind of error it wraps, and its text. */
  datatype Verdict = Succeeds | Fails(problem: Problem)

  /** What one Sudo call does, for an arbitrary contract. */
  datatype SudoRun = SudoRun(steps: seq<Step>, verdict: Verdict)

  datatype Branch = Branch(state: State, used: nat, outOfGas: bool, panicked: bool)

  datatype Problem = Problem(outOfGas: bool, executeFailed: bool, text: Str)

  /** A call that panicked has no result; the state is then the caller's. */
  datatype Outcome = Outcome(state: State, gasUsed: nat, problem: Option<Problem>, panicked: bool)

  /** The one panic a message raises: NewCoin on a negative quote. A transaction recovers from it. */
  predicate Panics(env: Env, st: State, msgs: seq<Msg>) {
    HandleAll(env, st, msgs) == Failure(NegativeCoin)
  }

  const ERR_UNKNOWN: int := 0
  const ERR_OUT_OF_GAS: int := 1
  const ERR_CONTRACT_EXECUTION_FAILED: int := 2

  /**
    The body on the branched context: the meter panics once it is over its limit, and a
    panic of a dispatched message ends the body.
   */
  function RunSteps(env: Env, st: State, steps: seq<Step>, used: nat, limit: nat): (r: Branch)
    decreases |steps|
  {
    if steps == [] then Branch(st, used, false, false)
    else if used + steps[0].gas > limit then Branch(st, used + steps[0].gas, true, false)
    else if Panics(env, st, steps[0].msgs) then Branch(st, used + steps[0].gas, false, true)
    else RunSteps(env, Deliver(env, st, steps[0].msgs), steps[1..], used + steps[0].gas, limit)
  }

  /**
    ExecuteWithGasLimit: commit on success, drop the branch on any failure. Only the
    meter's own panic is caught.
   */
  function Execute(env: Env, st: State, run: SudoRun, limit: nat): (r: Outcome) {
    var branch := RunSteps(env, st, run.steps, 0, limit);
    if branch.panicked then
      Outcome(st, branch.used, Some(Problem(false, false, [])), true)
    else if branch.outOfGas then
      Outcome(st, branch.used, Some(Problem(true, false, env.outOfGasText)), false)
    else match run.verdict
      case Fails(problem) => Outcome(st, branch.used, Some(problem), false)
      case Succeeds => Outcome(branch.state, branch.used, None, false)
  }

  // ---------------------------------------------------------------- callback EndBlocker

  const CALLBACK_MODULE: Str := [99, 97, 108, 108, 98, 97, 99, 107]
  const CWERRORS_MODULE: Str := [99, 119, 101, 114, 114, 111, 114, 115]

  /** The later check wins, as in callbackExec. */
  function ErrorCode(p: Problem): (r: int) {
    if p.executeFailed then ERR_CONTRACT_EXECUTION_FAILED
    else if p.outOfGas then ERR_OUT_OF_GAS
    else ERR_UNKNOWN
  }

  function FailureRecord(env: Env, callback: Callback, p: Problem): (r: SudoError) {
    SudoError(CALLBACK_MODULE, ErrorCode(p), callback.contract, env.callbackJson(callback.job), p.text)
  }

  /** callbackExec; a failure is the panic that stops the chain. */
  function Settle(env: Env, st: State, callback: Callback, run: SudoRun): (r: Result<State>) {
    if env.decode(callback.contract).None? then Failure(InvalidAddress) else
    var x := Execute(env, st, run, callback.maxGas);
    if x.panicked then Failure(NegativeCoin) else
    match x.problem
    case None => PayOut(env, x.state, callback, x.gasUsed, true)
    case Some(p) =>
      var recorded :- SetError(env, x.state, FailureRecord(env, callback, p));
      PayOut(env, recorded, callback, callback.maxGas, false)
  }

  /** The walk: its entries are the ones found when it started. */
  function SettleAll(env: Env, st: State, keys: seq<Key>, found: map<Key, Callback>, runs: Key -> SudoRun)
    : (r: Result<State>)
    requires forall k :: k in keys ==> k in found
    decreases |keys|
  {
    if keys == [] then Success(st) else
    var next :- Settle(env, st, found[keys[0]], runs(keys[0]));
    SettleAll(env, next, keys[1..], found, runs)
  }

  // ---------------------------------------------------------------- cwerrors EndBlocker

  const ERROR_CALLBACK_GAS: nat := 150_000
  const ERR_CALLBACK_EXECUTION_FAILED: int := 1

  /** The record stored when the error callback itself failed: it carries the error. */
  function CarriedBy(env: Env, err: SudoError, text: Str): (r: SudoError) {
    SudoError(CWERRORS_MODULE, ERR_CALLBACK_EXECUTION_FAILED, err.contractAddress, env.errorJson(err), text)
  }

  function NoteDelivered(st: State, id: nat): (r: State) {
    st.(events := st.events + [ErrorDelivered(id, st.height)])
  }

  function NoteCarried(st: State, id: nat, record: nat): (r: State) {
    st.(events := st.events + [ErrorCarried(id, record, st.height)])
  }

  /** sudoErrorCallbackExec. */
  function DeliverError(env: Env, st: State, id: nat, err: SudoError, run: SudoRun): (r: Result<State>) {
    if env.decode(err.contractAddress).None? then Failure(InvalidAddress) else
    var x := Execute(env, st, run, ERROR_CALLBACK_GAS);
    if x.panicked then Failure(NegativeCoin) else
    match x.problem
    case None => Success(NoteDelivered(x.state, id))
    case Some(p) =>
      var carried := StoreError(x.state, env.decode(err.contractAddress).value, CarriedBy(env, err, p.text));
      Success(NoteCarried(carried, id, x.state.er.nextId))
  }

  function DeliverErrors(env: Env, st: State, ids: seq<nat>, queue: map<nat, SudoError>, runs: nat -> SudoRun)
    : (r: Result<State>)
    requires forall id :: id in ids ==> id in queue
    decreases |ids|
  {
    if ids == [] then Success(st) else
    var next :- DeliverError(env, st, ids[0], queue[ids[0]], runs(ids[0]));
    DeliverErrors(env, next, ids[1..], queue, runs)
  }

  predicate IsMax(s: set<nat>, m: nat) {
    m in s && forall x :: x in s ==> x <= m
  }

  lemma {:induction false} MaxExists(s: set<nat>)
    requires s != {}
    ensures exists m :: IsMax(s, m)
  {
    var m :| m in s;
    var rest := s - {m};
    if rest == {} {
      assert s == {m} && IsMax(s, m);
    } else {
      MaxExists(rest);
      var n :| IsMax(rest, n);
      assert forall x :: x in s ==> x == m || x in rest;
      assert IsMax(s, if m > n then m else n);
    }
  }

  /** The members of `s` in increasing order. */
  function Increasing(s: set<nat>): (r: seq<nat>)
    ensures forall x :: x in r <==> x in s
    ensures forall i, j :: 0 <= i < j < |r| ==> r[i] < r[j]
  {
    if s == {} then [] else
    MaxExists(s);
    var m :| IsMax(s, m);
    var below := Increasing(s - {m});
    Extends(below, s, m);
    below + [m]
  }

  lemma Extends(below: seq<nat>, s: set<nat>, m: nat)
    requires IsMax(s, m)
    requires forall x :: x in below <==> x in s - {m}
    requires forall i, j :: 0 <= i < j < |below| ==> below[i] < below[j]
    ensures forall x :: x in below + [m] <==> x in s
    ensures var r := below + [m]; forall i, j :: 0 <= i < j < |r| ==> r[i] < r[j]
  {
    assert forall i :: 0 <= i < |below| ==> below[i] in below;
  }

  /** The two prunings, in the EndBlocker's order. */
  function Prune(env: Env, st: State): (r: State) {
    st.(er := PruneErrors(env, PruneSubscriptions(st.er, st.height), st.height))
  }

  // ---------------------------------------------------------------- blocks

  /** The transactions of a block and what each Sudo call of its end does. */
  datatype Block = Block(txs: seq<seq<Msg>>, callbackRuns: Key -> SudoRun, errorRuns: nat -> SudoRun)

  /** The callback EndBlocker: every callback due at this height. */
  function CallbackEnd(env: Env, st: State, runs: Key -> SudoRun): (r: Result<State>)
    requires EnvOk(env)
  {
    SettleAll(env, st, env.walk(KeysAt(st.cb.pending, st.height)), st.cb.pending, runs)
  }

  /** The cwerrors EndBlocker: deliver in id order, then prune both stores. */
  function ErrorEnd(env: Env, st: State, runs: nat -> SudoRun): (r: Result<State>) {
    var delivered :- DeliverErrors(env, st, Increasing(st.er.queue.Keys), st.er.queue, runs);
    if Prunable(env, PruneSubscriptions(delivered.er, delivered.height), delivered.height)
    then Success(Prune(env, delivered))
    else Failure(MissingError)
  }

  /** The next block starts one higher with an empty transient store. */
  function NextHeight(st: State): (r: State) {
    st.(height := st.height + 1, er := st.er.(queue := map[]))
  }

  /** One block: transactions, callback EndBlocker, cwerrors EndBlocker, commit. */
  function RunBlock(env: Env, st: State, b: Block): (r: Result<State>)
    requires EnvOk(env)
  {
    var settled :- CallbackEnd(env, DeliverAll(env, st, b.txs), b.callbackRuns);
    var ended :- ErrorEnd(env, settled, b.errorRuns);
    Success(NextHeight(ended))
  }

  function RunBlocks(env: Env, st: State, blocks: seq<Block>): (r: Result<State>)
    requires EnvOk(env)
    decreases |blocks|
  {
    if blocks == [] then Success(st) else
    var next :- RunBlock(env, st, blocks[0]);
    RunBlocks(env, next, blocks[1..])
  }

  // ---------------------------------------------------------------- executor laws

  function Gas(steps: seq<Step>): (r: nat) {
    if steps == [] then 0 else steps[0].gas + Gas(steps[1..])
  }

  function Txs(steps: seq<Step>): (r: seq<seq<Msg>>) {
    if steps == [] then [] else [steps[0].msgs] + Txs(steps[1..])
  }

  lemma {:induction false} RunStepsIs(env: Env, st: State, steps: seq<Step>, used: nat, limit: nat)
    requires used <= limit
    ensures var b := RunSteps(env, st, steps, used, limit);
            b.panicked ||
            if used + Gas(steps) <= limit
            then b == Branch(DeliverAll(env, st, Txs(steps)), used + Gas(steps), false, false)
            else b.outOfGas && limit < b.used <= used + Gas(steps)
    decreases |steps|
  {
    hide HandleAll;
    if steps != [] && used + steps[0].gas <= limit && !Panics(env, st, steps[0].msgs) {
      RunStepsIs(env, Deliver(env, st, steps[0].msgs), steps[1..], used + steps[0].gas, limit);
      assert Txs(steps)[1..] == Txs(steps[1..]);
    }
  }

  /** Step `i` is reached within the limit, and its messages panic on the state they meet. */
  predicate PanicAt(env: Env, st: State, steps: seq<Step>, used: nat, limit: nat, i: nat) {
    && i < |steps|
    && used + Gas(steps[..i + 1]) <= limit
    && Panics(env, DeliverAll(env, st, Txs(steps[..i])), steps[i].msgs)
  }

  /** The same step seen from behind the first one. */
  lemma PanicShift(env: Env, st: State, steps: seq<Step>, used: nat, limit: nat, i: nat)
    requires steps != [] && 1 <= i
    ensures PanicAt(env, st, steps, used, limit, i) <==>
            PanicAt(env, Deliver(env, st, steps[0].msgs), steps[1..], used + steps[0].gas, limit, i - 1)
  {
    hide Panics, Deliver;
    if i < |steps| {
      var head, rest := steps[0], steps[1..];
      assert steps[..i + 1] == [head] + rest[..i] && steps[..i] == [head] + rest[..i - 1];
      assert ([head] + rest[..i])[1..] == rest[..i] && ([head] + rest[..i - 1])[1..] == rest[..i - 1];
      assert Txs(steps[..i])[1..] == Txs(rest[..i - 1]);
    }
  }

  lemma {:induction false} RunStepsPanics(env: Env, st: State, steps: seq<Step>, used: nat, limit: nat)
    requires used <= limit
    ensures RunSteps(env, st, steps, used, limit).panicked <==>
              exists i: nat :: PanicAt(env, st, steps, used, limit, i)
    decreases |steps|
  {
    hide Panics, Deliver, Gas, Txs, DeliverAll;
    if steps == [] {
      assert forall i: nat :: !PanicAt(env, st, steps, used, limit, i);
    } else {
      hide PanicAt;
      var next, used' := Deliver(env, st, steps[0].msgs), used + steps[0].gas;
      PanicFirst(env, st, steps, used, limit);
      if used' <= limit && !Panics(env, st, steps[0].msgs) {
        RunStepsPanics(env, next, steps[1..], used', limit);
        if j: nat :| PanicAt(env, next, steps[1..], used', limit, j) {
          PanicShift(env, st, steps, used, limit, j + 1);
        }
        if i: nat :| PanicAt(env, st, steps, used, limit, i) {
          PanicShift(env, st, steps, used, limit, i);
        }
      }
    }
  }

  lemma FirstPrefix(steps: seq<Step>)
    requires steps != []
    ensures Gas(steps[..1]) == steps[0].gas && Txs(steps[..0]) == []
  {
    var one := steps[..1];
    assert one[1..] == [];
    assert Gas(one) == one[0].gas + Gas(one[1..]);
  }

  /** A panic within the limit needs the first step within it, which may be the one that panics. */
  lemma PanicFirst(env: Env, st: State, steps: seq<Step>, used: nat, limit: nat)
    requires steps != []
    ensures PanicAt(env, st, steps, used, limit, 0) <==>
              used + steps[0].gas <= limit && Panics(env, st, steps[0].msgs)
    ensures forall i: nat :: PanicAt(env, st, steps, used, limit, i) ==> used + steps[0].gas <= limit
  {
    hide Panics;
    FirstPrefix(steps);
    assert DeliverAll(env, st, Txs(steps[..0])) == st;
    forall i: nat | PanicAt(env, st, steps, used, limit, i)
      ensures used + steps[0].gas <= limit
    {
      assert steps[..i + 1][0] == steps[0];
    }
  }

  /**
    The executor against its reference: it panics exactly when some step within the limit
    does. Otherwise the metered run goes through exactly when the body needs no more gas
    than the limit; then it is the body run without a meter, and in every failing case the
    state is the caller's and the problem is the contract's own, or that gas ran out.
   */
  lemma ExecuteIs(env: Env, st: State, run: SudoRun, limit: nat)
    ensures var x := Execute(env, st, run, limit);
            && (x.panicked <==> exists i: nat :: PanicAt(env, st, run.steps, 0, limit, i))
            && (x.problem.None? <==> !x.panicked && Gas(run.steps) <= limit && run.verdict.Succeeds?)
            && (x.problem.None? ==> x.state == DeliverAll(env, st, Txs(run.steps)))
            && (x.problem.Some? ==> x.state == st)
            && (!x.panicked && Gas(run.steps) <= limit ==>
                  && x.gasUsed == Gas(run.steps)
                  && x.problem == if run.verdict.Fails? then Some(run.verdict.problem) else None)
            && (!x.panicked && Gas(run.steps) > limit ==>
                  && limit < x.gasUsed <= Gas(run.steps)
                  && x.problem == Some(Problem(true, false, env.outOfGasText)))
  {
    hide PanicAt;
    RunStepsIs(env, st, run.steps, 0, limit);
    RunStepsPanics(env, st, run.steps, 0, limit);
  }

  // ---------------------------------------------------------------- induction over messages

  /** `keeps` survives every successful message that satisfies `allowed`. */
  ghost predicate Stable(env: Env, keeps: State -> bool, allowed: Msg -> bool) {
    forall s: State, m: Msg ::
      keeps(s) && allowed(m) && Handle(env, s, m).Success? ==> keeps(Handle(env, s, m).value)
  }

  lemma {:induction false} HandleAllKeeps(env: Env, st: State, msgs: seq<Msg>, keeps: State -> bool,
                                          allowed: Msg -> bool)
    requires Stable(env, keeps, allowed) && keeps(st)
    requires forall m :: m in msgs ==> allowed(m)
    ensures HandleAll(env, st, msgs).Success? ==> keeps(HandleAll(env, st, msgs).value)
    decreases |msgs|
  {
    hide Handle;
    if msgs != [] && Handle(env, st, msgs[0]).Success? {
      HandleAllKeeps(env, Handle(env, st, msgs[0]).value, msgs[1..], keeps, allowed);
    }
  }

  /** A property of single messages is one of whole transaction lists, rollbacks included. */
  lemma {:induction false} DeliverAllKeeps(env: Env, st: State, txs: seq<seq<Msg>>, keeps: State -> bool,
                                           allowed: Msg -> bool)
    requires Stable(env, keeps, allowed) && keeps(st)
    requires forall tx, m :: tx in txs && m in tx ==> allowed(m)
    ensures keeps(DeliverAll(env, st, txs))
    decreases |txs|
  {
    hide Handle, HandleAll;
    if txs != [] {
      HandleAllKeeps(env, st, txs[0], keeps, allowed);
      DeliverAllKeeps(env, Deliver(env, st, txs[0]), txs[1..], keeps, allowed);
    }
  }

  /** ... and of whatever a Sudo call dispatches. */
  lemma ExecuteKeeps(env: Env, st: State, run: SudoRun, limit: nat, keeps: State -> bool, allowed: Msg -> bool)
    requires Stable(env, keeps, allowed) && keeps(st)
    requires RunOnly(run, allowed)
    ensures keeps(Execute(env, st, run, limit).state)
  {
    hide Handle, HandleAll;
    ExecuteIs(env, st, run, limit);
    TxsOnly(run.steps, allowed);
    DeliverAllKeeps(env, st, Txs(run.steps), keeps, allowed);
  }

  /** Every message the run dispatches is allowed. */
  ghost predicate RunOnly(run: SudoRun, allowed: Msg -> bool) {
    forall step, m :: step in run.steps && m in step.msgs ==> allowed(m)
  }

  lemma TxsOnly(steps: seq<Step>, allowed: Msg -> bool)
    requires forall step, m :: step in steps && m in step.msgs ==> allowed(m)
    ensures forall tx, m :: tx in Txs(steps) && m in tx ==> allowed(m)
  {
    if steps != [] {
      TxsOnly(steps[1..], allowed);
    }
  }

  // ---------------------------------------------------------------- induction over block ends

  /** `keeps` survives the payout of any callback. */
  ghost predicate PayStable(env: Env, keeps: State -> bool) {
    forall s: State, c: Callback, gas: nat, ok: bool ::
      keeps(s) && PayOut(env, s, c, gas, ok).Success? ==> keeps(PayOut(env, s, c, gas, ok).value)
  }

  /** `keeps` survives what the error EndBlocker does itself: a record and its notes. */
  ghost predicate DeliveryStable(env: Env, keeps: State -> bool) {
    && (forall s: State, contract: Address, err: SudoError ::
          keeps(s) && env.decode(err.contractAddress) == Some(contract) ==> keeps(StoreError(s, contract, err)))
    && (forall s: State, id: nat :: keeps(s) ==> keeps(NoteDelivered(s, id)))
    && (forall s: State, id: nat, record: nat :: keeps(s) ==> keeps(NoteCarried(s, id, record)))
  }

  lemma {:induction false} SettleAllPreserves(env: Env, st: State, keys: seq<Key>, found: map<Key, Callback>,
                                              runs: Key -> SudoRun, keeps: State -> bool, allowed: Msg -> bool)
    requires Stable(env, keeps, allowed) && PayStable(env, keeps) && keeps(st)
    requires forall e :: allowed(RaiseError(e))
    requires forall k :: k in keys ==> k in found && RunOnly(runs(k), allowed)
    ensures SettleAll(env, st, keys, found, runs).Success? ==> keeps(SettleAll(env, st, keys, found, runs).value)
    decreases |keys|
  {
    hide Execute, Handle, PayOut, RunOnly;
    if keys != [] && Settle(env, st, found[keys[0]], runs(keys[0])).Success? {
      var c, run := found[keys[0]], runs(keys[0]);
      ExecuteKeeps(env, st, run, c.maxGas, keeps, allowed);
      var x := Execute(env, st, run, c.maxGas);
      if x.problem.Some? {
        RaiseIsSet(env, x.state, FailureRecord(env, c, x.problem.value));
        assert allowed(RaiseError(FailureRecord(env, c, x.problem.value)));
      }
      var next := Settle(env, st, c, run).value;
      assert keeps(next);
      assert forall j :: j in keys[1..] ==> j in keys;
      SettleAllPreserves(env, next, keys[1..], found, runs, keeps, allowed);
    }
  }

  lemma RaiseIsSet(env: Env, st: State, err: SudoError)
    ensures Handle(env, st, RaiseError(err)) == SetError(env, st, err)
  {
  }

  lemma {:induction false} DeliverErrorsPreserves(env: Env, st: State, ids: seq<nat>, queue: map<nat, SudoError>,
                                                  runs: nat -> SudoRun, keeps: State -> bool, allowed: Msg -> bool)
    requires Stable(env, keeps, allowed) && DeliveryStable(env, keeps) && keeps(st)
    requires forall id :: id in ids ==> id in queue && RunOnly(runs(id), allowed)
    ensures DeliverErrors(env, st, ids, queue, runs).Success? ==> keeps(DeliverErrors(env, st, ids, queue, runs).value)
    decreases |ids|
  {
    hide Execute, Handle, StoreError, RunOnly;
    if ids != [] && DeliverError(env, st, ids[0], queue[ids[0]], runs(ids[0])).Success? {
      var id := ids[0];
      ExecuteKeeps(env, st, runs(id), ERROR_CALLBACK_GAS, keeps, allowed);
      var x := Execute(env, st, runs(id), ERROR_CALLBACK_GAS);
      ExecuteHeight(env, st, runs(id), ERROR_CALLBACK_GAS);
      var next := DeliverError(env, st, id, queue[id], runs(id)).value;
      if x.problem.None? {
        assert next == NoteDelivered(x.state, id);
      } else {
        var rec := CarriedBy(env, queue[id], x.problem.value.text);
        var carried := StoreError(x.state, env.decode(rec.contractAddress).value, rec);
        assert keeps(carried) && next == NoteCarried(carried, id, x.state.er.nextId);
      }
      assert keeps(next);
      assert forall j :: j in ids[1..] ==> j in ids;
      DeliverErrorsPreserves(env, next, ids[1..], queue, runs, keeps, allowed);
    }
  }

  lemma ExecuteHeight(env: Env, st: State, run: SudoRun, limit: nat)
    ensures Execute(env, st, run, limit).state.height == st.height
  {
    hide Execute;
    forall s: State, m: Msg | s.height == st.height && Handle(env, s, m).Success?
      ensures Handle(env, s, m).value.height == st.height
    {
      hide EstimateFees, Send, Refund, Controls;
    }
    ExecuteKeeps(env, st, run, limit, (s: State) => s.height == st.height, (m: Msg) => true);
  }

  /** A property kept by messages, payouts and deliveries holds when the block is pruned. */
  lemma BlockPreserves(env: Env, st: State, b: Block, keeps: State -> bool, allowed: Msg -> bool)
    requires EnvOk(env) && Stable(env, keeps, allowed) && PayStable(env, keeps) && DeliveryStable(env, keeps)
    requires keeps(st) && BlockOnly(b, allowed) && forall e :: allowed(RaiseError(e))
    ensures keeps(DeliverAll(env, st, b.txs))
    ensures AtErrorEnd(env, st, b).Success? ==> keeps(AtErrorEnd(env, st, b).value)
    ensures RunBlock(env, st, b).Success? ==> BeforePruning(env, st, b).Success?
    ensures RunBlock(env, st, b).Success? ==> keeps(BeforePruning(env, st, b).value)
    ensures RunBlock(env, st, b).Success? ==>
              RunBlock(env, st, b).value == NextHeight(Prune(env, BeforePruning(env, st, b).value))
  {
    hide Execute, Handle, Settle, DeliverError, DeliverAll, SettleAll;
    var s1 := DeliverAll(env, st, b.txs);
    DeliverAllKeeps(env, st, b.txs, keeps, allowed);
    if CallbackEnd(env, s1, b.callbackRuns).Success? {
      var due := KeysAt(s1.cb.pending, s1.height);
      assert Enumerates(env.walk(due), due);
      SettleAllPreserves(env, s1, env.walk(due), s1.cb.pending, b.callbackRuns, keeps, allowed);
      var s2 := CallbackEnd(env, s1, b.callbackRuns).value;
      DeliverErrorsPreserves(env, s2, Increasing(s2.er.queue.Keys), s2.er.queue, b.errorRuns, keeps, allowed);
    }
  }

  /** The state of a block from which the error EndBlocker starts. */
  function AtErrorEnd(env: Env, st: State, b: Block): (r: Result<State>)
    requires EnvOk(env)
  {
    CallbackEnd(env, DeliverAll(env, st, b.txs), b.callbackRuns)
  }

  /** The state of a block when the error queue has been delivered. */
  function BeforePruning(env: Env, st: State, b: Block): (r: Result<State>)
    requires EnvOk(env)
  {
    var settled :- AtErrorEnd(env, st, b);
    DeliverErrors(env, settled, Increasing(settled.er.queue.Keys), settled.er.queue, b.errorRuns)
  }

  /** Every message of the block, dispatched ones included, is allowed. */
  ghost predicate BlockOnly(b: Block, allowed: Msg -> bool) {
    && (forall tx, m :: tx in b.txs && m in tx ==> allowed(m))
    && (forall k: Key :: RunOnly(b.callbackRuns(k), allowed))
    && (forall id: nat :: RunOnly(b.errorRuns(id), allowed))
  }
}
