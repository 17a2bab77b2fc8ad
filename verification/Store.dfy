/**
  The state the modules share: the committed stores of x/callback, x/cwerrors and
  x/cwfees, the balances of one denom, and what the chain offers them (addresses,
  contracts, the gas price). The event log records what happened, in order.
 */
module Store {
  import opened Machine
  import opened SudoErrorCodec

  type Address = seq<Byte>

  datatype Error =
    | InvalidAddress
    | ContractNotFound
    | Unauthorized
    | CallbackExists
    | CallbackNotFound
    | HeightNotInFuture
    | HeightTooFarInFuture
    | BlockFilled
    | InsufficientFees
    | InsufficientFunds
    | NegativeCoin
    | InvalidParams
    | IncorrectSubscriptionFee
    | ModuleNameMissing
    | MissingError
    | NotAContract
    | AlreadyGranter
    | NotAGranter
    | DuplicateGranter
    | SudoFailed
    | OutOfGas

  datatype Result<+T> = Success(value: T) | Failure(error: Error) {
    predicate IsFailure() { Failure? }
    function PropagateFailure<U>(): (r: Result<U>)
      requires Failure?
    {
      Failure(error)
    }
    function Extract(): (r: T)
      requires Success?
    {
      value
    }
  }

  // ---------------------------------------------------------------- entities

  /** The key of a pending callback: height, contract bytes, job id. */
  datatype Key = Key(height: int, contract: Address, job: nat)

  datatype FeeSplit = FeeSplit(transaction: nat, block: nat, future: nat, surplus: nat) {
    function Total(): (r: nat) {
      transaction + block + future + surplus
    }
  }

  datatype Callback = Callback(
    contract: Str,
    height: int,
    job: nat,
    reservedBy: Str,
    fees: FeeSplit,
    maxGas: nat)

  datatype CallbackParams = CallbackParams(
    gasLimit: nat,
    maxBlock: nat,
    maxFuture: nat,
    blockMultiplier: int,
    futureMultiplier: int)
  {
    /** Params.Validate, with the uint64 range of the fields. */
    predicate Valid() {
      0 < gasLimit < TWO64 && maxBlock < TWO64 && maxFuture < TWO64 &&
      blockMultiplier >= 0 && futureMultiplier >= 0
    }
  }

  datatype ErrorParams = ErrorParams(storedTime: int, fee: int, period: int) {
    /** Params.Validate, with the int64 range of the fields. */
    predicate Valid() {
      0 < storedTime < TWO63 && fee >= 0 && 0 < period < TWO63
    }
  }

  /** What the wasm and rewards keepers know about a contract. */
  datatype ContractInfo = ContractInfo(admin: Str, owner: Option<Str>)

  datatype ByContract = ByContract(contract: Address, id: nat)
  datatype ByDeletion = ByDeletion(height: int, id: nat)
  datatype ByEnd = ByEnd(height: int, contract: Address)

  datatype ErrorStore = ErrorStore(
    params: ErrorParams,
    nextId: nat,
    errors: map<nat, SudoError>,
    contractErrors: set<ByContract>,
    deletionBlocks: set<ByDeletion>,
    subscriptions: map<Address, int>,
    subscriptionEnds: set<ByEnd>,
    queue: map<nat, SudoError>)

  datatype CallbackStore = CallbackStore(params: CallbackParams, pending: map<Key, Callback>)

  datatype Event =
    | Registered(key: Key, fees: FeeSplit, maxGas: nat, price: nat, at: int)
    | Cancelled(key: Key, at: int)
    | Executed(key: Key, ok: bool, at: int)
    | LimitSet(limit: nat, at: int)
    | ErrorQueued(id: nat, err: SudoError, at: int)
    | ErrorStored(id: nat, err: SudoError, storedTime: int, at: int)
    | ErrorDelivered(id: nat, at: int)
    | ErrorCarried(id: nat, record: nat, at: int)
    | Subscribed(contract: Address, period: int, at: int)

  datatype State = State(
    height: int,
    gasPrice: nat,
    bank: map<Address, nat>,
    contracts: map<Address, ContractInfo>,
    cb: CallbackStore,
    er: ErrorStore,
    granters: set<Address>,
    events: seq<Event>)

  // ---------------------------------------------------------------- environment

  /**
    What is fixed for a chain: bech32 decoding and encoding, case folding, JSON
    encodings, the store's iteration orders, the blocked module accounts.
   */
  datatype Env = Env(
    decode: Str -> Option<Address>,
    encode: Address -> Str,
    equalFold: (Str, Str) -> bool,
    errorJson: SudoError -> Str,
    callbackJson: nat -> Str,
    walk: set<Key> -> seq<Key>,
    walkGranters: set<Address> -> seq<Address>,
    blocked: set<Address>,
    callbackAccount: Address,
    feeCollector: Address,
    authority: Str,
    outOfGasText: Str)

  /** `order` lists every element of `s` exactly once. */
  ghost predicate Enumerates<T(!new)>(order: seq<T>, s: set<T>) {
    && (forall x :: x in order <==> x in s)
    && (forall i, j :: 0 <= i < j < |order| ==> order[i] != order[j])
  }

  /** What the libraries promise: encoding inverts decoding, walks visit every key once. */
  ghost predicate EnvOk(env: Env) {
    && (forall s: Str :: env.decode(s).Some? ==> ValidAddress(env, env.decode(s).value))
    && (forall s: set<Key> :: Enumerates(env.walk(s), s))
    && (forall s: set<Address> :: Enumerates(env.walkGranters(s), s))
    && env.callbackAccount in env.blocked
    && env.feeCollector in env.blocked
    && env.callbackAccount != env.feeCollector
  }

  predicate ValidAddress(env: Env, a: Address) {
    env.decode(env.encode(a)) == Some(a)
  }

  // ---------------------------------------------------------------- bank

  function Balance(bank: map<Address, nat>, a: Address): (r: nat) {
    if a in bank then bank[a] else 0
  }

  /** Moves `amount` coins; fails when the payer does not hold them. */
  function Send(bank: map<Address, nat>, payer: Address, payee: Address, amount: nat)
    : (r: Result<map<Address, nat>>)
    ensures r.Success? <==> amount <= Balance(bank, payer)
    ensures r.Success? && payer != payee ==>
              && Balance(r.value, payer) == Balance(bank, payer) - amount
              && Balance(r.value, payee) == Balance(bank, payee) + amount
    ensures r.Success? ==> forall a :: a != payer && a != payee ==> Balance(r.value, a) == Balance(bank, a)
  {
    if Balance(bank, payer) < amount then Failure(InsufficientFunds) else
    var taken := bank[payer := Balance(bank, payer) - amount];
    Success(taken[payee := Balance(taken, payee) + amount])
  }

  // ---------------------------------------------------------------- sums and counts

  /** The coins owed to, or on behalf of, all pending callbacks. */
  ghost function Owed(pending: map<Key, Callback>): (r: nat)
    decreases |pending|
  {
    if pending == map[] then 0 else
    var k :| k in pending;
    pending[k].fees.Total() + Owed(pending - {k})
  }

  lemma {:induction false} OwedRemove(pending: map<Key, Callback>, k: Key)
    requires k in pending
    ensures Owed(pending) == pending[k].fees.Total() + Owed(pending - {k})
    decreases |pending|
  {
    var k0 :| k0 in pending && Owed(pending) == pending[k0].fees.Total() + Owed(pending - {k0});
    if k0 != k {
      OwedRemove(pending - {k0}, k);
      OwedRemove(pending - {k}, k0);
      assert pending - {k0} - {k} == pending - {k} - {k0};
    }
  }

  lemma OwedAdd(pending: map<Key, Callback>, k: Key, cb: Callback)
    requires k !in pending
    ensures Owed(pending[k := cb]) == cb.fees.Total() + Owed(pending)
  {
    OwedRemove(pending[k := cb], k);
    assert pending[k := cb] - {k} == pending;
  }

  /** The keys of the callbacks registered for one height. */
  function KeysAt(pending: map<Key, Callback>, height: int): (r: set<Key>) {
    set k | k in pending && k.height == height
  }
}
