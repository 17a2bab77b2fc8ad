/**
  x/cwerrors: recording an error, subscribing to errors, and the two prunings. Each
  operation is given as one atomic step on the error store.
 */
module ErrorsModule {
  import opened Machine
  import opened SudoErrorCodec
  import opened Store
  import opened CallbackModule

  // ---------------------------------------------------------------- errors

  /** StoreErrorInState: one new id, entered in all three indexes, and the event of it. */
  function StoreError(st: State, contract: Address, err: SudoError): (r: State) {
    var er := st.er;
    st.(
      events := st.events + [ErrorStored(er.nextId, err, er.params.storedTime, st.height)],
      er := er.(
        nextId := er.nextId + 1,
        errors := er.errors[er.nextId := err],
        contractErrors := er.contractErrors + {ByContract(contract, er.nextId)},
        deletionBlocks := er.deletionBlocks + {ByDeletion(Wrap64(st.height + er.params.storedTime), er.nextId)}))
  }

  /** storeErrorCallback: one new id in the transient queue. */
  function QueueError(st: State, err: SudoError): (r: State) {
    var er := st.er;
    st.(
      events := st.events + [ErrorQueued(er.nextId, err, st.height)],
      er := er.(nextId := er.nextId + 1, queue := er.queue[er.nextId := err]))
  }

  /** SetError: stored for contracts without a subscription, queued for the others. */
  function SetError(env: Env, st: State, err: SudoError): (r: Result<State>) {
    if env.decode(err.contractAddress).None? then Failure(InvalidAddress)
    else if err.moduleName == [] then Failure(ModuleNameMissing)
    else
      var contract := env.decode(err.contractAddress).value;
      if contract !in st.contracts then Failure(ContractNotFound)
      else if contract in st.er.subscriptions then Success(QueueError(st, err))
      else Success(StoreError(st, contract, err))
  }

  /** The ids that the deletion index files under one height. */
  function DueIds(er: ErrorStore, height: int): (r: set<nat>) {
    set e | e in er.deletionBlocks && e.height == height :: e.id
  }

  /** Every due error is stored and names a contract, so the pruning loop meets no error. */
  predicate Prunable(env: Env, er: ErrorStore, height: int) {
    forall id :: id in DueIds(er, height) ==>
      id in er.errors && env.decode(er.errors[id].contractAddress).Some?
  }

  /** PruneErrorsCurrentBlock: the due errors leave with the index entries they name. */
  function PruneErrors(env: Env, er: ErrorStore, height: int): (r: ErrorStore) {
    var due := DueIds(er, height);
    er.(errors := er.errors - due,
        contractErrors := (set e | e in er.contractErrors && !IsOwnEntry(env, er, due, e)),
        deletionBlocks := (set e | e in er.deletionBlocks && e.height != height))
  }

  /** The contract entry that a due error's own contract address rebuilds. */
  predicate IsOwnEntry(env: Env, er: ErrorStore, due: set<nat>, e: ByContract) {
    e.id in due && e.id in er.errors && env.decode(er.errors[e.id].contractAddress) == Some(e.contract)
  }

  // ---------------------------------------------------------------- subscriptions

  function Max(a: int, b: int): (r: int) {
    if a >= b then a else b
  }

  /** GetSubscription's end height: 0 when there is none. */
  function EndHeight(er: ErrorStore, contract: Address): (r: int) {
    if contract in er.subscriptions then er.subscriptions[contract] else 0
  }

  /** SetSubscription with its rollback: a renewal extends what is left. */
  function Subscribe(env: Env, st: State, sender: Str, contract: Str, fee: int): (r: Result<State>) {
    if env.decode(sender).None? || env.decode(contract).None? then Failure(InvalidAddress)
    else
      var addr := env.decode(contract).value;
      var er := st.er;
      if addr !in st.contracts then Failure(ContractNotFound)
      else if !Controls(env, st, addr, env.encode(env.decode(sender).value)) then Failure(Unauthorized)
      else if fee != er.params.fee || fee < 0 then Failure(IncorrectSubscriptionFee)
      else
        var bank :- Send(st.bank, env.decode(sender).value, env.feeCollector, fee);
        var end := Wrap64(Max(st.height, EndHeight(er, addr)) + er.params.period);
        Success(st.(
          bank := bank,
          events := st.events + [Subscribed(addr, er.params.period, st.height)],
          er := SubscribedUntil(er, addr, end)))
  }

  /** The new end replaces the old one in both indexes. */
  function SubscribedUntil(er: ErrorStore, addr: Address, end: int): (r: ErrorStore) {
    er.(subscriptions := er.subscriptions[addr := end],
        subscriptionEnds := (set e | e in er.subscriptionEnds &&
                                     (addr in er.subscriptions ==> e != ByEnd(er.subscriptions[addr], addr)))
                            + {ByEnd(end, addr)})
  }

  /** PruneSubscriptionsEndBlock: exactly the subscriptions ending now are dropped. */
  function PruneSubscriptions(er: ErrorStore, height: int): (r: ErrorStore) {
    var ending := set e | e in er.subscriptionEnds && e.height == height :: e.contract;
    er.(subscriptions := er.subscriptions - ending,
        subscriptionEnds := (set e | e in er.subscriptionEnds && e.height != height))
  }

  /** UpdateParams of x/cwerrors. */
  function UpdateErrorParams(env: Env, st: State, authority: Str, params: ErrorParams): (r: Result<State>) {
    if env.decode(authority).None? then Failure(InvalidAddress)
    else if authority != env.authority then Failure(Unauthorized)
    else if !params.Valid() then Failure(InvalidParams)
    else Success(st.(er := st.er.(params := params)))
  }
}
