/**
  What every reachable state keeps: callbacks are filed under the key their value
  rebuilds, the three error indexes agree, the two subscription indexes agree, the
  transient queue is disjoint from the store. Proved for every message, then for every
  transaction list and every Sudo call.
 */
module Invariants {
  import opened Machine
  import opened SudoErrorCodec
  import opened Store
  import opened CallbackModule
  import opened ErrorsModule
  import opened FeeGrants
  import opened Chain

  // ---------------------------------------------------------------- invariants

  /** A pending callback is stored under the key rebuilt from its value and can be paid out. */
  predicate Filed(env: Env, contracts: map<Address, ContractInfo>, k: Key, c: Callback) {
    && RebuiltKey(env, c) == Success(k)
    && k.contract in contracts
    && env.decode(c.reservedBy).Some?
    && env.decode(c.reservedBy).value !in env.blocked
  }

  ghost predicate CallbacksOk(env: Env, cb: CallbackStore, contracts: map<Address, ContractInfo>, height: int) {
    && cb.params.Valid()
    && forall k :: k in cb.pending ==> k.height >= height && Filed(env, contracts, k, cb.pending[k])
  }

  /** A deletion or end height is still to come, or its int64 sum wrapped around. */
  predicate Ahead(at: int, height: int) {
    at >= height || at < 0
  }

  /** An id is in Errors iff it has one contract entry, its own, and one deletion entry. */
  ghost predicate IndexesAgree(env: Env, er: ErrorStore) {
    && (forall id :: id in er.errors ==>
          && id < er.nextId
          && env.decode(er.errors[id].contractAddress).Some?
          && ByContract(env.decode(er.errors[id].contractAddress).value, id) in er.contractErrors
          && exists d :: ByDeletion(d, id) in er.deletionBlocks)
    && (forall e :: e in er.contractErrors ==>
          e.id in er.errors && env.decode(er.errors[e.id].contractAddress) == Some(e.contract))
    && (forall e :: e in er.deletionBlocks ==> e.id in er.errors)
    && (forall e, f :: e in er.deletionBlocks && f in er.deletionBlocks && e.id == f.id ==> e == f)
  }

  ghost predicate DeletionsAhead(er: ErrorStore, height: int) {
    && er.params.Valid()
    && forall e :: e in er.deletionBlocks ==> Ahead(e.height, height)
  }

  ghost predicate QueueOk(env: Env, er: ErrorStore, contracts: map<Address, ContractInfo>) {
    forall id :: id in er.queue ==>
      && id < er.nextId && id !in er.errors
      && er.queue[id].moduleName != []
      && env.decode(er.queue[id].contractAddress).Some?
      && env.decode(er.queue[id].contractAddress).value in contracts
  }

  /** (h, a) is in SubscriptionEndBlock iff ContractSubscriptions[a] == h. */
  ghost predicate SubscriptionsAgree(er: ErrorStore) {
    && (forall a :: a in er.subscriptions ==> ByEnd(er.subscriptions[a], a) in er.subscriptionEnds)
    && (forall e :: e in er.subscriptionEnds ==>
          e.contract in er.subscriptions && er.subscriptions[e.contract] == e.height)
  }

  ghost predicate EndsAhead(er: ErrorStore, height: int) {
    forall a :: a in er.subscriptions ==> IsInt64(er.subscriptions[a]) && Ahead(er.subscriptions[a], height)
  }

  ghost predicate GrantersOk(env: Env, st: State) {
    forall a :: a in st.granters ==> a in st.contracts && ValidAddress(env, a)
  }

  ghost predicate Inv(env: Env, st: State) {
    && 0 <= st.height < TWO63
    && CallbacksOk(env, st.cb, st.contracts, st.height)
    && IndexesAgree(env, st.er)
    && DeletionsAhead(st.er, st.height)
    && QueueOk(env, st.er, st.contracts)
    && SubscriptionsAgree(st.er)
    && EndsAhead(st.er, st.height)
    && GrantersOk(env, st)
  }

  // ---------------------------------------------------------------- callbacks

  lemma ReserveKeeps(env: Env, st: State, next: State, sender: Str, key: Key, fees: int)
    requires EnvOk(env) && Inv(env, st) && key.height > st.height
    requires Reserved(env, st, next, sender, key, fees)
    ensures Inv(env, next)
  {
    hide Send;
  }

  lemma CancelKeeps(env: Env, st: State, sender: Str, contract: Str, job: nat, height: int)
    requires EnvOk(env) && Inv(env, st)
    requires Cancel(env, st, sender, contract, job, height).Success?
    ensures Inv(env, Cancel(env, st, sender, contract, job, height).value)
  {
    hide Send, Refund;
  }

  // ---------------------------------------------------------------- errors

  lemma StoreErrorKeeps(env: Env, st: State, contract: Address, err: SudoError)
    requires Inv(env, st) && env.decode(err.contractAddress) == Some(contract)
    ensures Inv(env, StoreError(st, contract, err))
    ensures StoreError(st, contract, err).height == st.height
  {
    var next := StoreError(st, contract, err).er;
    var d := Wrap64(st.height + st.er.params.storedTime);
    assert ByDeletion(d, st.er.nextId) in next.deletionBlocks;
    forall id | id in next.errors
      ensures exists d :: ByDeletion(d, id) in next.deletionBlocks
    {
      if id != st.er.nextId {
        var d0 :| ByDeletion(d0, id) in st.er.deletionBlocks;
        assert ByDeletion(d0, id) in next.deletionBlocks;
      }
    }
    assert IndexesAgree(env, next);
  }

  lemma SetErrorKeeps(env: Env, st: State, err: SudoError)
    requires Inv(env, st)
    requires SetError(env, st, err).Success?
    ensures Inv(env, SetError(env, st, err).value)
  {
    var contract := env.decode(err.contractAddress).value;
    if contract !in st.er.subscriptions {
      StoreErrorKeeps(env, st, contract, err);
    } else {
      var next := SetError(env, st, err).value;
      assert next.er.errors == st.er.errors && next.er.deletionBlocks == st.er.deletionBlocks;
      assert IndexesAgree(env, next.er);
    }
  }

  lemma SubscribeKeeps(env: Env, st: State, sender: Str, contract: Str, fee: int)
    requires Inv(env, st)
    requires Subscribe(env, st, sender, contract, fee).Success?
    ensures Inv(env, Subscribe(env, st, sender, contract, fee).value)
  {
    hide Send, Controls;
    var next := Subscribe(env, st, sender, contract, fee).value;
    assert next.er.errors == st.er.errors && next.er.deletionBlocks == st.er.deletionBlocks;
    assert IndexesAgree(env, next.er);
  }

  // ---------------------------------------------------------------- all messages

  /** Every successful message keeps the invariant. */
  lemma HandleKeeps(env: Env, st: State, msg: Msg)
    requires EnvOk(env) && Inv(env, st)
    requires Handle(env, st, msg).Success?
    ensures Inv(env, Handle(env, st, msg).value)
  {
    hide EstimateFees, Reserve, Reserved, Cancel, Subscribe, SetError;
    match msg
    case RequestCallback(sender, contract, job, height, fees) =>
      var key := Key(height, env.decode(contract).value, job);
      ReserveKeeps(env, st, Handle(env, st, msg).value, sender, key, fees);
    case CancelCallback(sender, contract, job, height) => CancelKeeps(env, st, sender, contract, job, height);
    case SubscribeToError(sender, contract, fee) => SubscribeKeeps(env, st, sender, contract, fee);
    case RaiseError(err) => SetErrorKeeps(env, st, err);
    case _ => OtherKeeps(env, st, msg);
  }

  lemma OtherKeeps(env: Env, st: State, msg: Msg)
    requires EnvOk(env) && Inv(env, st)
    requires Handle(env, st, msg).Success?
    requires !msg.RequestCallback? && !msg.CancelCallback? && !msg.SubscribeToError? && !msg.RaiseError?
    ensures Inv(env, Handle(env, st, msg).value)
  {
    hide Request, Cancel, Subscribe, SetError;
    var next := Handle(env, st, msg).value;
    assert next.er.errors == st.er.errors && next.er.deletionBlocks == st.er.deletionBlocks;
    assert IndexesAgree(env, next.er);
  }

  ghost predicate Any(m: Msg) {
    true
  }

  lemma InvStable(env: Env, height: int)
    requires EnvOk(env)
    ensures Stable(env, (s: State) => Inv(env, s) && s.height == height, Any)
  {
    hide Inv;
    forall s: State, m: Msg | Inv(env, s) && Handle(env, s, m).Success?
      ensures Inv(env, Handle(env, s, m).value) && Handle(env, s, m).value.height == s.height
    {
      HandleKeeps(env, s, m);
    }
  }

  /** Whatever a Sudo call dispatches, under any gas limit, keeps the invariant. */
  lemma ExecuteKeepsInv(env: Env, st: State, run: SudoRun, limit: nat)
    requires EnvOk(env) && Inv(env, st)
    ensures Inv(env, Execute(env, st, run, limit).state)
    ensures Execute(env, st, run, limit).state.height == st.height
  {
    hide Inv, Execute, Handle;
    InvStable(env, st.height);
    ExecuteKeeps(env, st, run, limit, (s: State) => Inv(env, s) && s.height == st.height, Any);
  }

  lemma DeliverAllKeepsInv(env: Env, st: State, txs: seq<seq<Msg>>)
    requires EnvOk(env) && Inv(env, st)
    ensures Inv(env, DeliverAll(env, st, txs))
    ensures DeliverAll(env, st, txs).height == st.height
  {
    hide Inv, Handle, DeliverAll;
    InvStable(env, st.height);
    DeliverAllKeeps(env, st, txs, (s: State) => Inv(env, s) && s.height == st.height, Any);
  }
}
