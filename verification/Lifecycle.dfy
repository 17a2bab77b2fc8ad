/**
  Exactly-once settlement: the event log counts, for every key, its registrations and
  their ends. For arbitrary contracts the log is traced exactly: a key has one end too
  many if and only if it was cancelled while its own block was being settled. As long as
  that does not happen, and gas limits fit int64, the settlement loop always completes.
 */
module Lifecycle {
  import opened Machine
  import opened Decimal
  import opened SudoErrorCodec
  import opened Store
  import opened CallbackModule
  import opened ErrorsModule
  import opened Chain
  import opened Invariants
  import opened Settlement
  import opened Delivery

  // ---------------------------------------------------------------- counting events

  datatype Kind = Registration | Cancellation | Execution

  predicate Is(e: Event, kind: Kind, k: Key) {
    match kind
    case Registration => e.Registered? && e.key == k
    case Cancellation => e.Cancelled? && e.key == k
    case Execution => e.Executed? && e.key == k
  }

  /** How often an event of this kind was logged for the key. */
  function Times(events: seq<Event>, kind: Kind, k: Key): (r: nat) {
    if events == [] then 0 else
    Times(events[..|events| - 1], kind, k) + if Is(events[|events| - 1], kind, k) then 1 else 0
  }

  lemma TimesAppend(events: seq<Event>, e: Event, kind: Kind, k: Key)
    ensures Times(events + [e], kind, k) == Times(events, kind, k) + if Is(e, kind, k) then 1 else 0
  {
    assert (events + [e])[..|events|] == events;
  }

  /** Registrations of a key are its cancellations, its executions and the pending one. */
  ghost predicate Balanced(st: State, k: Key) {
    Times(st.events, Registration, k) ==
    Times(st.events, Cancellation, k) + Times(st.events, Execution, k) + if k in st.cb.pending then 1 else 0
  }

  /** Callbacks are registered before their height, cancelled up to it, executed at it. */
  predicate Timely(e: Event) {
    && (e.Registered? ==> e.at < e.key.height)
    && (e.Cancelled? ==> e.at <= e.key.height)
    && (e.Executed? ==> e.at == e.key.height)
  }

  /** Registrations of a key that have not ended yet. */
  function Open(events: seq<Event>, k: Key): (r: int) {
    Times(events, Registration, k) - Times(events, Cancellation, k) - Times(events, Execution, k)
  }

  /**
    At every moment of the log a key has at most one registration without an end: each
    registration is followed by its own cancellation or execution before the next one.
   */
  ghost predicate Alternates(events: seq<Event>) {
    forall n: nat, k: Key :: n <= |events| ==> 0 <= Open(events[..n], k) <= 1
  }

  /** A key was executed at most once; if it was, its height is reached and it is not pending. */
  ghost predicate AtMostOnce(st: State, k: Key) {
    && Times(st.events, Execution, k) <= 1
    && (Times(st.events, Execution, k) == 1 ==> k.height <= st.height && k !in st.cb.pending)
  }

  /** Exactly once: every registration has one end of its own, or is the pending one. */
  ghost predicate Logged(st: State) {
    && (forall k :: Balanced(st, k) && AtMostOnce(st, k))
    && (forall e :: e in st.events ==> Timely(e))
    && Alternates(st.events)
  }

  // ---------------------------------------------------------------- what holds for any contracts

  /** The key was cancelled at its own height and executed all the same. */
  ghost predicate EndedTwice(events: seq<Event>, k: Key) {
    Cancelled(k, k.height) in events && Times(events, Execution, k) >= 1
  }

  ghost predicate Once(events: seq<Event>) {
    forall k :: !EndedTwice(events, k)
  }

  /** A key that ended twice has one end too many, every other one is balanced. */
  ghost predicate TracedKey(st: State, k: Key) {
    && Open(st.events, k) == (if k in st.cb.pending then 1 else 0) - (if EndedTwice(st.events, k) then 1 else 0)
    && AtMostOnce(st, k)
    && (Cancelled(k, k.height) in st.events ==> k.height <= st.height && k !in st.cb.pending)
  }

  /** At no moment of the log there are more ends than that. */
  ghost predicate TracedUpTo(events: seq<Event>, n: nat, k: Key) {
    n <= |events| ==>
      && -1 <= Open(events[..n], k) <= 1
      && (Open(events[..n], k) >= 0 || EndedTwice(events, k))
  }

  ghost predicate Traced(st: State) {
    && (forall k :: TracedKey(st, k))
    && (forall e :: e in st.events ==> Timely(e))
    && (forall n: nat, k: Key :: TracedUpTo(st.events, n, k))
  }

  /** The exact condition on the log: it is right if and only if nothing ended twice. */
  lemma LoggedIff(st: State)
    requires Traced(st)
    ensures Logged(st) <==> Once(st.events)
  {
    hide Times;
    if Once(st.events) {
      forall k ensures Balanced(st, k) && AtMostOnce(st, k) {
        assert TracedKey(st, k);
      }
      forall n: nat, k: Key | n <= |st.events|
        ensures 0 <= Open(st.events[..n], k) <= 1
      {
        assert TracedUpTo(st.events, n, k) && !EndedTwice(st.events, k);
      }
    } else {
      var k :| EndedTwice(st.events, k);
      assert TracedKey(st, k);
      assert !Balanced(st, k);
    }
  }

  /** What the event does to the pending callbacks, and what may be executed. */
  ghost predicate Fits(st: State, next: State, e: Event, k: Key) {
    && (k in next.cb.pending <==>
          Is(e, Registration, k) || (k in st.cb.pending && !Is(e, Cancellation, k) && !Is(e, Execution, k)))
    && (Is(e, Registration, k) ==> k !in st.cb.pending && st.height < k.height)
    && (Is(e, Cancellation, k) ==> k in st.cb.pending && st.height <= k.height)
    && (Is(e, Execution, k) ==> Unended(st, k))
  }

  /** A key of the current height that the walk found and has not settled yet. */
  ghost predicate Unended(st: State, k: Key) {
    && k.height == st.height && Times(st.events, Execution, k) == 0
    && (k in st.cb.pending || Cancelled(k, k.height) in st.events)
  }

  lemma TraceKeyStep(st: State, next: State, e: Event, k: Key)
    requires TracedKey(st, k) && Fits(st, next, e, k)
    requires next.events == st.events + [e] && next.height == st.height
    requires e.Cancelled? ==> e.at == st.height
    ensures TracedKey(next, k)
    ensures EndedTwice(next.events, k) <==> EndedTwice(st.events, k) || (Is(e, Execution, k) && k !in st.cb.pending)
    ensures Unended(st, k) && !Is(e, Execution, k) ==> Unended(next, k)
  {
    TimesAppend(st.events, e, Registration, k);
    TimesAppend(st.events, e, Cancellation, k);
    TimesAppend(st.events, e, Execution, k);
    hide Times;
    var cut := Cancelled(k, k.height);
    assert cut in next.events <==> cut in st.events || e == cut;
  }

  /** One more event keeps the trace; only an execution of an entry that is gone ends a key twice. */
  lemma TraceStep(st: State, next: State, e: Event)
    requires Traced(st) && Timely(e) && next.events == st.events + [e] && next.height == st.height
    requires e.Cancelled? ==> e.at == st.height
    requires forall k :: Fits(st, next, e, k)
    ensures Traced(next)
    ensures forall k :: EndedTwice(next.events, k) <==>
              EndedTwice(st.events, k) || (Is(e, Execution, k) && k !in st.cb.pending)
    ensures forall k :: Unended(st, k) && !Is(e, Execution, k) ==> Unended(next, k)
  {
    hide Fits, TracedUpTo, EndedTwice, Unended;
    forall k
      ensures TracedKey(next, k)
      ensures EndedTwice(next.events, k) <==> EndedTwice(st.events, k) || (Is(e, Execution, k) && k !in st.cb.pending)
      ensures Unended(st, k) && !Is(e, Execution, k) ==> Unended(next, k)
    {
      assert TracedKey(st, k) && Fits(st, next, e, k);
      TraceKeyStep(st, next, e, k);
    }
    forall n: nat, k: Key
      ensures TracedUpTo(next.events, n, k)
    {
      assert TracedKey(next, k) && TracedUpTo(st.events, n, k);
      PrefixStep(st, next, e, n, k);
    }
  }

  lemma PrefixStep(st: State, next: State, e: Event, n: nat, k: Key)
    requires next.events == st.events + [e] && TracedKey(next, k) && TracedUpTo(st.events, n, k)
    ensures TracedUpTo(next.events, n, k)
  {
    TimesAppend(st.events, e, Execution, k);
    hide Times;
    if n <= |st.events| {
      assert next.events[..n] == st.events[..n];
    } else if n <= |next.events| {
      assert next.events[..n] == next.events;
    }
  }

  /** The trace goes on without a key ending twice, and a walked key leaves only by a cancellation. */
  ghost predicate Follows(st: State, next: State) {
    && Traced(next)
    && (forall k :: EndedTwice(next.events, k) <==> EndedTwice(st.events, k))
    && (forall k :: Unended(st, k) ==> Unended(next, k))
  }

  /** Without an event nothing changes, as long as heights only grow. */
  lemma SameTrace(st: State, next: State)
    requires Traced(st) && next.events == st.events && next.cb.pending == st.cb.pending && next.height >= st.height
    ensures Traced(next)
  {
    forall k ensures TracedKey(next, k) {
      assert TracedKey(st, k);
    }
  }

  /** An event that is not about callbacks, or none. */
  lemma OtherTrace(st: State, next: State)
    requires Traced(st) && next.cb.pending == st.cb.pending && next.height == st.height && LogsOne(st, next)
    requires next.events != st.events ==>
               var e := next.events[|st.events|]; !e.Registered? && !e.Cancelled? && !e.Executed?
    ensures Follows(st, next)
  {
    if next.events == st.events {
      SameTrace(st, next);
    } else {
      hide Traced, EndedTwice;
      TraceStep(st, next, next.events[|st.events|]);
    }
  }

  // ---------------------------------------------------------------- messages

  lemma ReserveTraced(env: Env, st: State, next: State, sender: Str, key: Key, fees: int)
    requires Traced(st) && key.height > st.height && Reserved(env, st, next, sender, key, fees)
    ensures Follows(st, next)
  {
    hide Send, Traced, EndedTwice, Unended;
    TraceStep(st, next, next.events[|st.events|]);
  }

  lemma CancelTraced(env: Env, st: State, sender: Str, contract: Str, job: nat, height: int)
    requires Inv(env, st) && Traced(st) && Cancel(env, st, sender, contract, job, height).Success?
    ensures Follows(st, Cancel(env, st, sender, contract, job, height).value)
  {
    hide Send, Refund, Controls, Traced, EndedTwice, Unended;
    var key := Key(height, env.decode(contract).value, job);
    assert Filed(env, st.contracts, key, st.cb.pending[key]) && key.height >= st.height;
    TraceStep(st, Cancel(env, st, sender, contract, job, height).value, Cancelled(key, st.height));
  }

  /** No message ends a key twice. */
  lemma HandleTraced(env: Env, st: State, msg: Msg)
    requires EnvOk(env) && Inv(env, st) && Traced(st) && Handle(env, st, msg).Success?
    ensures Follows(st, Handle(env, st, msg).value)
  {
    hide EstimateFees, Reserve, Reserved, Cancel, Send, Controls, Inv, Traced, Follows;
    var next := Handle(env, st, msg).value;
    if msg.RequestCallback? {
      var key := Key(msg.height, env.decode(msg.contract).value, msg.job);
      ReserveTraced(env, st, next, msg.sender, key, msg.fees);
    } else if msg.CancelCallback? {
      CancelTraced(env, st, msg.sender, msg.contract, msg.job, msg.height);
    } else {
      OneEvent(env, st, msg);
      OtherTrace(st, next);
    }
  }

  /** What transactions, Sudo calls and deliveries keep, whatever they contain. */
  ghost predicate TraceKeeps(env: Env, from: State, s: State) {
    Inv(env, s) && s.height == from.height && Traced(s) && Follows(from, s)
  }

  lemma TraceStable(env: Env, from: State)
    requires EnvOk(env)
    ensures Stable(env, (s: State) => TraceKeeps(env, from, s), Any)
  {
    hide Handle, Inv, Traced, EndedTwice, Unended;
    forall s: State, m: Msg | TraceKeeps(env, from, s) && Handle(env, s, m).Success?
      ensures TraceKeeps(env, from, Handle(env, s, m).value)
    {
      HandleKeeps(env, s, m);
      FrameKept(env, s, m);
      HandleTraced(env, s, m);
    }
  }

  // ---------------------------------------------------------------- payouts and the walk

  /** The payout of a walked key: it ends twice exactly if its entry is gone. */
  lemma PayOutTraced(env: Env, st: State, k: Key, c: Callback, gas: nat, ok: bool)
    requires Traced(st) && Unended(st, k) && RebuiltKey(env, c) == Success(k) && PayOut(env, st, c, gas, ok).Success?
    ensures var next := PayOut(env, st, c, gas, ok).value;
            && Traced(next)
            && (forall j :: EndedTwice(next.events, j) <==> EndedTwice(st.events, j) || (j == k && k !in st.cb.pending))
            && (forall j :: j != k && Unended(st, j) ==> Unended(next, j))
  {
    hide PayOut, Traced, EndedTwice;
    PayOutFrame(env, st, k, c, gas, ok);
    TraceStep(st, PayOut(env, st, c, gas, ok).value, Event.Executed(k, ok, st.height));
  }

  /** One settled callback: its key ends twice exactly if its own execution, or an earlier one, cancelled it. */
  lemma SettleTraced(env: Env, st: State, k: Key, c: Callback, run: SudoRun, n: nat)
    requires EnvOk(env) && Inv(env, st) && Short(env, st, n) && Traced(st) && Unended(st, k)
    requires Filed(env, st.contracts, k, c) && Settle(env, st, c, run).Success?
    ensures var next := Settle(env, st, c, run).value;
            var stored := k in Execute(env, st, run, c.maxGas).state.cb.pending;
            && Traced(next)
            && (forall j :: EndedTwice(next.events, j) <==> EndedTwice(st.events, j) || (j == k && !stored))
            && (forall j :: j != k && Unended(st, j) ==> Unended(next, j))
  {
    hide Execute, Settle, Inv, PayOut, SetError, Handle, Traced, EndedTwice, Unended, FailureRecord, ChargedGas;
    TraceStable(env, st);
    FollowsItself(st);
    ExecuteKeeps(env, st, run, c.maxGas, (s: State) => TraceKeeps(env, st, s), Any);
    PayStateKeeps(env, st, k, c, run, n);
    var x := Execute(env, st, run, c.maxGas);
    if x.problem.Some? {
      RaiseIsSet(env, x.state, FailureRecord(env, c, x.problem.value));
      HandleTraced(env, x.state, RaiseError(FailureRecord(env, c, x.problem.value)));
    }
    PayOutTraced(env, PayState(env, st, c, run).value, k, c, ChargedGas(env, st, c, run), x.problem.None?);
  }

  lemma FollowsItself(st: State)
    requires Traced(st)
    ensures Follows(st, st)
  {
  }

  /** Every walked callback, with fees or without, was still in the store when it was paid out. */
  ghost predicate AllStored(env: Env, st: State, keys: seq<Key>, found: map<Key, Callback>, runs: Key -> SudoRun)
    requires forall k :: k in keys ==> k in found
    decreases |keys|
  {
    keys == [] ||
    (var k := keys[0];
     && k in Execute(env, st, runs(k), found[k].maxGas).state.cb.pending
     && match Settle(env, st, found[k], runs(k))
        case Failure(_) => true
        case Success(next) => AllStored(env, next, keys[1..], found, runs))
  }

  lemma {:induction false} SettleAllTraced(env: Env, st: State, keys: seq<Key>, found: map<Key, Callback>,
                                           runs: Key -> SudoRun, n: nat)
    requires EnvOk(env) && Inv(env, st) && Short(env, st, n) && Traced(st)
    requires WalkOk(env, st, keys, found) && SettleAll(env, st, keys, found, runs).Success?
    requires forall i, j :: 0 <= i < j < |keys| ==> keys[i] != keys[j]
    requires forall k :: k in keys ==> Unended(st, k)
    ensures var next := SettleAll(env, st, keys, found, runs).value;
            && Traced(next)
            && (Once(next.events) <==> Once(st.events) && AllStored(env, st, keys, found, runs))
    decreases |keys|
  {
    hide Execute, Settle, Inv, Short, Filed, Traced, EndedTwice, Unended, Overpaid;
    if keys != [] {
      var k := keys[0];
      assert k in keys;
      SettleTraced(env, st, k, found[k], runs(k), n);
      SettleKeeps(env, st, k, found[k], runs(k), n);
      var next := Settle(env, st, found[k], runs(k)).value;
      if Once(next.events) {
        assert !EndedTwice(next.events, k);
        forall j ensures !EndedTwice(st.events, j) {
          assert !EndedTwice(next.events, j);
        }
      }
      assert forall j :: j in keys[1..] ==> j in keys && j != k;
      WalkGoesOn(env, st, next, keys[1..], found);
      SettleAllTraced(env, next, keys[1..], found, runs, n + Overpaid(env, st, k, found[k], runs(k)));
    }
  }

  /**
    Exactly once across the callback EndBlocker, both ways, for arbitrary contracts: a
    block end that starts with a right log and completes ends with one if and only if
    every due callback was still stored when it was paid out.
   */
  lemma CallbackEndOnceIff(env: Env, st: State, runs: Key -> SudoRun, n: nat)
    requires EnvOk(env) && Inv(env, st) && Short(env, st, n) && Traced(st)
    requires CallbackEnd(env, st, runs).Success?
    ensures var next := CallbackEnd(env, st, runs).value;
            && Traced(next)
            && (Logged(next) <==> Logged(st) && WalkStored(env, st, runs))
  {
    hide Execute, Settle, Traced, Filed, Logged, AllStored, SettleAll, Once;
    var due := KeysAt(st.cb.pending, st.height);
    assert Enumerates(env.walk(due), due);
    forall k | k in env.walk(due)
      ensures Unended(st, k)
    {
      PendingUnended(st, k);
    }
    SettleAllTraced(env, st, env.walk(due), st.cb.pending, runs, n);
    LoggedIff(st);
    LoggedIff(CallbackEnd(env, st, runs).value);
  }

  ghost predicate WalkStored(env: Env, st: State, runs: Key -> SudoRun)
    requires EnvOk(env)
  {
    AllStored(env, st, env.walk(KeysAt(st.cb.pending, st.height)), st.cb.pending, runs)
  }

  lemma PendingUnended(st: State, k: Key)
    requires Traced(st) && k in st.cb.pending && k.height == st.height
    ensures Unended(st, k)
  {
    assert TracedKey(st, k);
  }

  // ---------------------------------------------------------------- books

  /** Parameters under which every quote is a coin. */
  predicate ParamsOk(cb: CallbackStore) {
    cb.params.Valid() && cb.params.gasLimit < TWO63
  }

  /** Gas limits that survive the conversion to int64. */
  ghost predicate GasOk(cb: CallbackStore) {
    ParamsOk(cb) && forall k :: k in cb.pending ==> cb.pending[k].maxGas < TWO63
  }

  /** Everything settlement relies on: the invariant, exact escrow, usable gas, a right log. */
  ghost predicate Books(env: Env, st: State) {
    Inv(env, st) && EscrowExact(env, st) && GasOk(st.cb) && Traced(st) && Once(st.events)
  }

  /** The one parameter change that is accepted: by governance, and valid. */
  predicate SetsParams(env: Env, m: Msg) {
    && m.UpdateCallbackParams?
    && env.decode(m.authority).Some? && m.authority == env.authority && m.callbackParams.Valid()
  }

  /** Governance sets no gas limit beyond the int64 range; what others send does not matter. */
  predicate Modest(env: Env, m: Msg) {
    SetsParams(env, m) ==> m.callbackParams.gasLimit < TWO63
  }

  ghost predicate ModestRun(env: Env, run: SudoRun) {
    forall step, m :: step in run.steps && m in step.msgs ==> Modest(env, m)
  }

  lemma HandleBooks(env: Env, st: State, msg: Msg)
    requires EnvOk(env) && Books(env, st) && Modest(env, msg)
    requires Handle(env, st, msg).Success?
    ensures Books(env, Handle(env, st, msg).value)
  {
    hide Handle, Inv, Traced, EndedTwice, Unended;
    HandleKeeps(env, st, msg);
    HandleBalances(env, st, msg, 0);
    GasKept(env, st, msg);
    HandleTraced(env, st, msg);
  }

  lemma GasKept(env: Env, st: State, msg: Msg)
    requires GasOk(st.cb) && Modest(env, msg) && Handle(env, st, msg).Success?
    ensures GasOk(Handle(env, st, msg).value.cb)
  {
    hide Send, Refund, Controls, EstimateFees;
  }

  lemma DeliverAllBooks(env: Env, st: State, txs: seq<seq<Msg>>)
    requires EnvOk(env) && Books(env, st)
    requires forall tx, m :: tx in txs && m in tx ==> Modest(env, m)
    ensures Books(env, DeliverAll(env, st, txs))
  {
    hide Handle, Books, DeliverAll, Modest;
    forall s: State, m: Msg | Books(env, s) && Modest(env, m) && Handle(env, s, m).Success?
      ensures Books(env, Handle(env, s, m).value)
    {
      HandleBooks(env, s, m);
    }
    DeliverAllKeeps(env, st, txs, (s: State) => Books(env, s), (m: Msg) => Modest(env, m));
  }

  /** What a modest Sudo call keeps. */
  ghost predicate BooksKeep(env: Env, from: State, s: State) {
    && Books(env, s) && s.height == from.height
    && from.contracts.Keys <= s.contracts.Keys
    && DueShrinks(from.cb.pending, s.cb.pending, from.height)
  }

  lemma ExecuteBooks(env: Env, st: State, run: SudoRun, limit: nat)
    requires EnvOk(env) && Books(env, st) && ModestRun(env, run)
    ensures BooksKeep(env, st, Execute(env, st, run, limit).state)
  {
    hide Handle, Execute, Inv, Traced, GasOk, EscrowExact, Once, Modest;
    forall s: State, m: Msg | BooksKeep(env, st, s) && Modest(env, m) && Handle(env, s, m).Success?
      ensures BooksKeep(env, st, Handle(env, s, m).value)
    {
      HandleBooks(env, s, m);
      FrameKept(env, s, m);
      HandleDue(env, s, m);
    }
    ExecuteKeeps(env, st, run, limit, (s: State) => BooksKeep(env, st, s), (m: Msg) => Modest(env, m));
  }

  // ---------------------------------------------------------------- no panic

  lemma RoundNonNegative(d: int)
    requires d >= 0
    ensures RoundInt(d) >= 0
  {
  }

  lemma QuoteIsCoin(st: State, height: int)
    requires ParamsOk(st.cb)
    ensures EstimateFees(st, height) != Failure(NegativeCoin)
  {
    hide RoundInt;
    var p := st.cb.params;
    FeeNonNegative(st.gasPrice, p.gasLimit);
    if height > st.height {
      assert p.futureMultiplier * (height - st.height) >= 0;
      RoundNonNegative(p.futureMultiplier * (height - st.height));
      assert p.blockMultiplier * |KeysAt(st.cb.pending, height)| >= 0;
      RoundNonNegative(p.blockMultiplier * |KeysAt(st.cb.pending, height)|);
    }
  }

  lemma HandleNoPanic(env: Env, st: State, msg: Msg)
    requires ParamsOk(st.cb) && Modest(env, msg)
    ensures Handle(env, st, msg) != Failure(NegativeCoin)
    ensures Handle(env, st, msg).Success? ==> ParamsOk(Handle(env, st, msg).value.cb)
  {
    hide EstimateFees, Controls;
    if msg.RequestCallback? {
      QuoteIsCoin(st, msg.height);
    }
  }

  lemma {:induction false} HandleAllNoPanic(env: Env, st: State, msgs: seq<Msg>)
    requires ParamsOk(st.cb) && forall m :: m in msgs ==> Modest(env, m)
    ensures !Panics(env, st, msgs) && ParamsOk(Deliver(env, st, msgs).cb)
    decreases |msgs|
  {
    hide Handle, ParamsOk, Modest;
    if msgs != [] {
      HandleNoPanic(env, st, msgs[0]);
      if Handle(env, st, msgs[0]).Success? {
        HandleAllNoPanic(env, Handle(env, st, msgs[0]).value, msgs[1..]);
      }
    }
  }

  lemma {:induction false} StepsNoPanic(env: Env, st: State, steps: seq<Step>, used: nat, limit: nat)
    requires ParamsOk(st.cb) && forall step, m :: step in steps && m in step.msgs ==> Modest(env, m)
    ensures var b := RunSteps(env, st, steps, used, limit); !b.panicked && ParamsOk(b.state.cb)
    decreases |steps|
  {
    hide Handle, ParamsOk, HandleAll, Panics, Deliver, Modest;
    if steps != [] {
      assert steps[0] in steps && forall step :: step in steps[1..] ==> step in steps;
      HandleAllNoPanic(env, st, steps[0].msgs);
      if used + steps[0].gas <= limit {
        StepsNoPanic(env, Deliver(env, st, steps[0].msgs), steps[1..], used + steps[0].gas, limit);
      }
    }
  }

  /** As long as governance keeps the parameters modest no Sudo call panics, whatever it dispatches. */
  lemma ExecuteNoPanic(env: Env, st: State, run: SudoRun, limit: nat)
    requires ParamsOk(st.cb) && ModestRun(env, run)
    ensures var x := Execute(env, st, run, limit); !x.panicked && ParamsOk(x.state.cb)
  {
    hide RunSteps, Modest;
    StepsNoPanic(env, st, run.steps, 0, limit);
  }

  /** The error queue is delivered to the end. */
  lemma {:induction false} DeliverErrorsModest(env: Env, st: State, ids: seq<nat>, queue: map<nat, SudoError>,
                                               runs: nat -> SudoRun)
    requires ParamsOk(st.cb)
    requires forall id :: id in ids ==>
               id in queue && env.decode(queue[id].contractAddress).Some? && ModestRun(env, runs(id))
    ensures DeliverErrors(env, st, ids, queue, runs).Success?
    decreases |ids|
  {
    hide Execute, ParamsOk, ModestRun;
    if ids != [] {
      assert ids[0] in ids && forall j :: j in ids[1..] ==> j in ids;
      ExecuteNoPanic(env, st, runs(ids[0]), ERROR_CALLBACK_GAS);
      DeliverErrorsModest(env, DeliverError(env, st, ids[0], queue[ids[0]], runs(ids[0])).value, ids[1..], queue, runs);
    }
  }

  lemma FeeNonNegative(price: nat, gas: nat)
    requires gas < TWO63
    ensures TransactionFee(price, gas) >= 0
  {
    assert price * gas >= 0;
  }

  lemma RecordBooks(env: Env, st: State, err: SudoError)
    requires EnvOk(env) && Books(env, st) && SetError(env, st, err).Success?
    ensures Books(env, SetError(env, st, err).value)
  {
    hide Books, SetError;
    HandleBooks(env, st, RaiseError(err));
  }

  /**
    One due callback, with modest parameters: if it is still stored when it is paid out,
    it is settled, and the books stay right.
   */
  lemma SettleStored(env: Env, st: State, k: Key, c: Callback, run: SudoRun)
    requires EnvOk(env) && Books(env, st) && ModestRun(env, run)
    requires Filed(env, st.contracts, k, c) && k.height == st.height
    requires k in st.cb.pending ==> st.cb.pending[k] == c
    requires k in Execute(env, st, run, c.maxGas).state.cb.pending
    ensures Settle(env, st, c, run).Success? && BooksKeep(env, st, Settle(env, st, c, run).value)
  {
    hide Execute, Settle, PayState, Inv, Traced, Filed, TransactionFee, PayOut, SetError, FailureRecord, EndedTwice,
         ModestRun, ParamsOk;
    ExecuteBooks(env, st, run, c.maxGas);
    ExecuteNoPanic(env, st, run, c.maxGas);
    ExecuteIs(env, st, run, c.maxGas);
    var x := Execute(env, st, run, c.maxGas);
    FeeNonNegative(x.state.gasPrice, ChargedGas(env, st, c, run));
    OwedRemove(x.state.cb.pending, k);
    SettleExactly(env, st, k, c, run, 0);
    SettleKeeps(env, st, k, c, run, 0);
    PendingUnended(st, k);
    SettleTraced(env, st, k, c, run, 0);
    PayStateKeeps(env, st, k, c, run, 0);
    PayStateBooks(env, st, c, run);
    PayOutGas(env, PayState(env, st, c, run).value, c, ChargedGas(env, st, c, run), x.problem.None?);
  }

  lemma PayStateBooks(env: Env, st: State, c: Callback, run: SudoRun)
    requires EnvOk(env) && PayState(env, st, c, run).Success?
    requires Books(env, Execute(env, st, run, c.maxGas).state)
    ensures Books(env, PayState(env, st, c, run).value)
  {
    hide Execute, SetError, Books;
    var x := Execute(env, st, run, c.maxGas);
    if x.problem.Some? {
      RecordBooks(env, x.state, FailureRecord(env, c, x.problem.value));
    }
  }

  lemma PayOutGas(env: Env, st: State, c: Callback, gas: nat, ok: bool)
    requires GasOk(st.cb) && PayOut(env, st, c, gas, ok).Success?
    ensures GasOk(PayOut(env, st, c, gas, ok).value.cb)
  {
    hide ChargeFor, Refund, Send;
  }

  // ---------------------------------------------------------------- the walk completes

  /** As long as what is paid out is stored, the settlement loop never panics. */
  lemma {:induction false} SettleAllStored(env: Env, st: State, keys: seq<Key>, found: map<Key, Callback>,
                                           runs: Key -> SudoRun)
    requires EnvOk(env) && Books(env, st) && WalkOk(env, st, keys, found)
    requires AllStored(env, st, keys, found, runs)
    requires forall k :: k in keys ==> ModestRun(env, runs(k))
    ensures var r := SettleAll(env, st, keys, found, runs); r.Success? && BooksKeep(env, st, r.value)
    decreases |keys|
  {
    hide Books, Settle, Execute, ModestRun, Filed;
    if keys != [] {
      var k := keys[0];
      assert k in keys;
      SettleStored(env, st, k, found[k], runs(k));
      var next := Settle(env, st, found[k], runs(k)).value;
      assert forall j :: j in keys[1..] ==> j in keys;
      WalkGoesOn(env, st, next, keys[1..], found);
      SettleAllStored(env, next, keys[1..], found, runs);
    }
  }

  /** The callback EndBlocker completes, every due callback is executed in it, and the books stay right. */
  lemma CallbackEndStored(env: Env, st: State, runs: Key -> SudoRun)
    requires EnvOk(env) && Books(env, st) && WalkStored(env, st, runs)
    requires forall k :: k in KeysAt(st.cb.pending, st.height) ==> ModestRun(env, runs(k))
    ensures var r := CallbackEnd(env, st, runs);
            && r.Success? && Books(env, r.value) && r.value.height == st.height
            && forall k :: k in r.value.cb.pending ==> k.height > st.height
  {
    hide Settle, Execute, ModestRun, Traced, Filed, AllStored, EndShortfall, Once;
    var due := KeysAt(st.cb.pending, st.height);
    assert Enumerates(env.walk(due), due);
    SettleAllStored(env, st, env.walk(due), st.cb.pending, runs);
    CallbackEndKeeps(env, st, runs, 0);
  }

  // ---------------------------------------------------------------- calm contracts

  /** The call dispatches no cancellation of an entry of this height. */
  ghost predicate CalmRun(run: SudoRun, height: int) {
    forall step, m :: step in run.steps && m in step.msgs ==> CancelsOther(m, height)
  }

  ghost predicate DueKeeps(env: Env, from: State, s: State) {
    && Inv(env, s) && s.height == from.height
    && KeysAt(from.cb.pending, from.height) <= KeysAt(s.cb.pending, from.height)
  }

  lemma ExecuteCalm(env: Env, st: State, run: SudoRun, limit: nat)
    requires EnvOk(env) && Inv(env, st) && CalmRun(run, st.height)
    ensures DueKeeps(env, st, Execute(env, st, run, limit).state)
  {
    hide Handle, Execute, Inv;
    forall s: State, m: Msg | DueKeeps(env, st, s) && CancelsOther(m, st.height) && Handle(env, s, m).Success?
      ensures DueKeeps(env, st, Handle(env, s, m).value)
    {
      HandleKeeps(env, s, m);
      FrameKept(env, s, m);
      HandleDue(env, s, m);
    }
    ExecuteKeeps(env, st, run, limit, (s: State) => DueKeeps(env, st, s), (m: Msg) => CancelsOther(m, st.height));
  }

  /** If no executed callback dispatches a cancellation for its height, everything paid out is stored. */
  lemma {:induction false} CalmIsStored(env: Env, st: State, keys: seq<Key>, found: map<Key, Callback>,
                                        runs: Key -> SudoRun, n: nat)
    requires EnvOk(env) && Inv(env, st) && Short(env, st, n) && WalkOk(env, st, keys, found)
    requires forall i, j :: 0 <= i < j < |keys| ==> keys[i] != keys[j]
    requires forall k :: k in keys ==> k in st.cb.pending && CalmRun(runs(k), st.height)
    ensures AllStored(env, st, keys, found, runs)
    decreases |keys|
  {
    hide Execute, Settle, Inv, Short, Filed, CalmRun, Overpaid;
    if keys != [] {
      var k := keys[0];
      assert k in keys;
      ExecuteCalm(env, st, runs(k), found[k].maxGas);
      assert k in KeysAt(st.cb.pending, st.height);
      if Settle(env, st, found[k], runs(k)).Success? {
        SettleKeeps(env, st, k, found[k], runs(k), n);
        var next := Settle(env, st, found[k], runs(k)).value;
        forall j | j in keys[1..]
          ensures j in keys && j in next.cb.pending
        {
          assert j in keys && j != k && j in KeysAt(st.cb.pending, st.height);
        }
        WalkGoesOn(env, st, next, keys[1..], found);
        CalmIsStored(env, next, keys[1..], found, runs, n + Overpaid(env, st, k, found[k], runs(k)));
      }
    }
  }
}
