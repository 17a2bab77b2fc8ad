/**
  The life of an error: once accepted it is stored or queued, a queued one is delivered
  or carried by a stored record, a stored one stays until its deletion height and is
  gone after it.
 */
module Delivery {
  import opened Machine
  import opened SudoErrorCodec
  import opened Store
  import opened CallbackModule
  import opened ErrorsModule
  import opened FeeGrants
  import opened Chain
  import opened Invariants
  import opened Settlement

  // ---------------------------------------------------------------- growth

  /** Between prunings the error store only grows, and only with fresh ids. */
  ghost predicate Grows(a: ErrorStore, b: ErrorStore) {
    && a.nextId <= b.nextId
    && (forall id :: id in a.errors ==> id in b.errors && b.errors[id] == a.errors[id])
    && (forall id :: id in b.errors ==> id in a.errors || id >= a.nextId)
    && (forall id :: id in a.queue ==> id in b.queue && b.queue[id] == a.queue[id])
    && (forall id :: id in b.queue ==> id in a.queue || id >= a.nextId)
    && (forall e :: e in a.deletionBlocks ==> e in b.deletionBlocks)
    && (forall e :: e in b.deletionBlocks ==> e in a.deletionBlocks || e.id >= a.nextId)
  }

  lemma HandleGrows(env: Env, st: State, msg: Msg)
    requires Inv(env, st)
    ensures Handle(env, st, msg).Success? ==> Grows(st.er, Handle(env, st, msg).value.er)
  {
    hide Handle, Inv;
    if Handle(env, st, msg).Success? {
      if msg.RaiseError? {
        RaiseGrows(env, st, msg.err);
      } else {
        OthersKeepErrors(env, st, msg);
      }
    }
  }

  lemma RaiseGrows(env: Env, st: State, err: SudoError)
    requires Inv(env, st) && Handle(env, st, RaiseError(err)).Success?
    ensures Grows(st.er, Handle(env, st, RaiseError(err)).value.er)
  {
    hide Inv, Handle;
    FreshId(env, st);
    RaiseIsSet(env, st, err);
  }

  lemma FreshId(env: Env, st: State)
    requires Inv(env, st)
    ensures st.er.nextId !in st.er.errors && st.er.nextId !in st.er.queue
  {
  }

  /** Only a reported error touches the error store's contents. */
  lemma OthersKeepErrors(env: Env, st: State, msg: Msg)
    requires !msg.RaiseError? && Handle(env, st, msg).Success?
    ensures var a, b := st.er, Handle(env, st, msg).value.er;
            && b.nextId == a.nextId && b.errors == a.errors && b.queue == a.queue
            && b.contractErrors == a.contractErrors && b.deletionBlocks == a.deletionBlocks
  {
    hide EstimateFees, Send, Refund, Controls, Admit;
  }

  /** An accepted error is queued if its contract is subscribed, and stored otherwise, never both. */
  lemma QueuedIffSubscribed(env: Env, st: State, err: SudoError)
    requires Inv(env, st) && SetError(env, st, err).Success?
    ensures var contract, id, next := env.decode(err.contractAddress).value, st.er.nextId, SetError(env, st, err).value;
            && next.er.nextId == id + 1
            && (contract in st.er.subscriptions <==> id in next.er.queue)
            && (contract !in st.er.subscriptions <==> id in next.er.errors)
            && (id in next.er.queue ==> next.er.queue[id] == err)
            && (id in next.er.errors ==> next.er.errors[id] == err)
            && next.events == st.events +
                 [if contract in st.er.subscriptions then ErrorQueued(id, err, st.height)
                  else ErrorStored(id, err, st.er.params.storedTime, st.height)]
  {
    FreshId(env, st);
  }

  // ---------------------------------------------------------------- the log of errors

  /** The event of a new id. */
  predicate Fresh(e: Event) {
    e.ErrorQueued? || e.ErrorStored?
  }

  /** The event that ends a queued error's turn. */
  predicate Resolves(e: Event) {
    e.ErrorDelivered? || e.ErrorCarried?
  }

  /**
    Lifetime of a stored error: while its deletion height is ahead, or wrapped around, it
    is stored unchanged and filed for that height; once passed it is gone.
   */
  predicate StoredOk(st: State, id: nat, err: SudoError, storedTime: int, at: int) {
    var until := Wrap64(at + storedTime);
    && id < st.er.nextId && 0 <= at <= st.height && 0 < storedTime < TWO63
    && (if Ahead(until, st.height)
        then id in st.er.errors && st.er.errors[id] == err && ByDeletion(until, id) in st.er.deletionBlocks
        else id !in st.er.errors)
  }

  predicate FreshOk(st: State, e: Event) {
    && (e.ErrorStored? ==> StoredOk(st, e.id, e.err, e.storedTime, e.at))
    && (e.ErrorQueued? ==> e.id < st.er.nextId && e.at <= st.height && e.id !in st.er.errors)
  }

  /** The log knows how the error got into the store. */
  ghost predicate HasStored(events: seq<Event>, id: nat) {
    exists e :: e in events && e.ErrorStored? && e.id == id
  }

  ghost predicate FreshLogOk(st: State) {
    && (forall e :: e in st.events ==> FreshOk(st, e))
    && (forall id :: id in st.er.errors ==> HasStored(st.events, id))
  }

  /** New ids and resolved ids both appear in the log in increasing order. */
  ghost predicate OrderOk(st: State) {
    && (forall e :: e in st.events && (Fresh(e) || Resolves(e)) ==> e.id < st.er.nextId)
    && (forall i, j :: 0 <= i < j < |st.events| && Fresh(st.events[i]) && Fresh(st.events[j]) ==>
          st.events[i].id < st.events[j].id)
    && (forall i, j :: 0 <= i < j < |st.events| && Resolves(st.events[i]) && Resolves(st.events[j]) ==>
          st.events[i].id < st.events[j].id)
  }

  /** The queue is what was queued in this block, behind everything resolved before. */
  ghost predicate QueueLogOk(st: State) {
    && (forall e :: e in st.events && e.ErrorQueued? && e.at == st.height ==>
          e.id in st.er.queue && st.er.queue[e.id] == e.err)
    && (forall id :: id in st.er.queue ==> ErrorQueued(id, st.er.queue[id], st.height) in st.events)
    && (forall e, id :: e in st.events && Resolves(e) && id in st.er.queue ==> e.id < id)
  }

  ghost predicate ErrorLogOk(st: State) {
    FreshLogOk(st) && OrderOk(st) && QueueLogOk(st)
  }

  /** Growth keeps old entries of the log right. */
  lemma FreshGrows(st: State, next: State, e: Event)
    requires FreshOk(st, e) && Grows(st.er, next.er) && next.height == st.height
    ensures FreshOk(next, e)
  {
  }

  /** What one operation adds to the log: nothing, or one event. */
  ghost predicate LogsOne(st: State, next: State) {
    || next.events == st.events
    || (|next.events| == |st.events| + 1 && next.events == st.events + [next.events[|st.events|]])
  }

  /** A grown store with one more event, fresh only under the next id, keeps both orders. */
  lemma OrderGrows(st: State, next: State)
    requires OrderOk(st) && LogsOne(st, next) && st.er.nextId <= next.er.nextId
    requires next.events != st.events ==>
               var e := next.events[|st.events|];
               && (Fresh(e) ==> e.id == st.er.nextId < next.er.nextId)
               && !Resolves(e)
    ensures OrderOk(next)
  {
    forall i | 0 <= i < |st.events|
      ensures st.events[i] in st.events && next.events[i] == st.events[i]
    {
    }
  }

  /** The event that was added stores this id. */
  predicate LogsStored(st: State, next: State, id: nat) {
    && |next.events| > |st.events|
    && next.events[|st.events|].ErrorStored? && next.events[|st.events|].id == id
  }

  lemma FreshLogGrows(st: State, next: State)
    requires FreshLogOk(st) && LogsOne(st, next) && Grows(st.er, next.er) && next.height == st.height
    requires next.events != st.events && Fresh(next.events[|st.events|]) ==> FreshOk(next, next.events[|st.events|])
    requires forall id :: id in next.er.errors ==> id in st.er.errors || LogsStored(st, next, id)
    ensures FreshLogOk(next)
  {
    assert next.events != st.events ==> FreshOk(next, next.events[|st.events|]);
    hide FreshOk, Grows;
    forall id | id in next.er.errors
      ensures HasStored(next.events, id)
    {
      if id in st.er.errors {
        var e :| e in st.events && e.ErrorStored? && e.id == id;
        assert e in next.events;
      } else {
        assert next.events[|st.events|] in next.events;
      }
    }
    forall e | e in next.events
      ensures FreshOk(next, e)
    {
      if e in st.events {
        FreshGrows(st, next, e);
      }
    }
  }

  /** A message logs at most one event: a fresh id exactly when it reports an error, never a resolution. */
  lemma OneEvent(env: Env, st: State, msg: Msg)
    requires Handle(env, st, msg).Success?
    ensures LogsOne(st, Handle(env, st, msg).value)
    ensures var next := Handle(env, st, msg).value;
            && next.height == st.height
            && (next.events != st.events ==>
                  && !Resolves(next.events[|st.events|])
                  && (Fresh(next.events[|st.events|]) ==> msg.RaiseError?))
  {
    hide EstimateFees, Send, Refund, Controls, Admit;
  }

  lemma RaiseLogs(env: Env, st: State, err: SudoError)
    requires Inv(env, st) && Handle(env, st, RaiseError(err)).Success?
    ensures var next := Handle(env, st, RaiseError(err)).value;
            && next.er.nextId == st.er.nextId + 1
            && |next.events| == |st.events| + 1 && next.events == st.events + [next.events[|st.events|]]
            && var e := next.events[|st.events|];
               && Fresh(e) && e.id == st.er.nextId && FreshOk(next, e)
               && (if e.ErrorQueued?
                   then && next.er.queue == st.er.queue[e.id := e.err] && next.er.errors == st.er.errors
                        && e.at == st.height
                   else next.er.queue == st.er.queue && next.er.errors == st.er.errors[e.id := e.err])
  {
    RaiseIsSet(env, st, err);
    hide Handle, Inv, StoreError;
    FreshId(env, st);
    assert FreshOk(QueueError(st, err), ErrorQueued(st.er.nextId, err, st.height));
    hide FreshOk;
    var contract := env.decode(err.contractAddress).value;
    if contract !in st.er.subscriptions {
      StoreErrorAdds(st, contract, err);
      StoredFresh(env, st, contract, err);
    }
  }

  lemma HandleFreshLog(env: Env, st: State, msg: Msg)
    requires Inv(env, st) && FreshLogOk(st) && OrderOk(st) && Handle(env, st, msg).Success?
    ensures FreshLogOk(Handle(env, st, msg).value) && OrderOk(Handle(env, st, msg).value)
    ensures Handle(env, st, msg).value.height == st.height
  {
    hide Handle, Inv, FreshOk, Grows, FreshLogOk, OrderOk;
    var next := Handle(env, st, msg).value;
    HandleGrows(env, st, msg);
    OneEvent(env, st, msg);
    CounterGrows(st.er, next.er);
    if msg.RaiseError? {
      RaiseLogs(env, st, msg.err);
    } else {
      OthersKeepErrors(env, st, msg);
    }
    FreshLogGrows(st, next);
    OrderGrows(st, next);
  }

  lemma CounterGrows(a: ErrorStore, b: ErrorStore)
    requires Grows(a, b)
    ensures a.nextId <= b.nextId
  {
  }

  lemma HandleErrorLog(env: Env, st: State, msg: Msg)
    requires Inv(env, st) && ErrorLogOk(st) && Handle(env, st, msg).Success?
    ensures ErrorLogOk(Handle(env, st, msg).value)
    ensures Handle(env, st, msg).value.height == st.height
  {
    assert forall e :: e in st.events && (Fresh(e) || Resolves(e)) ==> e.id < st.er.nextId;
    hide Handle, Inv, FreshLogOk, OrderOk, QueueLogOk;
    HandleFreshLog(env, st, msg);
    OneEvent(env, st, msg);
    var next := Handle(env, st, msg).value;
    if msg.RaiseError? {
      RaiseLogs(env, st, msg.err);
      QueueLogGrows(st, next);
    } else {
      OthersKeepErrors(env, st, msg);
      QueueLogSame(st, next);
    }
  }

  lemma QueueLogSame(st: State, next: State)
    requires QueueLogOk(st) && LogsOne(st, next) && next.height == st.height && next.er.queue == st.er.queue
    requires next.events != st.events ==>
               !next.events[|st.events|].ErrorQueued? && !Resolves(next.events[|st.events|])
    ensures QueueLogOk(next)
  {
    forall e | e in next.events
      ensures e in st.events || (next.events != st.events && e == next.events[|st.events|])
    {
    }
  }

  lemma QueueLogGrows(st: State, next: State)
    requires QueueLogOk(st) && next.height == st.height
    requires forall e :: e in st.events && (Fresh(e) || Resolves(e)) ==> e.id < st.er.nextId
    requires |next.events| == |st.events| + 1 && next.events == st.events + [next.events[|st.events|]]
    requires var e := next.events[|st.events|];
             if e.ErrorQueued? then
               next.er.queue == st.er.queue[e.id := e.err] && e.at == st.height && e.id == st.er.nextId
             else !Resolves(e) && next.er.queue == st.er.queue
    ensures QueueLogOk(next)
  {
    var last := next.events[|st.events|];
    forall e | e in next.events
      ensures e in st.events || e == last
    {
    }
    forall id | id in next.er.queue
      ensures ErrorQueued(id, next.er.queue[id], next.height) in next.events
    {
      if last.ErrorQueued? && last.id == id {
        assert last in next.events;
      } else {
        assert ErrorQueued(id, st.er.queue[id], st.height) in st.events;
      }
    }
  }

  // ---------------------------------------------------------------- up to the error EndBlocker

  /** What everything before the error EndBlocker keeps of the error store. */
  ghost predicate ErrorsKeep(env: Env, from: State, s: State) {
    Inv(env, s) && s.height == from.height && ErrorLogOk(s) && Grows(from.er, s.er)
  }

  lemma HandleErrorsKeep(env: Env, from: State, s: State, m: Msg)
    requires EnvOk(env) && ErrorsKeep(env, from, s) && Handle(env, s, m).Success?
    ensures ErrorsKeep(env, from, Handle(env, s, m).value)
  {
    hide Handle, Inv, ErrorLogOk;
    HandleKeeps(env, s, m);
    HandleErrorLog(env, s, m);
    HandleGrows(env, s, m);
  }

  lemma ErrorsKeepStable(env: Env, from: State)
    requires EnvOk(env)
    ensures Stable(env, (s: State) => ErrorsKeep(env, from, s), Any)
  {
    hide Handle, ErrorsKeep;
    forall s: State, m: Msg | ErrorsKeep(env, from, s) && Handle(env, s, m).Success?
      ensures ErrorsKeep(env, from, Handle(env, s, m).value)
    {
      HandleErrorsKeep(env, from, s, m);
    }
  }

  lemma DeliverAllErrors(env: Env, st: State, txs: seq<seq<Msg>>)
    requires EnvOk(env) && Inv(env, st) && ErrorLogOk(st)
    ensures ErrorsKeep(env, st, DeliverAll(env, st, txs))
  {
    hide Handle, DeliverAll, Inv, ErrorLogOk;
    ErrorsKeepStable(env, st);
    DeliverAllKeeps(env, st, txs, (s: State) => ErrorsKeep(env, st, s), Any);
  }

  lemma SettleErrors(env: Env, from: State, st: State, k: Key, c: Callback, run: SudoRun, n: nat)
    requires EnvOk(env) && ErrorsKeep(env, from, st) && Short(env, st, n)
    requires Filed(env, st.contracts, k, c) && k.height == st.height
    requires k in st.cb.pending ==> st.cb.pending[k] == c
    requires Settle(env, st, c, run).Success?
    ensures ErrorsKeep(env, from, Settle(env, st, c, run).value)
  {
    hide Execute, Settle, Inv, PayOut, Filed, SetError, ErrorLogOk, Handle;
    ErrorsKeepStable(env, from);
    ExecuteKeeps(env, st, run, c.maxGas, (s: State) => ErrorsKeep(env, from, s), Any);
    PayStateKeeps(env, st, k, c, run, n);
    var x := Execute(env, st, run, c.maxGas);
    var paying := PayState(env, st, c, run).value;
    if x.problem.Some? {
      RaiseIsSet(env, x.state, FailureRecord(env, c, x.problem.value));
      HandleErrorsKeep(env, from, x.state, RaiseError(FailureRecord(env, c, x.problem.value)));
    }
    SettleKeeps(env, st, k, c, run, n);
    PayOutErrors(env, paying, c, ChargedGas(env, st, c, run), x.problem.None?);
  }

  lemma PayOutErrors(env: Env, st: State, c: Callback, gas: nat, ok: bool)
    requires ErrorLogOk(st) && PayOut(env, st, c, gas, ok).Success?
    ensures var next := PayOut(env, st, c, gas, ok).value;
            next.er == st.er && next.height == st.height && ErrorLogOk(next)
  {
    hide PayOut, FreshOk, FreshLogOk, OrderOk, QueueLogOk, Grows;
    PayOutLogs(env, st, c, gas, ok);
    var next := PayOut(env, st, c, gas, ok).value;
    GrowsRefl(st.er);
    QueueLogSame(st, next);
    FreshLogGrows(st, next);
    OrderGrows(st, next);
  }

  lemma PayOutLogs(env: Env, st: State, c: Callback, gas: nat, ok: bool)
    requires PayOut(env, st, c, gas, ok).Success?
    ensures var next := PayOut(env, st, c, gas, ok).value;
            && next.er == st.er && next.height == st.height
            && |next.events| == |st.events| + 1 && next.events == st.events + [next.events[|st.events|]]
            && next.events[|st.events|].Executed?
  {
    hide ChargeFor, Refund, Send;
  }

  lemma {:induction false} SettleAllErrors(env: Env, from: State, st: State, keys: seq<Key>,
                                           found: map<Key, Callback>, runs: Key -> SudoRun, n: nat)
    requires EnvOk(env) && ErrorsKeep(env, from, st) && Short(env, st, n)
    requires WalkOk(env, st, keys, found)
    requires SettleAll(env, st, keys, found, runs).Success?
    ensures ErrorsKeep(env, from, SettleAll(env, st, keys, found, runs).value)
    decreases |keys|
  {
    hide Execute, Inv, Settle, Overpaid, Short, Filed, ErrorLogOk;
    if keys != [] {
      var k := keys[0];
      SettleKeeps(env, st, k, found[k], runs(k), n);
      SettleErrors(env, from, st, k, found[k], runs(k), n);
      var next := Settle(env, st, found[k], runs(k)).value;
      assert forall j :: j in keys[1..] ==> j in keys;
      WalkGoesOn(env, st, next, keys[1..], found);
      SettleAllErrors(env, from, next, keys[1..], found, runs, n + Overpaid(env, st, k, found[k], runs(k)));
    }
  }

  lemma CallbackEndErrors(env: Env, st: State, runs: Key -> SudoRun, n: nat)
    requires EnvOk(env) && Inv(env, st) && ErrorLogOk(st) && Short(env, st, n)
    requires CallbackEnd(env, st, runs).Success?
    ensures ErrorsKeep(env, st, CallbackEnd(env, st, runs).value)
  {
    hide Execute, Settle, ErrorLogOk, Shortfall, Filed;
    var due := KeysAt(st.cb.pending, st.height);
    assert Enumerates(env.walk(due), due);
    SettleAllErrors(env, st, st, env.walk(due), st.cb.pending, runs, n);
  }

  // ---------------------------------------------------------------- the error EndBlocker

  predicate Delivers(e: Event, id: nat) {
    e.ErrorDelivered? && e.id == id
  }

  predicate CarriesOn(e: Event, id: nat) {
    e.ErrorCarried? && e.id == id
  }

  /** Successful Sudo calls for a queued error. */
  function Deliveries(events: seq<Event>, id: nat): (r: nat) {
    if events == [] then 0 else
    Deliveries(events[..|events| - 1], id) + if Delivers(events[|events| - 1], id) then 1 else 0
  }

  /** Failed Sudo calls for a queued error, each with the record stored for it. */
  function Carriages(events: seq<Event>, id: nat): (r: nat) {
    if events == [] then 0 else
    Carriages(events[..|events| - 1], id) + if CarriesOn(events[|events| - 1], id) then 1 else 0
  }

  lemma CountsAppend(events: seq<Event>, e: Event, id: nat)
    ensures Deliveries(events + [e], id) == Deliveries(events, id) + if Delivers(e, id) then 1 else 0
    ensures Carriages(events + [e], id) == Carriages(events, id) + if CarriesOn(e, id) then 1 else 0
  {
    assert (events + [e])[..|events|] == events;
  }

  lemma {:induction false} Unresolved(events: seq<Event>, id: nat)
    requires forall e :: e in events && Resolves(e) ==> e.id != id
    ensures Deliveries(events, id) == 0 && Carriages(events, id) == 0
  {
    if events != [] {
      Unresolved(events[..|events| - 1], id);
    }
  }

  /**
    The record is one of x/cwerrors with the code 1 (callback execution failed), for the
    contract of `err`, and its payload is `err` itself, encoded.
   */
  predicate Carries(env: Env, rec: SudoError, err: SudoError) {
    && rec.moduleName == Ascii("cwerrors") && rec.errorCode == 1
    && rec.contractAddress == err.contractAddress && rec.inputPayload == env.errorJson(err)
  }

  /** The log names a record for this error that is stored past the block and carries it. */
  ghost predicate CarriedIn(env: Env, st: State, id: nat, err: SudoError) {
    exists n :: ErrorCarried(id, n, st.height) in st.events && n in st.er.errors &&
                Carries(env, st.er.errors[n], err) && ByDeletion(st.height, n) !in st.er.deletionBlocks
  }

  /** A queued error's turn is over in exactly one of two ways. */
  ghost predicate Resolved(env: Env, st: State, id: nat, err: SudoError) {
    if Deliveries(st.events, id) == 1
    then Carriages(st.events, id) == 0
    else Deliveries(st.events, id) == 0 && Carriages(st.events, id) == 1 && CarriedIn(env, st, id, err)
  }

  /** What a Sudo call of the error EndBlocker keeps, whatever it dispatches. */
  ghost predicate CallKeeps(env: Env, from: State, s: State) {
    && Inv(env, s) && s.height == from.height && Grows(from.er, s.er)
    && FreshLogOk(s) && OrderOk(s)
    && (forall id :: Deliveries(s.events, id) == Deliveries(from.events, id) &&
                     Carriages(s.events, id) == Carriages(from.events, id))
    && (forall e :: e in s.events && Resolves(e) ==> e in from.events)
    && NewFresh(from, s)
  }

  /** Nothing is forgotten, and new ids are above the old counter. */
  ghost predicate NewFresh(from: State, s: State) {
    && (forall e :: e in from.events ==> e in s.events)
    && (forall e :: e in s.events && Fresh(e) ==> e in from.events || e.id >= from.er.nextId)
  }

  lemma NewFreshOne(from: State, st: State, next: State)
    requires NewFresh(from, st) && LogsOne(st, next) && from.er.nextId <= st.er.nextId
    requires next.events != st.events && Fresh(next.events[|st.events|]) ==>
               next.events[|st.events|].id == st.er.nextId
    ensures NewFresh(from, next)
  {
    forall e | e in next.events
      ensures e in st.events || e == next.events[|st.events|]
    {
    }
  }

  lemma ExecuteCallKeeps(env: Env, st: State, run: SudoRun, limit: nat)
    requires EnvOk(env) && Inv(env, st) && FreshLogOk(st) && OrderOk(st)
    ensures CallKeeps(env, st, Execute(env, st, run, limit).state)
  {
    hide Handle, Inv, Grows, FreshLogOk, OrderOk, Execute;
    forall s: State, m: Msg | CallKeeps(env, st, s) && Handle(env, s, m).Success?
      ensures CallKeeps(env, st, Handle(env, s, m).value)
    {
      var next := Handle(env, s, m).value;
      HandleKeeps(env, s, m);
      HandleGrows(env, s, m);
      GrowsTrans(st.er, s.er, next.er);
      HandleFreshLog(env, s, m);
      OneEvent(env, s, m);
      NoResolution(s, next);
      if m.RaiseError? {
        RaiseLogs(env, s, m.err);
      }
      CounterGrows(st.er, s.er);
      NewFreshOne(st, s, next);
    }
    GrowsRefl(st.er);
    ExecuteKeeps(env, st, run, limit, (s: State) => CallKeeps(env, st, s), Any);
  }

  lemma NoResolution(st: State, next: State)
    requires LogsOne(st, next) && (next.events != st.events ==> !Resolves(next.events[|st.events|]))
    ensures forall id :: Deliveries(next.events, id) == Deliveries(st.events, id) &&
                         Carriages(next.events, id) == Carriages(st.events, id)
    ensures forall e :: e in next.events && Resolves(e) ==> e in st.events
    ensures forall e :: e in st.events ==> e in next.events
  {
    forall id
      ensures Deliveries(next.events, id) == Deliveries(st.events, id)
      ensures Carriages(next.events, id) == Carriages(st.events, id)
    {
      if next.events != st.events {
        CountsAppend(st.events, next.events[|st.events|], id);
      }
    }
  }

  lemma GrowsTrans(a: ErrorStore, b: ErrorStore, c: ErrorStore)
    requires Grows(a, b) && Grows(b, c)
    ensures Grows(a, c)
  {
  }

  lemma GrowsRefl(a: ErrorStore)
    ensures Grows(a, a)
  {
  }

  /** The state before and after a Sudo call's result is logged. */
  ghost predicate ResolvesOne(from: State, s: State, id: nat) {
    && s.height == from.height
    && |s.events| == |from.events| + 1 && s.events == from.events + [s.events[|from.events|]]
    && Resolves(s.events[|from.events|]) && s.events[|from.events|].id == id
  }

  /** Resolving an id above all resolved ones keeps the log right. */
  lemma ResolveLogs(env: Env, from: State, s: State, id: nat)
    requires Inv(env, from) && FreshLogOk(from) && OrderOk(from) && id < from.er.nextId
    requires forall e :: e in from.events && Resolves(e) ==> e.id < id
    requires ResolvesOne(from, s, id) && s == from.(events := s.events)
    ensures Inv(env, s) && FreshLogOk(s) && OrderOk(s)
  {
    hide Inv, FreshOk, FreshLogOk, Grows;
    SameStores(env, from, s);
    GrowsRefl(from.er);
    FreshLogGrows(from, s);
    forall i | 0 <= i < |from.events|
      ensures from.events[i] in from.events && s.events[i] == from.events[i]
    {
    }
  }

  lemma SameStores(env: Env, st: State, next: State)
    requires Inv(env, st) && next == st.(events := next.events)
    ensures Inv(env, next)
  {
  }

  lemma StoreErrorGrows(env: Env, st: State, contract: Address, rec: SudoError)
    requires Inv(env, st)
    ensures Grows(st.er, StoreError(st, contract, rec).er)
  {
    FreshId(env, st);
    hide Inv;
  }

  /** What StoreErrorInState adds. */
  lemma StoreErrorAdds(st: State, contract: Address, rec: SudoError)
    ensures var next := StoreError(st, contract, rec);
            && next.events == st.events + [ErrorStored(st.er.nextId, rec, st.er.params.storedTime, st.height)]
            && next == st.(er := next.er, events := next.events)
            && next.er.nextId == st.er.nextId + 1
            && next.er.errors == st.er.errors[st.er.nextId := rec] && next.er.queue == st.er.queue
  {
  }

  /** The new record is filed for a height that this block does not prune. */
  lemma StoredFresh(env: Env, st: State, contract: Address, rec: SudoError)
    requires Inv(env, st)
    ensures var next := StoreError(st, contract, rec);
            && FreshOk(next, ErrorStored(st.er.nextId, rec, st.er.params.storedTime, st.height))
            && ByDeletion(st.height, st.er.nextId) !in next.er.deletionBlocks
  {
    var until := Wrap64(st.height + st.er.params.storedTime);
    assert Ahead(until, st.height) && until != st.height;
    FreshId(env, st);
    assert ByDeletion(st.height, st.er.nextId) !in st.er.deletionBlocks;
  }

  lemma StoreErrorLogs(env: Env, st: State, contract: Address, rec: SudoError)
    requires Inv(env, st) && FreshLogOk(st) && OrderOk(st)
    ensures FreshLogOk(StoreError(st, contract, rec)) && OrderOk(StoreError(st, contract, rec))
  {
    hide Inv, FreshLogOk, OrderOk, FreshOk, Grows, StoreError;
    var next := StoreError(st, contract, rec);
    StoreErrorGrows(env, st, contract, rec);
    StoreErrorAdds(st, contract, rec);
    StoredFresh(env, st, contract, rec);
    FreshLogGrows(st, next);
    OrderGrows(st, next);
  }

  /** What one error callback does to the log: this error is resolved in one way, no other is. */
  ghost predicate OneResolved(env: Env, st: State, next: State, id: nat, err: SudoError) {
    && Inv(env, next) && next.height == st.height && Grows(st.er, next.er)
    && FreshLogOk(next) && OrderOk(next) && NewFresh(st, next)
    && Resolved(env, next, id, err)
    && (forall j :: j != id ==> Deliveries(next.events, j) == Deliveries(st.events, j) &&
                                Carriages(next.events, j) == Carriages(st.events, j))
    && (forall e :: e in next.events && Resolves(e) ==> e in st.events || e.id == id)
  }

  lemma DeliverySucceeds(env: Env, st: State, called: State, id: nat, err: SudoError)
    requires CallKeeps(env, st, called) && id < st.er.nextId
    requires forall e :: e in st.events && Resolves(e) ==> e.id < id
    ensures OneResolved(env, st, NoteDelivered(called, id), id, err)
  {
    hide Inv, Grows, FreshLogOk, OrderOk, Resolved;
    Unresolved(st.events, id);
    CounterGrows(st.er, called.er);
    DeliveredResolves(env, called, id, err);
  }

  lemma DeliveryFails(env: Env, st: State, called: State, id: nat, err: SudoError, text: Str)
    requires CallKeeps(env, st, called) && id < st.er.nextId && env.decode(err.contractAddress).Some?
    requires forall e :: e in st.events && Resolves(e) ==> e.id < id
    ensures var stored := StoreError(called, env.decode(err.contractAddress).value, CarriedBy(env, err, text));
            OneResolved(env, st, NoteCarried(stored, id, called.er.nextId), id, err)
  {
    hide Inv, Grows, FreshLogOk, OrderOk, Resolved, StoreError;
    Unresolved(st.events, id);
    CounterGrows(st.er, called.er);
    CarrierStored(env, called, err, text);
    var stored := StoreError(called, env.decode(err.contractAddress).value, CarriedBy(env, err, text));
    CounterGrows(called.er, stored.er);
    CarriedResolves(env, stored, id, called.er.nextId, err);
    GrowsTrans(st.er, called.er, stored.er);
  }

  /**
    Which of the two it is depends on the Sudo call alone: the error is delivered if the
    call went through within its gas, otherwise the record has the text of its failure.
   */
  ghost predicate ByCall(env: Env, st: State, next: State, id: nat, run: SudoRun) {
    var x := Execute(env, st, run, 150_000);
    if x.problem.None? then Deliveries(next.events, id) == 1
    else && Deliveries(next.events, id) == 0 && ErrorCarried(id, st.er.nextId, st.height) in next.events
         && st.er.nextId in next.er.errors && next.er.errors[st.er.nextId].errorMessage == x.problem.value.text
  }

  lemma DeliveredByCall(env: Env, st: State, id: nat, err: SudoError, run: SudoRun)
    requires EnvOk(env) && Inv(env, st) && FreshLogOk(st) && OrderOk(st)
    requires DeliverError(env, st, id, err, run).Success? && id < st.er.nextId
    requires forall e :: e in st.events && Resolves(e) ==> e.id < id
    ensures ByCall(env, st, DeliverError(env, st, id, err, run).value, id, run)
  {
    hide Execute, Inv, FreshLogOk, OrderOk, StoreError, Grows, Deliveries, Carriages;
    Unresolved(st.events, id);
    var x := Execute(env, st, run, ERROR_CALLBACK_GAS);
    if x.problem.None? {
      ExecuteCallKeeps(env, st, run, ERROR_CALLBACK_GAS);
      CountsAppend(x.state.events, ErrorDelivered(id, x.state.height), id);
    } else {
      FailedCall(env, st, run, ERROR_CALLBACK_GAS);
      var contract, rec := env.decode(err.contractAddress).value, CarriedBy(env, err, x.problem.value.text);
      StoreErrorAdds(st, contract, rec);
      CountsAppend(st.events, ErrorStored(st.er.nextId, rec, st.er.params.storedTime, st.height), id);
      CountsAppend(StoreError(st, contract, rec).events, ErrorCarried(id, st.er.nextId, st.height), id);
    }
  }

  lemma FailedCall(env: Env, st: State, run: SudoRun, limit: nat)
    ensures Execute(env, st, run, limit).problem.Some? ==> Execute(env, st, run, limit).state == st
  {
    hide RunSteps;
  }

  /**
    One error callback that returns, whatever the contract does: the queued error is
    resolved in exactly one way, by the outcome of its call, and nothing else is.
   */
  lemma DeliverErrorResolves(env: Env, st: State, id: nat, err: SudoError, run: SudoRun)
    requires EnvOk(env) && Inv(env, st) && FreshLogOk(st) && OrderOk(st)
    requires DeliverError(env, st, id, err, run).Success? && id < st.er.nextId
    requires forall e :: e in st.events && Resolves(e) ==> e.id < id
    ensures OneResolved(env, st, DeliverError(env, st, id, err, run).value, id, err)
    ensures ByCall(env, st, DeliverError(env, st, id, err, run).value, id, run)
  {
    hide Execute, Inv, FreshLogOk, OrderOk, StoreError, CallKeeps, OneResolved, ByCall;
    DeliveredByCall(env, st, id, err, run);
    ExecuteCallKeeps(env, st, run, ERROR_CALLBACK_GAS);
    var x := Execute(env, st, run, ERROR_CALLBACK_GAS);
    if x.problem.None? {
      DeliverySucceeds(env, st, x.state, id, err);
    } else {
      DeliveryFails(env, st, x.state, id, err, x.problem.value.text);
    }
  }

  lemma DeliveredResolves(env: Env, st: State, id: nat, err: SudoError)
    requires Inv(env, st) && FreshLogOk(st) && OrderOk(st) && id < st.er.nextId
    requires forall e :: e in st.events && Resolves(e) ==> e.id < id
    requires Deliveries(st.events, id) == 0 && Carriages(st.events, id) == 0
    ensures var next := NoteDelivered(st, id);
            && Inv(env, next) && FreshLogOk(next) && OrderOk(next) && Resolved(env, next, id, err)
            && (forall j :: j != id ==> Deliveries(next.events, j) == Deliveries(st.events, j) &&
                                        Carriages(next.events, j) == Carriages(st.events, j))
  {
    hide Inv, FreshLogOk, OrderOk;
    var next := NoteDelivered(st, id);
    ResolveLogs(env, st, next, id);
    forall j
      ensures Deliveries(next.events, j) == Deliveries(st.events, j) + if j == id then 1 else 0
      ensures Carriages(next.events, j) == Carriages(st.events, j)
    {
      CountsAppend(st.events, ErrorDelivered(id, st.height), j);
    }
  }

  lemma CarriedResolves(env: Env, st: State, id: nat, n: nat, err: SudoError)
    requires Inv(env, st) && FreshLogOk(st) && OrderOk(st) && id < st.er.nextId
    requires forall e :: e in st.events && Resolves(e) ==> e.id < id
    requires Deliveries(st.events, id) == 0 && Carriages(st.events, id) == 0
    requires n in st.er.errors && Carries(env, st.er.errors[n], err)
    requires ByDeletion(st.height, n) !in st.er.deletionBlocks
    ensures var next := NoteCarried(st, id, n);
            && Inv(env, next) && FreshLogOk(next) && OrderOk(next) && Resolved(env, next, id, err)
            && (forall j :: j != id ==> Deliveries(next.events, j) == Deliveries(st.events, j) &&
                                        Carriages(next.events, j) == Carriages(st.events, j))
  {
    hide Inv, FreshLogOk, OrderOk;
    var next := NoteCarried(st, id, n);
    ResolveLogs(env, st, next, id);
    forall j
      ensures Deliveries(next.events, j) == Deliveries(st.events, j)
      ensures Carriages(next.events, j) == Carriages(st.events, j) + if j == id then 1 else 0
    {
      CountsAppend(st.events, ErrorCarried(id, n, st.height), j);
    }
    assert ErrorCarried(id, n, next.height) in next.events && n in next.er.errors;
  }

  /** What storing the carrying record adds to the log: one fresh event. */
  lemma CarrierStored(env: Env, st: State, err: SudoError, text: Str)
    requires Inv(env, st) && FreshLogOk(st) && OrderOk(st) && env.decode(err.contractAddress).Some?
    ensures var n := st.er.nextId;
            var next := StoreError(st, env.decode(err.contractAddress).value, CarriedBy(env, err, text));
            && Inv(env, next) && next.height == st.height && Grows(st.er, next.er)
            && FreshLogOk(next) && OrderOk(next) && NewFresh(st, next)
            && (forall id :: Deliveries(next.events, id) == Deliveries(st.events, id) &&
                             Carriages(next.events, id) == Carriages(st.events, id))
            && (forall e :: e in next.events && Resolves(e) ==> e in st.events)
            && n in next.er.errors && Carries(env, next.er.errors[n], err)
            && ByDeletion(next.height, n) !in next.er.deletionBlocks
  {
    var contract, rec := env.decode(err.contractAddress).value, CarriedBy(env, err, text);
    ModuleNames();
    hide Inv, FreshLogOk, OrderOk, FreshOk, Grows, StoreError, Ascii;
    StoreErrorKeeps(env, st, contract, rec);
    StoreErrorGrows(env, st, contract, rec);
    StoreErrorLogs(env, st, contract, rec);
    StoreErrorAdds(st, contract, rec);
    StoredFresh(env, st, contract, rec);
    NoResolution(st, StoreError(st, contract, rec));
    NewFreshOne(st, st, StoreError(st, contract, rec));
  }

  lemma ResolvedStays(env: Env, a: State, b: State, id: nat, err: SudoError)
    requires Inv(env, a) && Grows(a.er, b.er) && a.height == b.height
    requires forall e :: e in a.events ==> e in b.events
    requires Resolved(env, a, id, err)
    requires Deliveries(b.events, id) == Deliveries(a.events, id) && Carriages(b.events, id) == Carriages(a.events, id)
    ensures Resolved(env, b, id, err)
  {
    if Deliveries(a.events, id) == 0 {
      var n :| ErrorCarried(id, n, a.height) in a.events && n in a.er.errors &&
               Carries(env, a.er.errors[n], err) && ByDeletion(a.height, n) !in a.er.deletionBlocks;
      assert ErrorCarried(id, n, b.height) in b.events && n in b.er.errors && b.er.errors[n] == a.er.errors[n];
      assert ByDeletion(b.height, n) !in b.er.deletionBlocks;
    }
  }

  /** Every error of the walk names an address, and no message its Sudo call dispatches panics. */
  ghost predicate CallsReturn(env: Env, st: State, ids: seq<nat>, queue: map<nat, SudoError>, runs: nat -> SudoRun)
    requires forall id :: id in ids ==> id in queue
    decreases |ids|
  {
    ids == [] ||
    (&& env.decode(queue[ids[0]].contractAddress).Some?
     && !Execute(env, st, runs(ids[0]), ERROR_CALLBACK_GAS).panicked
     && match DeliverError(env, st, ids[0], queue[ids[0]], runs(ids[0]))
        case Failure(_) => true
        case Success(next) => CallsReturn(env, next, ids[1..], queue, runs))
  }

  /** Nothing else stops the delivery loop: no error, gas use or refusal of a contract. */
  lemma {:induction false} DeliverErrorsComplete(env: Env, st: State, ids: seq<nat>, queue: map<nat, SudoError>,
                                                 runs: nat -> SudoRun)
    requires forall id :: id in ids ==> id in queue
    ensures DeliverErrors(env, st, ids, queue, runs).Success? <==> CallsReturn(env, st, ids, queue, runs)
    decreases |ids|
  {
    hide Execute, StoreError;
    if ids != [] {
      assert ids[0] in ids && forall id :: id in ids <==> id == ids[0] || id in ids[1..];
      var next := DeliverError(env, st, ids[0], queue[ids[0]], runs(ids[0]));
      if next.Success? {
        DeliverErrorsComplete(env, next.value, ids[1..], queue, runs);
      }
    }
  }

  /** The whole delivery loop, for arbitrary contracts, resolves every error it was started on and no other. */
  lemma {:induction false} DeliverErrorsResolve(env: Env, st: State, ids: seq<nat>, queue: map<nat, SudoError>,
                                                runs: nat -> SudoRun)
    requires EnvOk(env) && Inv(env, st) && FreshLogOk(st) && OrderOk(st)
    requires forall id :: id in ids ==> id in queue && id < st.er.nextId
    requires forall i, j :: 0 <= i < j < |ids| ==> ids[i] < ids[j]
    requires forall e, id :: e in st.events && Resolves(e) && id in ids ==> e.id < id
    requires DeliverErrors(env, st, ids, queue, runs).Success?
    ensures var next := DeliverErrors(env, st, ids, queue, runs).value;
            && Inv(env, next) && next.height == st.height && Grows(st.er, next.er)
            && FreshLogOk(next) && OrderOk(next)
            && (forall id :: id in ids ==> Resolved(env, next, id, queue[id]))
            && (forall j :: j !in ids ==> Deliveries(next.events, j) == Deliveries(st.events, j) &&
                                          Carriages(next.events, j) == Carriages(st.events, j))
            && NewFresh(st, next)
            && (forall e :: e in next.events && Resolves(e) ==> e in st.events || e.id in ids)
    decreases |ids|
  {
    hide DeliverError, Inv, Grows, Resolved, FreshLogOk, OrderOk;
    if ids == [] {
      GrowsRefl(st.er);
    } else {
      var id := ids[0];
      assert id in ids;
      DeliverErrorResolves(env, st, id, queue[id], runs(id));
      var next := DeliverError(env, st, id, queue[id], runs(id)).value;
      CounterGrows(st.er, next.er);
      SplitIds(ids);
      DeliverErrorsResolve(env, next, ids[1..], queue, runs);
      var last := DeliverErrors(env, st, ids, queue, runs).value;
      GrowsTrans(st.er, next.er, last.er);
      ResolvedStays(env, next, last, id, queue[id]);
    }
  }

  /** The state in which the delivery loop comes to its entry `i`. */
  function AtTurn(env: Env, st: State, ids: seq<nat>, queue: map<nat, SudoError>, runs: nat -> SudoRun, i: nat)
    : (r: Result<State>)
    requires i <= |ids| && forall id :: id in ids ==> id in queue
  {
    assert forall id :: id in ids[..i] ==> id in ids;
    DeliverErrors(env, st, ids[..i], queue, runs)
  }

  lemma {:induction false} DeliverErrorsSplit(env: Env, st: State, a: seq<nat>, b: seq<nat>, queue: map<nat, SudoError>,
                                              runs: nat -> SudoRun)
    requires forall id :: id in a + b ==> id in queue
    ensures (forall id :: id in a ==> id in queue) && forall id :: id in b ==> id in queue
    ensures DeliverErrors(env, st, a + b, queue, runs) ==
              match DeliverErrors(env, st, a, queue, runs)
              case Failure(e) => Failure(e)
              case Success(s) => DeliverErrors(env, s, b, queue, runs)
    decreases |a|
  {
    hide DeliverError;
    assert forall id :: id in a || id in b ==> id in a + b;
    if a == [] {
      assert a + b == b;
    } else {
      assert (a + b)[1..] == a[1..] + b && (a + b)[0] == a[0];
      var next := DeliverError(env, st, a[0], queue[a[0]], runs(a[0]));
      if next.Success? {
        assert forall id :: id in a[1..] + b ==> id in a + b;
        DeliverErrorsSplit(env, next.value, a[1..], b, queue, runs);
      }
    }
  }

  /** At the end of the whole loop each error's fate is still that of its own call. */
  lemma DeliveryByCall(env: Env, st: State, ids: seq<nat>, queue: map<nat, SudoError>, runs: nat -> SudoRun, i: nat)
    requires EnvOk(env) && Inv(env, st) && FreshLogOk(st) && OrderOk(st) && i < |ids|
    requires forall id :: id in ids ==> id in queue && id < st.er.nextId
    requires forall i, j :: 0 <= i < j < |ids| ==> ids[i] < ids[j]
    requires forall e, id :: e in st.events && Resolves(e) && id in ids ==> e.id < id
    requires DeliverErrors(env, st, ids, queue, runs).Success?
    ensures AtTurn(env, st, ids, queue, runs, i).Success?
    ensures ByCall(env, AtTurn(env, st, ids, queue, runs, i).value, DeliverErrors(env, st, ids, queue, runs).value,
                   ids[i], runs(ids[i]))
  {
    hide DeliverError, DeliverErrors, Inv, FreshLogOk, OrderOk, Resolved, Grows, ByCall;
    var a, id, b := ids[..i], ids[i], ids[i + 1..];
    SplitAt(ids, i);
    DeliverErrorsSplit(env, st, a, [id] + b, queue, runs);
    DeliverErrorsResolve(env, st, a, queue, runs);
    var s := AtTurn(env, st, ids, queue, runs, i).value;
    CounterGrows(st.er, s.er);
    DeliverFirst(env, s, id, b, queue, runs);
    CallStays(env, s, id, b, queue, runs);
  }

  lemma SplitAt(ids: seq<nat>, i: nat)
    requires i < |ids| && forall i, j :: 0 <= i < j < |ids| ==> ids[i] < ids[j]
    ensures ids == ids[..i] + ([ids[i]] + ids[i + 1..]) && ids[i] in ids
    ensures forall j :: j in ids[..i] ==> j in ids && j < ids[i]
    ensures forall j :: j in ids[i + 1..] ==> j in ids && j > ids[i]
  {
  }

  /** The first error's turn, and what later turns leave of it. */
  lemma CallStays(env: Env, st: State, id: nat, b: seq<nat>, queue: map<nat, SudoError>, runs: nat -> SudoRun)
    requires EnvOk(env) && Inv(env, st) && FreshLogOk(st) && OrderOk(st) && id < st.er.nextId && id in queue
    requires forall j :: j in b ==> j in queue && id < j < st.er.nextId
    requires forall i, j :: 0 <= i < j < |b| ==> b[i] < b[j]
    requires forall e :: e in st.events && Resolves(e) ==> e.id < id
    requires DeliverError(env, st, id, queue[id], runs(id)).Success?
    requires DeliverErrors(env, DeliverError(env, st, id, queue[id], runs(id)).value, b, queue, runs).Success?
    ensures var next := DeliverError(env, st, id, queue[id], runs(id)).value;
            ByCall(env, st, DeliverErrors(env, next, b, queue, runs).value, id, runs(id))
  {
    hide DeliverError, DeliverErrors, Inv, FreshLogOk, OrderOk, Resolved, Grows, Execute;
    DeliverErrorResolves(env, st, id, queue[id], runs(id));
    var next := DeliverError(env, st, id, queue[id], runs(id)).value;
    CounterGrows(st.er, next.er);
    DeliverErrorsResolve(env, next, b, queue, runs);
    ErrorsStay(next, DeliverErrors(env, next, b, queue, runs).value, st.er.nextId);
  }

  lemma DeliverFirst(env: Env, st: State, id: nat, b: seq<nat>, queue: map<nat, SudoError>, runs: nat -> SudoRun)
    requires forall j :: j in [id] + b ==> j in queue
    requires DeliverErrors(env, st, [id] + b, queue, runs).Success?
    ensures id in queue && forall j :: j in b ==> j in queue
    ensures DeliverError(env, st, id, queue[id], runs(id)).Success?
    ensures DeliverErrors(env, st, [id] + b, queue, runs) ==
            DeliverErrors(env, DeliverError(env, st, id, queue[id], runs(id)).value, b, queue, runs)
  {
    hide DeliverError;
    assert ([id] + b)[1..] == b && id in [id] + b && forall j :: j in b ==> j in [id] + b;
  }

  lemma ErrorsStay(a: State, b: State, n: nat)
    requires Grows(a.er, b.er)
    ensures n in a.er.errors ==> n in b.er.errors && b.er.errors[n] == a.er.errors[n]
  {
  }

  lemma SplitIds(ids: seq<nat>)
    requires ids != [] && forall i, j :: 0 <= i < j < |ids| ==> ids[i] < ids[j]
    ensures forall j :: j in ids <==> j == ids[0] || j in ids[1..]
    ensures forall j :: j in ids[1..] ==> ids[0] < j
  {
  }

  // ---------------------------------------------------------------- pruning

  /** Pruning removes exactly the due errors from all indexes and the subscriptions ending now. */
  lemma PruneExact(env: Env, st: State)
    requires Inv(env, st)
    ensures Prunable(env, PruneSubscriptions(st.er, st.height), st.height)
    ensures var next := Prune(env, st);
            && Inv(env, next)
            && (forall id :: id in next.er.errors <==>
                  id in st.er.errors && ByDeletion(st.height, id) !in st.er.deletionBlocks)
            && (forall id :: id in next.er.errors ==> next.er.errors[id] == st.er.errors[id])
            && (forall e :: e in next.er.deletionBlocks <==> e in st.er.deletionBlocks && e.height != st.height)
            && (forall a :: a in next.er.subscriptions <==>
                  a in st.er.subscriptions && st.er.subscriptions[a] != st.height)
            && (forall a :: a in next.er.subscriptions ==> next.er.subscriptions[a] == st.er.subscriptions[a])
  {
    var sub := PruneSubscriptions(st.er, st.height);
    PruneSubscriptionsExact(st);
    PruneErrorsExact(env, st.(er := sub));
  }

  lemma PruneSubscriptionsExact(st: State)
    requires SubscriptionsAgree(st.er) && EndsAhead(st.er, st.height)
    ensures var next := PruneSubscriptions(st.er, st.height);
            && SubscriptionsAgree(next) && EndsAhead(next, st.height)
            && (forall a :: a in next.subscriptions <==>
                  a in st.er.subscriptions && st.er.subscriptions[a] != st.height)
            && (forall a :: a in next.subscriptions ==> next.subscriptions[a] == st.er.subscriptions[a])
  {
    var ending := set e | e in st.er.subscriptionEnds && e.height == st.height :: e.contract;
    forall a | a in st.er.subscriptions
      ensures a in ending <==> st.er.subscriptions[a] == st.height
    {
      assert ByEnd(st.er.subscriptions[a], a) in st.er.subscriptionEnds;
    }
  }

  lemma PruneErrorsExact(env: Env, st: State)
    requires IndexesAgree(env, st.er) && DeletionsAhead(st.er, st.height) && QueueOk(env, st.er, st.contracts)
    ensures var next := PruneErrors(env, st.er, st.height);
            && IndexesAgree(env, next) && DeletionsAhead(next, st.height) && QueueOk(env, next, st.contracts)
            && (forall id :: id in next.errors <==>
                  id in st.er.errors && ByDeletion(st.height, id) !in st.er.deletionBlocks)
            && (forall id :: id in next.errors ==> next.errors[id] == st.er.errors[id])
            && (forall e :: e in next.deletionBlocks <==> e in st.er.deletionBlocks && e.height != st.height)
  {
    var er := st.er;
    var due := DueIds(er, st.height);
    var next := PruneErrors(env, er, st.height);
    forall id ensures id in due <==> ByDeletion(st.height, id) in er.deletionBlocks {
      if id in due {
        var e :| e in er.deletionBlocks && e.height == st.height && e.id == id;
        assert e == ByDeletion(st.height, id);
      }
    }
    forall id | id in next.errors
      ensures exists d :: ByDeletion(d, id) in next.deletionBlocks
    {
      var d :| ByDeletion(d, id) in er.deletionBlocks;
      assert ByDeletion(d, id) in next.deletionBlocks;
    }
  }
}
