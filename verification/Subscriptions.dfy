/**
  Paid time is never lost: over every run a contract counts as subscribed exactly in the
  blocks its payments cover, as a fold over the log of payments defines it.
 */
module Subscriptions {
  import opened Machine
  import opened SudoErrorCodec
  import opened Store
  import opened CallbackModule
  import opened ErrorsModule
  import opened Chain
  import opened Invariants
  import opened Delivery
  import opened Lifecycle
  import opened Runs

  /**
    The last height the payments cover: each payment adds its period to what is left, or
    starts from the current block. -1 stands for "never paid". No 64-bit wrap-around.
   */
  function PaidUntil(events: seq<Event>, a: Address): (r: int) {
    if events == [] then -1 else
    var last := events[|events| - 1];
    var before := PaidUntil(events[..|events| - 1], a);
    if last.Subscribed? && last.contract == a then Max(last.at, before) + last.period else before
  }

  /** The same in int64 arithmetic: a sum that passes the range wraps to a negative height. */
  function EndOf(events: seq<Event>, a: Address): (r: Option<int>) {
    if events == [] then None else
    var last := events[|events| - 1];
    var before := EndOf(events[..|events| - 1], a);
    if last.Subscribed? && last.contract == a
    then Some(Wrap64(Max(last.at, if before.Some? then before.value else 0) + last.period))
    else before
  }

  lemma PaidAppend(events: seq<Event>, e: Event, a: Address)
    ensures PaidUntil(events + [e], a) ==
            var before := PaidUntil(events, a);
            if e.Subscribed? && e.contract == a then Max(e.at, before) + e.period else before
  {
    assert (events + [e])[..|events|] == events;
  }

  lemma EndAppend(events: seq<Event>, e: Event, a: Address)
    ensures EndOf(events + [e], a) ==
            var before := EndOf(events, a);
            if e.Subscribed? && e.contract == a
            then Some(Wrap64(Max(e.at, if before.Some? then before.value else 0) + e.period))
            else before
  {
    assert (events + [e])[..|events|] == events;
  }

  /** The store says what the log says: subscribed until that height, or for good if it wrapped. */
  predicate PaidRight(st: State, a: Address) {
    var end := EndOf(st.events, a);
    && (end.Some? ==> IsInt64(end.value))
    && (a in st.er.subscriptions <==> end.Some? && Ahead(end.value, st.height))
    && (a in st.er.subscriptions ==> st.er.subscriptions[a] == end.value)
  }

  /** Payments are made at heights from 0 on and buy something. */
  predicate Payment(e: Event) {
    e.Subscribed? ==> e.at >= 0 && e.period > 0
  }

  ghost predicate PaidOk(st: State) {
    && 0 <= st.height < TWO63 && st.er.params.Valid()
    && (forall a :: PaidRight(st, a))
    && (forall e :: e in st.events ==> Payment(e))
  }

  lemma SamePaid(st: State, next: State)
    requires PaidOk(st) && next.height == st.height && (next.er.params == st.er.params || next.er.params.Valid())
    requires next.er.subscriptions == st.er.subscriptions
    requires LogsOne(st, next) && (next.events != st.events ==> !next.events[|st.events|].Subscribed?)
    ensures PaidOk(next)
  {
    forall a ensures PaidRight(next, a) {
      assert PaidRight(st, a);
      if next.events != st.events {
        EndAppend(st.events, next.events[|st.events|], a);
      }
    }
    forall e | e in next.events
      ensures Payment(e)
    {
      assert e in st.events || e == next.events[|st.events|];
    }
  }

  lemma SubscribePays(env: Env, st: State, sender: Str, contract: Str, fee: int)
    requires PaidOk(st) && Subscribe(env, st, sender, contract, fee).Success?
    ensures PaidOk(Subscribe(env, st, sender, contract, fee).value)
  {
    hide Send, Controls;
    var next := Subscribe(env, st, sender, contract, fee).value;
    var addr := env.decode(contract).value;
    var e := Subscribed(addr, st.er.params.period, st.height);
    assert next.events == st.events + [e];
    forall a ensures PaidRight(next, a) {
      assert PaidRight(st, a);
      EndAppend(st.events, e, a);
    }
  }

  lemma HandlePays(env: Env, st: State, msg: Msg)
    requires PaidOk(st) && Handle(env, st, msg).Success?
    ensures PaidOk(Handle(env, st, msg).value)
  {
    hide PaidOk, Subscribe, EstimateFees, Reserve, Cancel, SetError;
    if msg.SubscribeToError? {
      SubscribePays(env, st, msg.sender, msg.contract, msg.fee);
    } else {
      OneEvent(env, st, msg);
      OthersKeepSubscriptions(env, st, msg);
      SamePaid(st, Handle(env, st, msg).value);
    }
  }

  lemma OthersKeepSubscriptions(env: Env, st: State, msg: Msg)
    requires !msg.SubscribeToError? && Handle(env, st, msg).Success?
    ensures var next := Handle(env, st, msg).value;
            && next.er.subscriptions == st.er.subscriptions
            && (next.er.params == st.er.params || next.er.params.Valid())
            && (|next.events| > |st.events| ==> !next.events[|st.events|].Subscribed?)
  {
    hide EstimateFees, Send, Refund, Controls, Admit;
  }

  lemma PayOutPays(env: Env, st: State, c: Callback, gas: nat, ok: bool)
    requires PaidOk(st) && PayOut(env, st, c, gas, ok).Success?
    ensures PaidOk(PayOut(env, st, c, gas, ok).value)
  {
    hide PayOut, PaidOk;
    PayOutLogs(env, st, c, gas, ok);
    SamePaid(st, PayOut(env, st, c, gas, ok).value);
  }

  /** Pruning drops exactly the subscriptions whose paid time ends with this block. */
  lemma TurnPays(env: Env, st: State)
    requires Inv(env, st) && PaidOk(st) && st.height + 1 < TWO63
    ensures PaidOk(NextHeight(Prune(env, st)))
  {
    PruneExact(env, st);
    PruneFrame(env, st);
    hide Prune, Inv;
    var next := NextHeight(Prune(env, st));
    forall a ensures PaidRight(next, a) {
      assert PaidRight(st, a);
    }
  }

  lemma StoreErrorPays(st: State, contract: Address, err: SudoError)
    requires PaidOk(st)
    ensures PaidOk(StoreError(st, contract, err))
  {
    SamePaid(st, StoreError(st, contract, err));
  }

  lemma RunBlockPays(env: Env, st: State, b: Block)
    requires EnvOk(env) && Sound(env, st) && PaidOk(st)
    ensures PaidOk(DeliverAll(env, st, b.txs))
    ensures AtErrorEnd(env, st, b).Success? ==> PaidOk(AtErrorEnd(env, st, b).value)
    ensures RunBlock(env, st, b).Success? ==>
              && BeforePruning(env, st, b).Success? && PaidOk(BeforePruning(env, st, b).value)
              && (st.height + 1 < TWO63 ==> PaidOk(RunBlock(env, st, b).value))
  {
    hide Handle, Execute, PayOut, Inv, RunBlock, BeforePruning, Prune, PaidOk, ErrorLogOk, Grows, DeliverAll,
         CallbackEnd, Increasing, StoreError, AtErrorEnd;
    forall s: State, m: Msg | PaidOk(s) && Handle(env, s, m).Success?
      ensures PaidOk(Handle(env, s, m).value)
    {
      HandlePays(env, s, m);
    }
    forall s: State, c: Callback, gas: nat, ok: bool | PaidOk(s) && PayOut(env, s, c, gas, ok).Success?
      ensures PaidOk(PayOut(env, s, c, gas, ok).value)
    {
      PayOutPays(env, s, c, gas, ok);
    }
    forall s: State, contract: Address, err: SudoError
      | PaidOk(s) && env.decode(err.contractAddress) == Some(contract)
      ensures PaidOk(StoreError(s, contract, err))
    {
      StoreErrorPays(s, contract, err);
    }
    forall s: State, id: nat | PaidOk(s)
      ensures PaidOk(NoteDelivered(s, id))
    {
      SamePaid(s, NoteDelivered(s, id));
    }
    forall s: State, id: nat, record: nat | PaidOk(s)
      ensures PaidOk(NoteCarried(s, id, record))
    {
      SamePaid(s, NoteCarried(s, id, record));
    }
    BlockPreserves(env, st, b, (s: State) => PaidOk(s), Any);
    if RunBlock(env, st, b).Success? {
      BlockParts(env, st, b);
      if st.height + 1 < TWO63 {
        TurnPays(env, BeforePruning(env, st, b).value);
      }
    }
  }

  lemma {:induction false} RunBlocksPay(env: Env, st: State, blocks: seq<Block>)
    requires EnvOk(env) && Sound(env, st) && PaidOk(st) && st.height + |blocks| < TWO63
    requires RunBlocks(env, st, blocks).Success?
    ensures PaidOk(RunBlocks(env, st, blocks).value)
    decreases |blocks|
  {
    hide Sound, RunBlock, PaidOk;
    if blocks != [] {
      RunBlockSound(env, st, blocks[0]);
      RunBlockPays(env, st, blocks[0]);
      RunBlocksPay(env, RunBlock(env, st, blocks[0]).value, blocks[1..]);
    }
  }

  /** Below the int64 range the two folds agree. */
  lemma {:induction false} EndIsPaid(events: seq<Event>, a: Address)
    requires forall e :: e in events ==> Payment(e)
    requires PaidUntil(events, a) < TWO63
    ensures PaidUntil(events, a) >= -1
    ensures EndOf(events, a) == if PaidUntil(events, a) == -1 then None else Some(PaidUntil(events, a))
    decreases |events|
  {
    if events != [] {
      var init := events[..|events| - 1];
      assert events[|events| - 1] in events && forall e :: e in init ==> e in events;
      EndIsPaid(init, a);
    }
  }

  /**
    A contract is subscribed exactly while the end its payments add up to in int64 lies
    ahead or has wrapped around. As long as the plain sum stays in range that end is the
    paid height itself, so the contract is subscribed if and only if the height it paid
    for has not passed, and until exactly then.
   */
  ghost predicate PaidFor(st: State, a: Address) {
    var end, paid := EndOf(st.events, a), PaidUntil(st.events, a);
    && (a in st.er.subscriptions <==> end.Some? && (end.value >= st.height || end.value < 0))
    && (a in st.er.subscriptions ==> st.er.subscriptions[a] == end.value)
    && (paid < TWO63 ==>
          && (a in st.er.subscriptions <==> paid >= st.height)
          && (a in st.er.subscriptions ==> st.er.subscriptions[a] == paid))
  }

  lemma LogPays(st: State, a: Address)
    requires PaidOk(st)
    ensures PaidFor(st, a)
  {
    assert PaidRight(st, a);
    if PaidUntil(st.events, a) < TWO63 {
      EndIsPaid(st.events, a);
    }
  }

  /**
    Paid time over runs, from genesis: it is kept between blocks, and inside the next one
    after its transactions, when its error queue is about to be delivered and just before
    its pruning.
   */
  lemma PaidTimeIsKept(env: Env, st: State, blocks: seq<Block>, b: Block, a: Address)
    requires EnvOk(env) && Runs.Genesis(env, st) && st.height + |blocks| < TWO63
    requires RunBlocks(env, st, blocks).Success?
    ensures var last := RunBlocks(env, st, blocks).value;
            && PaidFor(last, a) && PaidFor(DeliverAll(env, last, b.txs), a)
            && (AtErrorEnd(env, last, b).Success? ==> PaidFor(AtErrorEnd(env, last, b).value, a))
            && (RunBlock(env, last, b).Success? ==>
                  BeforePruning(env, last, b).Success? && PaidFor(BeforePruning(env, last, b).value, a))
  {
    assert PaidOk(st);
    hide RunBlocks, RunBlock, Sound, PaidOk, PaidFor, DeliverAll, AtErrorEnd, BeforePruning, Runs.Genesis, Traced, Once;
    GenesisIsSound(env, st);
    RunBlocksPay(env, st, blocks);
    RunBlocksSound(env, st, blocks);
    var last := RunBlocks(env, st, blocks).value;
    RunBlockPays(env, last, b);
    LogPays(last, a);
    LogPays(DeliverAll(env, last, b.txs), a);
    if AtErrorEnd(env, last, b).Success? {
      LogPays(AtErrorEnd(env, last, b).value, a);
    }
    if RunBlock(env, last, b).Success? {
      LogPays(BeforePruning(env, last, b).value, a);
    }
  }

  /** The periods a contract paid for in a stretch of the log. */
  function Periods(events: seq<Event>, a: Address): (r: int) {
    if events == [] then 0 else
    var last := events[|events| - 1];
    Periods(events[..|events| - 1], a) + if last.Subscribed? && last.contract == a then last.period else 0
  }

  /** Every renewal in the stretch was made while the earlier payments still covered it. */
  ghost predicate WithoutLapse(events: seq<Event>, more: seq<Event>, a: Address) {
    forall i :: 0 <= i < |more| && more[i].Subscribed? && more[i].contract == a ==>
      more[i].at <= PaidUntil(events + more[..i], a)
  }

  lemma ShorterStretch(events: seq<Event>, more: seq<Event>, a: Address)
    requires more != [] && WithoutLapse(events, more, a)
    ensures WithoutLapse(events, more[..|more| - 1], a)
  {
    hide PaidUntil;
    var init := more[..|more| - 1];
    forall i | 0 <= i < |init| && init[i].Subscribed? && init[i].contract == a
      ensures init[i].at <= PaidUntil(events + init[..i], a)
    {
      assert init[..i] == more[..i] && init[i] == more[i];
    }
  }

  lemma LastOf(events: seq<Event>, more: seq<Event>)
    requires more != []
    ensures events + more == events + more[..|more| - 1] + [more[|more| - 1]]
  {
    assert more == more[..|more| - 1] + [more[|more| - 1]];
  }

  /** Renewals without a lapse add up: nothing of any paid period is lost. */
  lemma {:induction false} RenewalsAddUp(events: seq<Event>, more: seq<Event>, a: Address)
    requires WithoutLapse(events, more, a)
    ensures PaidUntil(events + more, a) == PaidUntil(events, a) + Periods(more, a)
    decreases |more|
  {
    if more == [] {
      assert events + more == events;
    } else {
      var init, last := more[..|more| - 1], more[|more| - 1];
      assert Periods(more, a) == Periods(init, a) + if last.Subscribed? && last.contract == a then last.period else 0;
      assert last.Subscribed? && last.contract == a ==> last.at <= PaidUntil(events + init, a);
      hide PaidUntil, Periods;
      ShorterStretch(events, more, a);
      hide WithoutLapse;
      RenewalsAddUp(events, init, a);
      PaidAppend(events + init, last, a);
      LastOf(events, more);
    }
  }

  /** A subscription costs its sender exactly the fee in force, paid to the fee collector. */
  lemma SubscribeCosts(env: Env, st: State, sender: Str, contract: Str, fee: int)
    requires Subscribe(env, st, sender, contract, fee).Success?
    ensures var next := Subscribe(env, st, sender, contract, fee).value;
            var payer := env.decode(sender).value;
            && fee == st.er.params.fee
            && (payer != env.feeCollector ==>
                  && Balance(next.bank, payer) == Balance(st.bank, payer) - fee
                  && Balance(next.bank, env.feeCollector) == Balance(st.bank, env.feeCollector) + fee)
            && (forall a :: a != payer && a != env.feeCollector ==> Balance(next.bank, a) == Balance(st.bank, a))
  {
    hide Send, Controls;
  }

  /** A subscription's end height lies ahead exactly when its int64 sum does not wrap. */
  lemma EndHeightAhead(env: Env, st: State, sender: Str, contract: Str, fee: int)
    requires Inv(env, st) && Subscribe(env, st, sender, contract, fee).Success?
    ensures var addr := env.decode(contract).value;
            var next := Subscribe(env, st, sender, contract, fee).value;
            next.er.subscriptions[addr] > st.height <==>
              Max(st.height, EndHeight(st.er, addr)) + st.er.params.period < TWO63
  {
    hide Send, Controls;
  }
}
