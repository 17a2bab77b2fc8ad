/**
  Concrete runs from genesis: the assumptions of the theorems can be met, and neither
  condition of the escrow and settlement theorems can be dropped. Each run breaks one
  condition and ends in a panic of the callback EndBlocker.
 */
module Witness {
  import opened Machine
  import opened Decimal
  import opened SudoErrorCodec
  import opened Store
  import opened CallbackModule
  import opened ErrorsModule
  import opened Chain
  import opened Invariants
  import opened Settlement
  import opened Lifecycle
  import opened Runs
  import opened Delivery
  import opened Exactness
  import opened Keeper

  ghost function Listed<T(!new)>(s: set<T>): (r: seq<T>)
    ensures Enumerates(r, s)
  {
    if s == {} then [] else
    var x :| x in s;
    var rest := Listed(s - {x});
    assert forall i :: 0 <= i < |rest| ==> rest[i] in rest;
    [x] + rest
  }

  const ESCROW: Address := [1]
  const COLLECTOR: Address := [2]
  const CONTRACT: Address := [3]
  const GOVERNANCE: Str := [9]

  /** Every byte string is its own address. */
  ghost function SampleEnv(): (env: Env) {
    Env(s => Some(s), a => a, (a, b) => a == b, e => [], j => [], s => Listed(s), s => Listed(s),
        {ESCROW, COLLECTOR}, ESCROW, COLLECTOR, GOVERNANCE, [])
  }

  lemma SampleEnvOk()
    ensures EnvOk(SampleEnv())
  {
    Distinct();
  }

  lemma Distinct()
    ensures CONTRACT != ESCROW && CONTRACT != COLLECTOR && ESCROW != COLLECTOR
  {
    assert CONTRACT[0] != ESCROW[0] && CONTRACT[0] != COLLECTOR[0] && ESCROW[0] != COLLECTOR[0];
  }

  const EMPTY: ErrorStore := ErrorStore(ErrorParams(1, 0, 1), 0, map[], {}, {}, map[], {}, map[])
  const FREE: ContractInfo := ContractInfo([], None)

  lemma Sends(bank: map<Address, nat>, payer: Address, payee: Address, amount: nat, after: map<Address, nat>)
    requires payer != payee && amount <= Balance(bank, payer)
    requires after == bank[payer := Balance(bank, payer) - amount][payee := Balance(bank, payee) + amount]
    ensures Send(bank, payer, payee, amount) == Success(after)
  {
  }

  // ---------------------------------------------------------------- blocks in which little happens

  /** A block end with nothing queued and nothing stored changes nothing. */
  lemma NothingQueued(env: Env, st: State, runs: nat -> SudoRun)
    requires st.er == EMPTY
    ensures ErrorEnd(env, st, runs) == Success(st)
  {
    assert Increasing(st.er.queue.Keys) == [];
    assert Prune(env, st).er == st.er;
  }

  lemma NothingDue(env: Env, st: State, runs: Key -> SudoRun)
    requires EnvOk(env) && KeysAt(st.cb.pending, st.height) == {}
    ensures CallbackEnd(env, st, runs) == Success(st)
  {
    var none: set<Key> := {};
    assert Enumerates(env.walk(none), none);
    EnumerationSize(env.walk(none), none);
  }

  lemma OneDue(env: Env, st: State, k: Key, runs: Key -> SudoRun)
    requires EnvOk(env) && k in st.cb.pending && KeysAt(st.cb.pending, st.height) == {k}
    ensures CallbackEnd(env, st, runs) == Settle(env, st, st.cb.pending[k], runs(k))
  {
    hide Settle;
    assert Enumerates(env.walk({k}), {k});
    Singleton(env.walk({k}), k);
    assert [k][1..] == [];
    assert SettleAll(env, st, [k], st.cb.pending, runs) == Settle(env, st, st.cb.pending[k], runs(k));
  }

  lemma Singleton(order: seq<Key>, k: Key)
    requires Enumerates(order, {k})
    ensures order == [k]
  {
    assert k in order;
    assert forall i :: 0 <= i < |order| ==> order[i] in order;
    EnumerationSize(order, {k});
  }

  lemma TwoBlocks(env: Env, st: State, a: Block, b: Block)
    requires EnvOk(env) && RunBlock(env, st, a).Success?
    ensures RunBlocks(env, st, [a]) == RunBlock(env, st, a)
    ensures RunBlocks(env, st, [a, b]) == RunBlock(env, RunBlock(env, st, a).value, b)
  {
    hide RunBlock;
    assert [a][1..] == [] && [a, b][1..] == [b] && [b][1..] == [];
    var next := RunBlock(env, st, a).value;
    assert RunBlocks(env, next, [b]) == RunBlock(env, next, b);
  }

  /** Transactions of one message each. */
  lemma OneMessage(env: Env, st: State, msg: Msg)
    ensures Deliver(env, st, [msg]) == match Handle(env, st, msg) case Success(next) => next case Failure(_) => st
    ensures DeliverAll(env, st, [[msg]]) == Deliver(env, st, [msg])
  {
    hide Handle;
    assert [msg][1..] == [] && [[msg]][1..] == [];
    assert HandleAll(env, st, [msg]) == Handle(env, st, msg);
    assert DeliverAll(env, Deliver(env, st, [msg]), []) == Deliver(env, st, [msg]);
  }

  lemma TwoMessages(env: Env, st: State, a: Msg, b: Msg)
    ensures DeliverAll(env, st, [[a], [b]]) == Deliver(env, Deliver(env, st, [a]), [b])
  {
    hide Deliver;
    OneMessage(env, Deliver(env, st, [a]), b);
    assert [[a], [b]][1..] == [[b]];
  }

  const IDLE: SudoRun := SudoRun([], Succeeds)
  const FAILING: SudoRun := SudoRun([], Fails(Problem(false, true, [])))

  // ---------------------------------------------------------------- a callback that cancels itself

  const DUE: Key := Key(5, CONTRACT, 0)
  const LATER: Key := Key(6, CONTRACT, 0)
  const PAID: FeeSplit := FeeSplit(10, 0, 0, 0)
  const LIMITS: CallbackParams := CallbackParams(10, 3, 10, 0, 0)

  function Scheduled(k: Key): (r: Callback) {
    Callback(k.contract, k.height, k.job, CONTRACT, PAID, 10)
  }

  /** A contract with twenty coins, before the first block. */
  function Start(): (st: State) {
    State(4, ONE, map[CONTRACT := 20], map[CONTRACT := FREE], CallbackStore(LIMITS, map[]), EMPTY, {}, [])
  }

  const REQUEST_DUE: Msg := RequestCallback(CONTRACT, CONTRACT, 0, 5, 10)
  const REQUEST_LATER: Msg := RequestCallback(CONTRACT, CONTRACT, 0, 6, 10)

  function OneBooked(): (st: State) {
    Start().(bank := map[CONTRACT := 10, ESCROW := 10],
             cb := CallbackStore(LIMITS, map[DUE := Scheduled(DUE)]),
             events := [Registered(DUE, PAID, 10, ONE, 4)])
  }

  /** Two paid callbacks of one contract, ten coins each. */
  function Booked(): (st: State) {
    Start().(bank := map[CONTRACT := 0, ESCROW := 20],
             cb := CallbackStore(LIMITS, map[DUE := Scheduled(DUE), LATER := Scheduled(LATER)]),
             events := [Registered(DUE, PAID, 10, ONE, 4), Registered(LATER, PAID, 10, ONE, 4)])
  }

  lemma QuotesTen()
    ensures EstimateFees(Start(), 5) == Success(Quote(0, 0, 10))
    ensures EstimateFees(OneBooked(), 6) == Success(Quote(0, 0, 10))
  {
    assert KeysAt(Start().cb.pending, 5) == {} && KeysAt(OneBooked().cb.pending, 6) == {};
    assert TransactionFee(ONE, 10) == 10;
  }

  lemma BooksDue()
    ensures Handle(SampleEnv(), Start(), REQUEST_DUE) == Success(OneBooked())
  {
    hide EstimateFees;
    Distinct();
    QuotesTen();
    Sends(Start().bank, CONTRACT, ESCROW, 10, OneBooked().bank);
    ReserveIs(SampleEnv(), Start(), CONTRACT, 0, 5, 10, Quote(0, 0, 10), OneBooked());
  }

  lemma BooksLater()
    ensures Handle(SampleEnv(), OneBooked(), REQUEST_LATER) == Success(Booked())
  {
    hide EstimateFees;
    Distinct();
    QuotesTen();
    Sends(OneBooked().bank, CONTRACT, ESCROW, 10, Booked().bank);
    ReserveIs(SampleEnv(), OneBooked(), CONTRACT, 0, 6, 10, Quote(0, 0, 10), Booked());
  }

  /** The state after a contract's own request that offers exactly its quote. */
  predicate After(env: Env, st: State, contract: Str, job: nat, height: int, quote: Quote, next: State) {
    && env.decode(contract).Some?
    && var key := Key(height, env.decode(contract).value, job);
       var split := FeeSplit(quote.transaction, quote.block, quote.future, 0);
       && Admit(env, st, contract, height, job, contract) == Success(key)
       && Send(st.bank, env.decode(contract).value, env.callbackAccount, quote.Total()) == Success(next.bank)
       && next == st.(bank := next.bank, cb := next.cb, events := next.events)
       && next.events == st.events + [Registered(key, split, st.cb.params.gasLimit, st.gasPrice, st.height)]
       && next.cb.params == st.cb.params
       && next.cb.pending ==
          st.cb.pending[key := Callback(contract, height, job, contract, split, st.cb.params.gasLimit)]
  }

  lemma ReserveIs(env: Env, st: State, contract: Str, job: nat, height: int, fees: nat, quote: Quote, next: State)
    ensures fees == quote.Total() && After(env, st, contract, job, height, quote, next) ==>
              Reserve(env, st, quote, contract, contract, job, height, fees) == Success(next)
  {
    hide Admit, Send;
  }

  const BOOK: Block := Block([[REQUEST_DUE], [REQUEST_LATER]], _ => IDLE, _ => IDLE)

  lemma BookingBlock()
    ensures EnvOk(SampleEnv()) && RunBlock(SampleEnv(), Start(), BOOK) == Success(Booked().(height := 5))
  {
    hide Handle, EnvOk, CallbackEnd, ErrorEnd, DeliverAll;
    SampleEnvOk();
    BooksDue();
    BooksLater();
    OneMessage(SampleEnv(), Start(), REQUEST_DUE);
    OneMessage(SampleEnv(), OneBooked(), REQUEST_LATER);
    TwoMessages(SampleEnv(), Start(), REQUEST_DUE, REQUEST_LATER);
    assert KeysAt(Booked().cb.pending, 4) == {};
    NothingDue(SampleEnv(), Booked(), BOOK.callbackRuns);
    NothingQueued(SampleEnv(), Booked(), BOOK.errorRuns);
  }

  /** The contract's callback cancels the very callback that is being executed. */
  const CANCEL_DUE: Msg := CancelCallback(CONTRACT, CONTRACT, 0, 5)
  const SELF_CANCEL: SudoRun := SudoRun([Step(0, [CANCEL_DUE])], Succeeds)
  const SELF_CANCELLING: Block := Block([], _ => SELF_CANCEL, _ => IDLE)

  /** After the cancellation: ten coins are back, only the later callback is pending. */
  function Cancelling(): (st: State) {
    var st := Booked();
    st.(height := 5,
        bank := map[CONTRACT := 10, ESCROW := 10, COLLECTOR := 0],
        cb := CallbackStore(LIMITS, map[LATER := Scheduled(LATER)]),
        events := st.events + [Cancelled(DUE, 5)])
  }

  /** After the payout: twenty coins are back for two callbacks of ten, one still pending. */
  function PaidTwice(): (st: State) {
    var st := Cancelling();
    st.(bank := map[CONTRACT := 20, ESCROW := 0, COLLECTOR := 0], events := st.events + [Executed(DUE, true, 5)])
  }

  lemma Cancels()
    ensures Handle(SampleEnv(), Booked().(height := 5), CANCEL_DUE) == Success(Cancelling())
  {
    Distinct();
    var env, st := SampleEnv(), Booked().(height := 5);
    assert DUE in st.cb.pending && st.cb.pending - {DUE} == Cancelling().cb.pending;
    var refunded := map[CONTRACT := 10, ESCROW := 10];
    Sends(st.bank, ESCROW, CONTRACT, 10, refunded);
    Sends(refunded, ESCROW, COLLECTOR, 0, Cancelling().bank);
    assert RebuiltKey(env, Scheduled(DUE)) == Success(DUE);
  }

  lemma SelfCancelRuns()
    ensures Execute(SampleEnv(), Booked().(height := 5), SELF_CANCEL, 10) == Outcome(Cancelling(), 0, None, false)
  {
    hide Handle;
    var env, st := SampleEnv(), Booked().(height := 5);
    Cancels();
    OneMessage(env, st, CANCEL_DUE);
    assert SELF_CANCEL.steps[1..] == [];
    assert RunSteps(env, Cancelling(), [], 0, 10) == Branch(Cancelling(), 0, false, false);
  }

  lemma SelfCancelPays()
    ensures PayOut(SampleEnv(), Cancelling(), Scheduled(DUE), 0, true) == Success(PaidTwice())
  {
    Distinct();
    var env, st := SampleEnv(), Cancelling();
    assert TransactionFee(ONE, 0) == 0;
    var refunded := PaidTwice().bank;
    Sends(st.bank, ESCROW, CONTRACT, 10, refunded);
    Sends(refunded, ESCROW, COLLECTOR, 0, refunded);
    assert st.cb.pending - {DUE} == st.cb.pending;
    PayOutIs(env, st, Scheduled(DUE), DUE, refunded, PaidTwice());
  }

  /** The payout of a callback that used no gas, with known transfers. */
  lemma PayOutIs(env: Env, st: State, c: Callback, k: Key, refunded: map<Address, nat>, next: State)
    requires TransactionFee(st.gasPrice, 0) == 0 < c.fees.transaction && RebuiltKey(env, c) == Success(k)
    requires Refund(env, st.bank, c.reservedBy, c.fees.transaction) == Success(refunded)
    requires Send(refunded, env.callbackAccount, env.feeCollector, c.fees.block + c.fees.future + c.fees.surplus) ==
             Success(next.bank)
    requires next == st.(bank := next.bank, cb := st.cb.(pending := st.cb.pending - {k}),
                         events := st.events + [Executed(k, true, st.height)])
    ensures PayOut(env, st, c, 0, true) == Success(next)
  {
    hide Refund, Send, TransactionFee;
  }

  lemma SelfCancelBlock()
    ensures EnvOk(SampleEnv())
    ensures RunBlock(SampleEnv(), Booked().(height := 5), SELF_CANCELLING) == Success(PaidTwice().(height := 6))
  {
    hide Execute, EnvOk, CallbackEnd, ErrorEnd, PayOut;
    var env, st := SampleEnv(), Booked().(height := 5);
    SampleEnvOk();
    assert KeysAt(st.cb.pending, 5) == {DUE};
    OneDue(env, st, DUE, SELF_CANCELLING.callbackRuns);
    SelfCancelRuns();
    SelfCancelPays();
    NothingQueued(env, PaidTwice(), SELF_CANCELLING.errorRuns);
  }

  /**
    The condition on Sudo calls is needed. From genesis, two callbacks are booked and the
    first cancels itself while it is executed: the chain goes on, but the account is ten
    coins short of what the callback still pending paid, and the one registration of the
    first has two ends.
   */
  lemma SelfCancelBreaksEscrow()
    ensures EnvOk(SampleEnv()) && Genesis(SampleEnv(), Start())
    ensures var r := RunBlocks(SampleEnv(), Start(), [BOOK, SELF_CANCELLING]);
            && r == Success(PaidTwice().(height := 6))
            && !EscrowExact(SampleEnv(), r.value) && Short(SampleEnv(), r.value, 10)
            && EndedTwice(r.value.events, DUE) && !Logged(r.value)
  {
    hide EnvOk, RunBlocks, Logged, Traced, Once, Sound, Genesis, EndedTwice, Booked;
    BooksAndCancels();
    StillOwed();
    DueEndedTwice();
    GenesisIsSound(SampleEnv(), Start());
    RunBlocksTraced(SampleEnv(), Start(), [BOOK, SELF_CANCELLING]);
    NotOnce(PaidTwice().(height := 6), DUE);
  }

  lemma BooksAndCancels()
    ensures EnvOk(SampleEnv()) && Genesis(SampleEnv(), Start())
    ensures RunBlocks(SampleEnv(), Start(), [BOOK, SELF_CANCELLING]) == Success(PaidTwice().(height := 6))
  {
    hide RunBlock, EnvOk, RunBlocks;
    Distinct();
    BookingBlock();
    SelfCancelBlock();
    TwoBlocks(SampleEnv(), Start(), BOOK, SELF_CANCELLING);
  }

  lemma DueEndedTwice()
    ensures EndedTwice(PaidTwice().events, DUE)
  {
    var log := PaidTwice().events;
    assert log[2] == Cancelled(DUE, 5);
    assert Is(log[3], Execution, DUE);
  }

  lemma StillOwed()
    ensures Owed(PaidTwice().cb.pending) == 10 && Balance(PaidTwice().bank, ESCROW) == 0
  {
    Distinct();
    OwedAdd(map[], LATER, Scheduled(LATER));
    assert PaidTwice().cb.pending == map[][LATER := Scheduled(LATER)];
  }

  const LAST: Block := Block([], _ => IDLE, _ => IDLE)

  /** ... and one block later the chain stops: the emptied account cannot refund that callback. */
  lemma SelfCancelStopsChain()
    ensures EnvOk(SampleEnv()) && Genesis(SampleEnv(), Start())
    ensures RunBlocks(SampleEnv(), Start(), [BOOK, SELF_CANCELLING]).Success?
    ensures RunBlocks(SampleEnv(), Start(), [BOOK, SELF_CANCELLING, LAST]).Failure?
  {
    hide RunBlock, EnvOk, Genesis, EscrowExact, Short;
    var env := SampleEnv();
    SelfCancelBreaksEscrow();
    BookingBlock();
    SelfCancelBlock();
    EmptyEscrowPanics();
    var all := [BOOK, SELF_CANCELLING, LAST];
    assert all[1..] == [SELF_CANCELLING, LAST];
    TwoBlocks(env, Booked().(height := 5), SELF_CANCELLING, LAST);
  }

  lemma EmptyEscrowPanics()
    ensures EnvOk(SampleEnv()) && RunBlock(SampleEnv(), PaidTwice().(height := 6), LAST).Failure?
  {
    hide EnvOk, CallbackEnd, ErrorEnd, PayOut;
    SampleEnvOk();
    var env, st := SampleEnv(), PaidTwice().(height := 6);
    assert KeysAt(st.cb.pending, 6) == {LATER};
    OneDue(env, st, LATER, LAST.callbackRuns);
    assert Execute(env, st, IDLE, 10) == Outcome(st, 0, None, false);
    StillOwed();
    Distinct();
    PayOutCompletes(env, st, LATER, Scheduled(LATER), 0, true);
  }

  // ---------------------------------------------------------------- a callback that costs nothing

  const FREE_OF_CHARGE: FeeSplit := FeeSplit(0, 0, 0, 0)
  const REQUEST_FREE: Msg := RequestCallback(CONTRACT, CONTRACT, 0, 5, 0)

  function StartWith(p: CallbackParams, price: nat, log: seq<Event>): (st: State) {
    Start().(gasPrice := price, cb := CallbackStore(p, map[]), events := log)
  }

  function Unpaid(limit: nat): (r: Callback) {
    Callback(CONTRACT, 5, 0, CONTRACT, FREE_OF_CHARGE, limit)
  }

  function BookedFree(p: CallbackParams, price: nat, log: seq<Event>): (st: State) {
    StartWith(p, price, log).(
      bank := map[CONTRACT := 20, ESCROW := 0],
      cb := CallbackStore(p, map[DUE := Unpaid(p.gasLimit)]),
      events := log + [Registered(DUE, FREE_OF_CHARGE, p.gasLimit, price, 4)])
  }

  lemma FreeAfter(p: CallbackParams, price: nat, log: seq<Event>)
    ensures After(SampleEnv(), StartWith(p, price, log), CONTRACT, 0, 5, Quote(0, 0, 0), BookedFree(p, price, log))
  {
    Distinct();
    Sends(StartWith(p, price, log).bank, CONTRACT, ESCROW, 0, BookedFree(p, price, log).bank);
  }

  lemma BooksFree(p: CallbackParams, price: nat, log: seq<Event>)
    ensures EstimateFees(StartWith(p, price, log), 5) == Success(Quote(0, 0, 0)) ==>
              Handle(SampleEnv(), StartWith(p, price, log), REQUEST_FREE) == Success(BookedFree(p, price, log))
  {
    hide EstimateFees, After, Reserve, Reserved;
    FreeAfter(p, price, log);
    ReserveIs(SampleEnv(), StartWith(p, price, log), CONTRACT, 0, 5, 0, Quote(0, 0, 0), BookedFree(p, price, log));
  }

  /** The rest of the block of the booking changes nothing but the height. */
  lemma BookedFreeTurns(p: CallbackParams, price: nat, log: seq<Event>, b: Block)
    ensures EnvOk(SampleEnv())
    ensures DeliverAll(SampleEnv(), Start().(gasPrice := price), b.txs) == BookedFree(p, price, log) ==>
              RunBlock(SampleEnv(), Start().(gasPrice := price), b) == Success(BookedFree(p, price, log).(height := 5))
  {
    hide EnvOk, CallbackEnd, ErrorEnd, DeliverAll;
    SampleEnvOk();
    assert KeysAt(BookedFree(p, price, log).cb.pending, 4) == {};
    NothingDue(SampleEnv(), BookedFree(p, price, log), b.callbackRuns);
    NothingQueued(SampleEnv(), BookedFree(p, price, log), b.errorRuns);
  }

  /** Gas costs nothing, before the first block. */
  function FreeStart(): (st: State) {
    Start().(gasPrice := 0)
  }

  function FreeBooked(): (st: State) {
    BookedFree(LIMITS, 0, []).(height := 5)
  }

  const BOOK_ONE: Block := Block([[REQUEST_FREE]], _ => IDLE, _ => IDLE)

  lemma FreeQuote()
    ensures StartWith(LIMITS, 0, []) == FreeStart() && EstimateFees(FreeStart(), 5) == Success(Quote(0, 0, 0))
  {
    assert KeysAt(FreeStart().cb.pending, 5) == {};
    assert TransactionFee(0, 10) == 0;
  }

  lemma FreeGenesis()
    ensures Genesis(SampleEnv(), FreeStart())
  {
    Distinct();
  }

  lemma FreeBooking()
    ensures EnvOk(SampleEnv()) && RunBlock(SampleEnv(), FreeStart(), BOOK_ONE) == Success(FreeBooked())
  {
    hide Handle, EnvOk, EstimateFees, DeliverAll, RunBlock, BookedFree, StartWith, Start;
    FreeQuote();
    BooksFree(LIMITS, 0, []);
    OneMessage(SampleEnv(), FreeStart(), REQUEST_FREE);
    BookedFreeTurns(LIMITS, 0, [], BOOK_ONE);
  }

  /** What the run theorems say about the state with the free callback. */
  lemma FreeBookedOk()
    ensures var env, st := SampleEnv(), FreeBooked(); Inv(env, st) && Short(env, st, 0) && Traced(st)
  {
    hide RunBlock, EnvOk, Inv, Traced, Genesis, Once, ErrorLogOk;
    var env := SampleEnv();
    FreeGenesis();
    FreeBooking();
    assert [BOOK_ONE][1..] == [];
    assert RunBlocks(env, FreeStart(), [BOOK_ONE]) == Success(FreeBooked());
    GenesisIsSound(env, FreeStart());
    RunBlocksSound(env, FreeStart(), [BOOK_ONE]);
    RunBlocksTraced(env, FreeStart(), [BOOK_ONE]);
    OwedAdd(map[], DUE, Unpaid(10));
    assert FreeBooked().cb.pending == map[][DUE := Unpaid(10)];
    Distinct();
  }

  /** The execution cancels the callback, which moves no coin. */
  lemma FreeCancels()
    ensures var x := Execute(SampleEnv(), FreeBooked(), SELF_CANCEL, 10);
            && x.problem.None? && !x.panicked && x.gasUsed == 0
            && x.state.gasPrice == 0 && x.state.cb.pending == map[] && x.state.er == EMPTY
  {
    var env, st := SampleEnv(), FreeBooked();
    Distinct();
    assert DUE in st.cb.pending && st.cb.pending - {DUE} == map[];
    assert RebuiltKey(env, Unpaid(10)) == Success(DUE);
    assert Refund(env, st.bank, CONTRACT, 0).Success?;
    var next := Handle(env, st, CANCEL_DUE);
    assert next.Success? && next.value.cb.pending == map[] && next.value.er == EMPTY && next.value.gasPrice == 0;
    hide Handle;
    OneMessage(env, st, CANCEL_DUE);
    assert [CANCEL_DUE][1..] == [] && SELF_CANCEL.steps[1..] == [];
    assert RunSteps(env, next.value, [], 0, 10) == Branch(next.value, 0, false, false);
  }

  lemma FreeDue()
    ensures var st := FreeBooked();
            && DUE in st.cb.pending && st.cb.pending[DUE] == Unpaid(10) && st.height == 5
            && KeysAt(st.cb.pending, 5) == {DUE} && st.contracts == map[CONTRACT := FREE]
  {
    hide Unpaid;
  }

  lemma FreeFees(limit: nat)
    ensures Unpaid(limit).fees.Total() == 0 && Unpaid(limit).maxGas == limit && TransactionFee(0, 0) == 0
  {
    hide FeeSplit.Total;
    TotalIs(FREE_OF_CHARGE);
  }

  lemma TotalIs(f: FeeSplit)
    ensures f.Total() == f.transaction + f.block + f.future + f.surplus
  {
  }

  lemma FreeFiled()
    ensures Filed(SampleEnv(), map[CONTRACT := FREE], DUE, Unpaid(10))
  {
    Distinct();
  }

  lemma FreeSettles()
    ensures var r := Settle(SampleEnv(), FreeBooked(), Unpaid(10), SELF_CANCEL);
            && r.Success? && r.value.er == EMPTY && r.value.height == 5
            && EndedTwice(r.value.events, DUE) && Short(SampleEnv(), r.value, 0)
  {
    hide Execute, EnvOk, Inv, Traced, Settle, EndedTwice, PayOut, Unpaid, FreeBooked, Filed, TransactionFee, Short,
         Unended;
    var env, st, c := SampleEnv(), FreeBooked(), Unpaid(10);
    SampleEnvOk();
    FreeBookedOk();
    FreeCancels();
    FreeDue();
    FreeFees(10);
    FreeFiled();
    SettleExactly(env, st, DUE, c, SELF_CANCEL, 0);
    PendingUnended(st, DUE);
    SettleTraced(env, st, DUE, c, SELF_CANCEL, 0);
    SettleKeeps(env, st, DUE, c, SELF_CANCEL, 0);
    FreePaysOut();
  }

  /** A settlement without a problem leaves the error store alone. */
  lemma FreePaysOut()
    ensures var r := Settle(SampleEnv(), FreeBooked(), Unpaid(10), SELF_CANCEL); r.Success? ==> r.value.er == EMPTY
  {
    hide Execute, PayOut, FreeBooked;
    FreeCancels();
    var env, c, x := SampleEnv(), Unpaid(10), Execute(SampleEnv(), FreeBooked(), SELF_CANCEL, 10);
    if PayOut(env, x.state, c, 0, true).Success? {
      PayOutFrame(env, x.state, DUE, c, 0, true);
    }
  }

  /**
    The exact condition is about every callback, not only those with fees. From genesis, a
    callback that costs nothing cancels itself while it is executed: the chain goes on and
    the account stays exact, but the one registration has two ends.
   */
  lemma FreeCancelEndsTwice()
    ensures EnvOk(SampleEnv()) && Genesis(SampleEnv(), FreeStart())
    ensures var r := RunBlocks(SampleEnv(), FreeStart(), [BOOK_ONE, SELF_CANCELLING]);
            r.Success? && EscrowExact(SampleEnv(), r.value) && EndedTwice(r.value.events, DUE) && !Logged(r.value)
  {
    hide RunBlock, EnvOk, RunBlocks, Genesis, EndedTwice, Logged, Traced, Settle, Once, Sound;
    var env := SampleEnv();
    FreeGenesis();
    FreeBooking();
    FreeSettles();
    FreeBlockEnds();
    TwoBlocks(env, FreeStart(), BOOK_ONE, SELF_CANCELLING);
    GenesisIsSound(env, FreeStart());
    RunBlocksTraced(env, FreeStart(), [BOOK_ONE, SELF_CANCELLING]);
    NotOnce(RunBlocks(env, FreeStart(), [BOOK_ONE, SELF_CANCELLING]).value, DUE);
  }

  lemma FreeBlockEnds()
    ensures EnvOk(SampleEnv())
    ensures var r := Settle(SampleEnv(), FreeBooked(), Unpaid(10), SELF_CANCEL);
            r.Success? && RunBlock(SampleEnv(), FreeBooked(), SELF_CANCELLING) == Success(NextHeight(r.value))
  {
    hide EnvOk, CallbackEnd, ErrorEnd, Settle, EndedTwice, FreeBooked, Unpaid, Short, KeysAt;
    var env, st := SampleEnv(), FreeBooked();
    SampleEnvOk();
    FreeSettles();
    FreeDue();
    assert DeliverAll(env, st, SELF_CANCELLING.txs) == st;
    OneDue(env, st, DUE, SELF_CANCELLING.callbackRuns);
    NothingQueued(env, Settle(env, st, Unpaid(10), SELF_CANCEL).value, SELF_CANCELLING.errorRuns);
  }

  lemma NotOnce(st: State, k: Key)
    requires Traced(st) && EndedTwice(st.events, k)
    ensures !Logged(st)
  {
    LoggedIff(st);
  }

  // ---------------------------------------------------------------- a gas limit beyond int64

  const WIDE: CallbackParams := CallbackParams(TWO64 - 1, 3, 10, 0, 0)
  const WIDEN: Msg := UpdateCallbackParams(GOVERNANCE, WIDE)
  const WIDENED: Event := LimitSet(3, 4)

  /** Half a coin per unit of gas, before the first block. */
  function CheapStart(): (st: State) {
    Start().(gasPrice := HALF)
  }

  const BOOK_FREE: Block := Block([[WIDEN], [REQUEST_FREE]], _ => IDLE, _ => IDLE)
  const FAIL_DEARER: Block := Block([[SetGasPrice(ONE)]], _ => FAILING, _ => IDLE)

  /** The limit is -1 as an int64 and minus half a coin rounds to nothing: the callback is free. */
  lemma FreeBlock()
    ensures EnvOk(SampleEnv())
    ensures RunBlock(SampleEnv(), CheapStart(), BOOK_FREE) == Success(BookedFree(WIDE, HALF, [WIDENED]).(height := 5))
  {
    var wide := StartWith(WIDE, HALF, [WIDENED]);
    assert CheapStart().events + [WIDENED] == [WIDENED];
    assert Handle(SampleEnv(), CheapStart(), WIDEN) == Success(wide);
    assert KeysAt(wide.cb.pending, 5) == {};
    assert TransactionFee(HALF, TWO64 - 1) == 0;
    assert EstimateFees(wide, 5) == Success(Quote(0, 0, 0));
    hide Handle, EnvOk, EstimateFees, DeliverAll, RunBlock;
    BooksFree(WIDE, HALF, [WIDENED]);
    OneMessage(SampleEnv(), CheapStart(), WIDEN);
    OneMessage(SampleEnv(), wide, REQUEST_FREE);
    TwoMessages(SampleEnv(), CheapStart(), WIDEN, REQUEST_FREE);
    BookedFreeTurns(WIDE, HALF, [WIDENED], BOOK_FREE);
  }

  lemma NegativeFeePanics()
    ensures EnvOk(SampleEnv())
    ensures RunBlock(SampleEnv(), BookedFree(WIDE, HALF, [WIDENED]).(height := 5), FAIL_DEARER).Failure?
  {
    SampleEnvOk();
    var env, st := SampleEnv(), BookedFree(WIDE, HALF, [WIDENED]).(height := 5);
    var dearer := st.(gasPrice := ONE);
    assert Handle(env, st, SetGasPrice(ONE)) == Success(dearer);
    hide EnvOk, CallbackEnd, ErrorEnd, DeliverAll, Handle;
    OneMessage(env, st, SetGasPrice(ONE));
    assert KeysAt(dearer.cb.pending, 5) == {DUE};
    OneDue(env, dearer, DUE, FAIL_DEARER.callbackRuns);
    assert Execute(env, dearer, FAILING, TWO64 - 1) == Outcome(dearer, 0, Some(FAILING.verdict.problem), false);
    assert TransactionFee(ONE, TWO64 - 1) < 0;
  }

  /**
    The condition on gas limits is needed. From genesis, governance sets a limit of
    2^64 - 1, a callback is booked at half a coin per unit, the price doubles, and the
    callback fails: the fee of its gas limit is a negative coin and the chain stops,
    although no contract dispatches any message.
   */
  lemma OutsizedGasStopsChain()
    ensures EnvOk(SampleEnv()) && Genesis(SampleEnv(), CheapStart())
    ensures RunBlocks(SampleEnv(), CheapStart(), [BOOK_FREE]).Success?
    ensures RunBlocks(SampleEnv(), CheapStart(), [BOOK_FREE, FAIL_DEARER]).Failure?
  {
    hide RunBlock, EnvOk, RunBlocks;
    Distinct();
    FreeBlock();
    NegativeFeePanics();
    TwoBlocks(SampleEnv(), CheapStart(), BOOK_FREE, FAIL_DEARER);
  }
}
