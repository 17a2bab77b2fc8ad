/** The main theorems: what holds over every run of blocks. */
module Runs {
  import opened Machine
  import opened SudoErrorCodec
  import opened Store
  import opened CallbackModule
  import opened ErrorsModule
  import opened Chain
  import opened Invariants
  import opened Settlement
  import opened Lifecycle
  import opened Delivery

  // ---------------------------------------------------------------- genesis

  /** A chain before its first block: nothing pending, nothing stored, an empty escrow. */
  ghost predicate Genesis(env: Env, st: State) {
    && 0 <= st.height < TWO63
    && st.cb.params.Valid() && st.cb.pending == map[]
    && Balance(st.bank, env.callbackAccount) == 0
    && st.er == ErrorStore(st.er.params, 0, map[], {}, {}, map[], {}, map[]) && st.er.params.Valid()
    && st.granters == {} && st.events == []
  }

  // ---------------------------------------------------------------- any contracts

  /** What holds of reachable states without any assumption on contracts. */
  ghost predicate Sound(env: Env, st: State) {
    Inv(env, st) && ErrorLogOk(st) && Balance(st.bank, env.callbackAccount) <= Owed(st.cb.pending)
  }

  /** Everything filed for a height the chain has passed is gone. */
  ghost predicate Past(st: State, height: int) {
    && (forall k :: k in st.cb.pending ==> k.height > height)
    && (forall e :: e in st.er.deletionBlocks ==> e.height > height || e.height < 0)
    && (forall a :: a in st.er.subscriptions ==> st.er.subscriptions[a] > height || st.er.subscriptions[a] < 0)
  }

  /** The states inside one block and what each part keeps, for arbitrary contracts. */
  lemma BlockParts(env: Env, st: State, b: Block)
    requires EnvOk(env) && Sound(env, st) && RunBlock(env, st, b).Success?
    ensures var s1 := DeliverAll(env, st, b.txs);
            var s2 := CallbackEnd(env, s1, b.callbackRuns);
            && ErrorsKeep(env, st, s1)
            && s2.Success? && ErrorsKeep(env, s1, s2.value)
            && (forall k :: k in s2.value.cb.pending ==> k.height > st.height)
            && (forall id :: id in Queued(s2.value) ==> id in s2.value.er.queue)
            && BeforePruning(env, st, b).Success?
            && var s3 := BeforePruning(env, st, b).value;
               && Inv(env, s3) && s3.height == st.height && Grows(s2.value.er, s3.er)
               && FreshLogOk(s3) && OrderOk(s3) && NewFresh(s2.value, s3)
               && (forall id :: id in Queued(s2.value) ==> Resolved(env, s3, id, s2.value.er.queue[id]))
               && (forall id :: id !in Queued(s2.value) ==>
                     Deliveries(s3.events, id) == Deliveries(s2.value.events, id) &&
                     Carriages(s3.events, id) == Carriages(s2.value.events, id))
               && (forall k :: k in s3.cb.pending ==> k.height > st.height)
               && Balance(s3.bank, env.callbackAccount) <= Owed(s3.cb.pending)
               && RunBlock(env, st, b).value == NextHeight(Prune(env, s3))
  {
    hide Execute, Handle, Settle, DeliverAll, SettleAll, DeliverErrors, Grows, FreshLogOk, OrderOk, Increasing, Prune,
         Resolved, Inv;
    var s1 := DeliverAll(env, st, b.txs);
    var n := Owed(st.cb.pending) - Balance(st.bank, env.callbackAccount);
    DeliverAllErrors(env, st, b.txs);
    DeliverAllShort(env, st, b.txs, n);
    CallbackEndErrors(env, s1, b.callbackRuns, n);
    CallbackEndKeeps(env, s1, b.callbackRuns, n);
    var s2 := CallbackEnd(env, s1, b.callbackRuns).value;
    QueueDecodes(env, s2);
    DeliverErrorsResolve(env, s2, Queued(s2), s2.er.queue, b.errorRuns);
    LateKeepsWalk(env, s2, b.errorRuns, n + EndShortfall(env, s1, b.callbackRuns));
  }

  /** After settlement: the escrow is off by `n` and nothing is due any more. */
  ghost predicate LateKeeps(env: Env, s: State, height: int, n: nat) {
    Inv(env, s) && s.height == height && Short(env, s, n) && forall k :: k in s.cb.pending ==> k.height > height
  }

  lemma LateKeepsWalk(env: Env, st: State, runs: nat -> SudoRun, n: nat)
    requires EnvOk(env) && LateKeeps(env, st, st.height, n)
    ensures var r := DeliverErrors(env, st, Queued(st), st.er.queue, runs);
            r.Success? ==> LateKeeps(env, r.value, st.height, n)
  {
    hide Handle, Inv, Execute, DeliverErrors, StoreError;
    var keeps := (s: State) => LateKeeps(env, s, st.height, n);
    forall s: State, m: Msg | LateKeeps(env, s, st.height, n) && Handle(env, s, m).Success?
      ensures LateKeeps(env, Handle(env, s, m).value, st.height, n)
    {
      HandleKeeps(env, s, m);
      HandleBalances(env, s, m, n);
      FrameKept(env, s, m);
      HandleDue(env, s, m);
    }
    forall s: State, contract: Address, err: SudoError
      | LateKeeps(env, s, st.height, n) && env.decode(err.contractAddress) == Some(contract)
      ensures LateKeeps(env, StoreError(s, contract, err), st.height, n)
    {
      StoreErrorKeeps(env, s, contract, err);
      StoreErrorAdds(s, contract, err);
    }
    forall s: State, id: nat | LateKeeps(env, s, st.height, n)
      ensures LateKeeps(env, NoteDelivered(s, id), st.height, n)
    {
      SameStores(env, s, NoteDelivered(s, id));
    }
    forall s: State, id: nat, record: nat | LateKeeps(env, s, st.height, n)
      ensures LateKeeps(env, NoteCarried(s, id, record), st.height, n)
    {
      SameStores(env, s, NoteCarried(s, id, record));
    }
    DeliverErrorsPreserves(env, st, Queued(st), st.er.queue, runs, keeps, Any);
  }

  function Queued(st: State): (r: seq<nat>) {
    Increasing(st.er.queue.Keys)
  }

  lemma DeliverAllShort(env: Env, st: State, txs: seq<seq<Msg>>, n: nat)
    requires EnvOk(env) && Inv(env, st) && Short(env, st, n)
    ensures Short(env, DeliverAll(env, st, txs), n)
  {
    hide Handle, Inv, DeliverAll;
    forall s: State, m: Msg | Inv(env, s) && Short(env, s, n) && Handle(env, s, m).Success?
      ensures Inv(env, Handle(env, s, m).value) && Short(env, Handle(env, s, m).value, n)
    {
      HandleKeeps(env, s, m);
      HandleBalances(env, s, m, n);
    }
    DeliverAllKeeps(env, st, txs, (s: State) => Inv(env, s) && Short(env, s, n), Any);
  }

  lemma NextKeeps(env: Env, st: State)
    requires Inv(env, st) && st.height + 1 < TWO63
    requires forall k :: k in st.cb.pending ==> k.height > st.height
    ensures Inv(env, NextHeight(Prune(env, st))) && Past(NextHeight(Prune(env, st)), st.height)
  {
    hide Prune, IndexesAgree, Filed;
    PruneExact(env, st);
    PruneFrame(env, st);
    IndexesIgnoreQueue(env, Prune(env, st).er);
  }

  lemma IndexesIgnoreQueue(env: Env, er: ErrorStore)
    requires IndexesAgree(env, er)
    ensures IndexesAgree(env, er.(queue := map[]))
  {
    var next := er.(queue := map[]);
    assert next.errors == er.errors && next.contractErrors == er.contractErrors;
    assert next.deletionBlocks == er.deletionBlocks && next.nextId == er.nextId;
  }

  lemma PruneFrame(env: Env, st: State)
    ensures Prune(env, st) == st.(er := Prune(env, st).er)
    ensures Prune(env, st).er.queue == st.er.queue && Prune(env, st).er.nextId == st.er.nextId
    ensures Prune(env, st).er.params == st.er.params
  {
  }

  /** An entry of the log stays right: what was due is gone, the rest is still filed. */
  lemma FreshTurns(env: Env, st: State, e: Event)
    requires Inv(env, st) && FreshOk(st, e)
    ensures FreshOk(NextHeight(Prune(env, st)), e)
  {
    hide Prune, Inv;
    PruneExact(env, st);
    PruneFrame(env, st);
    if e.ErrorStored? && Ahead(Wrap64(e.at + e.storedTime), st.height) {
      OneDeletion(env, st, e.id, Wrap64(e.at + e.storedTime));
    }
  }

  /** The next block starts with a right log. */
  lemma LogTurns(env: Env, st: State)
    requires Inv(env, st) && FreshLogOk(st) && OrderOk(st)
    ensures ErrorLogOk(NextHeight(Prune(env, st)))
  {
    hide Prune, Inv, FreshOk, HasStored;
    PruneExact(env, st);
    PruneFrame(env, st);
    var next := NextHeight(Prune(env, st));
    forall e | e in next.events
      ensures FreshOk(next, e)
    {
      FreshTurns(env, st, e);
    }
    assert OrderOk(next);
    PastQueue(st, next);
  }

  lemma PastQueue(st: State, next: State)
    requires FreshLogOk(st) && next.events == st.events && next.height == st.height + 1 && next.er.queue == map[]
    ensures QueueLogOk(next)
  {
    forall e | e in next.events && e.ErrorQueued?
      ensures e.at < next.height
    {
      assert FreshOk(st, e);
    }
  }

  lemma OneDeletion(env: Env, st: State, id: nat, until: int)
    requires Inv(env, st) && ByDeletion(until, id) in st.er.deletionBlocks
    ensures ByDeletion(st.height, id) in st.er.deletionBlocks <==> until == st.height
  {
  }

  /** One completed block, for arbitrary contracts: all invariants hold and the past is cleared. */
  lemma RunBlockSound(env: Env, st: State, b: Block)
    requires EnvOk(env) && Sound(env, st) && st.height + 1 < TWO63
    requires RunBlock(env, st, b).Success?
    ensures var next := RunBlock(env, st, b).value;
            Sound(env, next) && next.height == st.height + 1 && Past(next, st.height)
  {
    hide Handle, Execute, RunBlock, DeliverAll, DeliverErrors, Grows, CallbackEnd, Prune, Inv, ErrorLogOk, FreshLogOk,
         OrderOk, Queued, BeforePruning;
    BlockParts(env, st, b);
    var s3 := BeforePruning(env, st, b).value;
    NextKeeps(env, s3);
    LogTurns(env, s3);
    PruneFrame(env, s3);
  }

  /** Every reachable state is sound, whatever contracts, governance and gas prices do. */
  lemma {:induction false} RunBlocksSound(env: Env, st: State, blocks: seq<Block>)
    requires EnvOk(env) && Sound(env, st) && st.height + |blocks| < TWO63
    requires RunBlocks(env, st, blocks).Success?
    ensures Sound(env, RunBlocks(env, st, blocks).value)
    ensures RunBlocks(env, st, blocks).value.height == st.height + |blocks|
    decreases |blocks|
  {
    hide Sound, RunBlock;
    if blocks != [] {
      RunBlockSound(env, st, blocks[0]);
      RunBlocksSound(env, RunBlock(env, st, blocks[0]).value, blocks[1..]);
    }
  }

  // ---------------------------------------------------------------- escrow and exactly-once

  /** Governance sets no gas limit beyond int64 in this block. */
  ghost predicate ModestBlock(env: Env, b: Block) {
    && (forall tx, m :: tx in b.txs && m in tx ==> Modest(env, m))
    && (forall k: Key :: ModestRun(env, b.callbackRuns(k)))
    && (forall id: nat :: ModestRun(env, b.errorRuns(id)))
  }

  ghost predicate LateBooks(env: Env, s: State, height: int) {
    Books(env, s) && s.height == height && forall k :: k in s.cb.pending ==> k.height > height
  }

  lemma LateBooksWalk(env: Env, st: State, runs: nat -> SudoRun)
    requires EnvOk(env) && LateBooks(env, st, st.height)
    requires forall id: nat :: ModestRun(env, runs(id))
    ensures var r := DeliverErrors(env, st, Queued(st), st.er.queue, runs);
            r.Success? ==> LateBooks(env, r.value, st.height)
  {
    hide Handle, Inv, Traced, GasOk, Execute, DeliverErrors, StoreError, Owed, EndedTwice, Unended, Modest;
    forall s: State, m: Msg | LateBooks(env, s, st.height) && Modest(env, m) && Handle(env, s, m).Success?
      ensures LateBooks(env, Handle(env, s, m).value, st.height)
    {
      HandleBooks(env, s, m);
      FrameKept(env, s, m);
      HandleDue(env, s, m);
    }
    forall s: State, contract: Address, err: SudoError
      | LateBooks(env, s, st.height) && env.decode(err.contractAddress) == Some(contract)
      ensures LateBooks(env, StoreError(s, contract, err), st.height)
    {
      StoreErrorKeeps(env, s, contract, err);
      StoreErrorAdds(s, contract, err);
      OtherTrace(s, StoreError(s, contract, err));
    }
    forall s: State, id: nat | LateBooks(env, s, st.height)
      ensures LateBooks(env, NoteDelivered(s, id), st.height)
    {
      SameStores(env, s, NoteDelivered(s, id));
      OtherTrace(s, NoteDelivered(s, id));
    }
    forall s: State, id: nat, record: nat | LateBooks(env, s, st.height)
      ensures LateBooks(env, NoteCarried(s, id, record), st.height)
    {
      SameStores(env, s, NoteCarried(s, id, record));
      OtherTrace(s, NoteCarried(s, id, record));
    }
    DeliverErrorsPreserves(env, st, Queued(st), st.er.queue, runs, (s: State) => LateBooks(env, s, st.height),
                           (m: Msg) => Modest(env, m));
  }

  lemma BooksTurn(env: Env, st: State)
    requires LateBooks(env, st, st.height) && st.height + 1 < TWO63
    ensures Books(env, NextHeight(Prune(env, st)))
  {
    hide Inv, Traced, Prune;
    NextKeeps(env, st);
    PruneFrame(env, st);
    SameTrace(st, NextHeight(Prune(env, st)));
  }

  /** A modest block that pays out only what is stored never stops the chain and keeps the books exact. */
  lemma RunBlockStored(env: Env, st: State, b: Block)
    requires EnvOk(env) && Books(env, st) && ModestBlock(env, b) && st.height + 1 < TWO63
    requires WalkStored(env, DeliverAll(env, st, b.txs), b.callbackRuns)
    ensures RunBlock(env, st, b).Success?
    ensures Books(env, RunBlock(env, st, b).value)
    ensures RunBlock(env, st, b).value.height == st.height + 1
    ensures forall k :: k in RunBlock(env, st, b).value.cb.pending ==> k.height > st.height
  {
    hide Handle, Execute, Inv, Traced, Once, EscrowExact, DeliverAll, DeliverErrors, Prune, CallbackEnd, Increasing,
         ModestRun, WalkStored;
    var s1 := DeliverAll(env, st, b.txs);
    DeliverAllBooks(env, st, b.txs);
    DeliverAllKeepsInv(env, st, b.txs);
    CallbackEndStored(env, s1, b.callbackRuns);
    var s2 := CallbackEnd(env, s1, b.callbackRuns).value;
    QueueDecodes(env, s2);
    DeliverErrorsModest(env, s2, Queued(s2), s2.er.queue, b.errorRuns);
    LateBooksWalk(env, s2, b.errorRuns);
    var s3 := DeliverErrors(env, s2, Queued(s2), s2.er.queue, b.errorRuns).value;
    PruneExact(env, s3);
    BooksTurn(env, s3);
    PruneFrame(env, s3);
  }

  lemma QueueDecodes(env: Env, st: State)
    requires Inv(env, st)
    ensures forall id :: id in Queued(st) ==>
              id in st.er.queue && id < st.er.nextId && env.decode(st.er.queue[id].contractAddress).Some?
  {
  }

  /** In every block of the run each due callback was still stored when it was paid out. */
  ghost predicate RunStored(env: Env, st: State, blocks: seq<Block>)
    requires EnvOk(env)
    decreases |blocks|
  {
    blocks == [] ||
    (&& WalkStored(env, DeliverAll(env, st, blocks[0].txs), blocks[0].callbackRuns)
     && match RunBlock(env, st, blocks[0])
        case Failure(_) => true
        case Success(next) => RunStored(env, next, blocks[1..]))
  }

  /**
    Escrow exactness and exactly-once settlement over runs, for arbitrary contracts: with
    gas limits that fit int64, a run that pays out only what is stored never stops; after
    it the module account holds exactly what pending callbacks paid, and every key was
    registered as often as it was cancelled, executed at its height, or is still pending.
   */
  lemma {:induction false} RunKeepsBooks(env: Env, st: State, blocks: seq<Block>)
    requires EnvOk(env) && Books(env, st) && st.height + |blocks| < TWO63
    requires (forall b :: b in blocks ==> ModestBlock(env, b)) && RunStored(env, st, blocks)
    ensures RunBlocks(env, st, blocks).Success?
    ensures Books(env, RunBlocks(env, st, blocks).value)
    ensures RunBlocks(env, st, blocks).value.height == st.height + |blocks|
    decreases |blocks|
  {
    hide Books, RunBlock, ModestBlock, WalkStored;
    if blocks != [] {
      RunBlockStored(env, st, blocks[0]);
      RunKeepsBooks(env, RunBlock(env, st, blocks[0]).value, blocks[1..]);
    }
  }

  lemma GenesisIsSound(env: Env, st: State)
    requires Genesis(env, st)
    ensures Sound(env, st) && EscrowExact(env, st) && Traced(st) && Once(st.events)
    ensures st.cb.params.gasLimit < TWO63 ==> Books(env, st)
  {
    forall k ensures TracedKey(st, k) && !EndedTwice(st.events, k) {
    }
    assert Traced(st);
  }

  /**
    From genesis, for arbitrary contracts, with gas limits that fit int64 and as long as
    what is paid out is stored: the run never stops, the account is exact, and the
    registrations and ends of a key alternate, so each has its own end before the next;
    at most one of the ends is an execution, at the key's height; once the height has
    passed the number of ends is that of the registrations.
   */
  lemma ExactlyOnce(env: Env, st: State, blocks: seq<Block>, k: Key)
    requires EnvOk(env) && Genesis(env, st) && st.height + |blocks| < TWO63 && st.cb.params.gasLimit < TWO63
    requires (forall b :: b in blocks ==> ModestBlock(env, b)) && RunStored(env, st, blocks)
    ensures RunBlocks(env, st, blocks).Success?
    ensures var last := RunBlocks(env, st, blocks).value;
            && EscrowExact(env, last)
            && Balanced(last, k) && (k in last.cb.pending ==> k.height >= last.height)
            && (k.height < last.height ==>
                  Times(last.events, Registration, k) ==
                  Times(last.events, Cancellation, k) + Times(last.events, Execution, k))
            && Times(last.events, Execution, k) <= 1
            && (forall n: nat :: n <= |last.events| ==> 0 <= Open(last.events[..n], k) <= 1)
            && (forall e :: e in last.events ==>
                  && (e.Registered? && e.key == k ==> e.at < k.height)
                  && (e.Cancelled? && e.key == k ==> e.at <= k.height)
                  && (e.Executed? && e.key == k ==> e.at == k.height))
  {
    hide RunBlocks;
    GenesisIsSound(env, st);
    RunKeepsBooks(env, st, blocks);
    var last := RunBlocks(env, st, blocks).value;
    LoggedIff(last);
    assert Balanced(last, k) && AtMostOnce(last, k) && Alternates(last.events);
  }

  // ---------------------------------------------------------------- errors over runs

  /** The error can be read, as it was reported. */
  predicate Readable(st: State, id: nat, err: SudoError) {
    id in st.er.errors && st.er.errors[id] == err
  }

  /**
    An error stored at height s under stored-time T is readable up to height s + T and
    gone after it; if that sum passes the int64 range it stays.
   */
  predicate Lives(st: State, id: nat, err: SudoError, storedTime: int, at: int) {
    if at + storedTime >= TWO63 || st.height <= at + storedTime then Readable(st, id, err) else id !in st.er.errors
  }

  ghost predicate AllLive(st: State) {
    && (forall e :: e in st.events && e.ErrorStored? ==> Lives(st, e.id, e.err, e.storedTime, e.at))
    && (forall id :: id in st.er.errors ==> HasStored(st.events, id))
  }

  lemma LogLives(env: Env, st: State)
    requires Inv(env, st) && FreshLogOk(st)
    ensures AllLive(st)
  {
    forall e | e in st.events && e.ErrorStored?
      ensures Lives(st, e.id, e.err, e.storedTime, e.at)
    {
      assert FreshOk(st, e);
    }
  }

  /**
    Error lifetime, from genesis, for arbitrary contracts and parameter changes: whatever
    was stored at height s under stored-time T, by a transaction, a failed callback or a
    failed delivery, is readable unchanged until the EndBlocker of s + T prunes and gone
    after it. It holds between blocks, after the transactions of the next block, when its
    error queue is about to be delivered and just before its pruning.
   */
  lemma ErrorLifetime(env: Env, st: State, blocks: seq<Block>, b: Block)
    requires EnvOk(env) && Genesis(env, st) && st.height + |blocks| < TWO63
    requires RunBlocks(env, st, blocks).Success?
    ensures var last := RunBlocks(env, st, blocks).value;
            && AllLive(last) && AllLive(DeliverAll(env, last, b.txs))
            && (RunBlock(env, last, b).Success? ==>
                  AllLive(AtErrorEnd(env, last, b).value) && AllLive(BeforePruning(env, last, b).value))
  {
    hide RunBlocks, DeliverAll, RunBlock, Inv, FreshLogOk, AllLive, Genesis, Handle, CallbackEnd, BeforePruning,
         OrderOk, QueueLogOk, Grows;
    GenesisIsSound(env, st);
    RunBlocksSound(env, st, blocks);
    var last := RunBlocks(env, st, blocks).value;
    LogLives(env, last);
    DeliverAllErrors(env, last, b.txs);
    LogLives(env, DeliverAll(env, last, b.txs));
    if RunBlock(env, last, b).Success? {
      BlockParts(env, last, b);
      LogLives(env, AtErrorEnd(env, last, b).value);
      LogLives(env, BeforePruning(env, last, b).value);
    }
  }

  /** A stored error's deletion height is ahead exactly when its int64 sum does not wrap. */
  lemma DeletionHeight(env: Env, st: State, contract: Address, err: SudoError)
    requires Inv(env, st)
    ensures var next := StoreError(st, contract, err);
            var d := Wrap64(st.height + st.er.params.storedTime);
            && ByDeletion(d, st.er.nextId) in next.er.deletionBlocks
            && (d > st.height <==> st.height + st.er.params.storedTime < TWO63)
            && (d < 0 <==> st.height + st.er.params.storedTime >= TWO63)
  {
  }

  /** After its block a queued error was delivered, or a stored record carries it. */
  ghost predicate Ended(env: Env, st: State, id: nat, err: SudoError, at: int) {
    if Deliveries(st.events, id) == 1
    then Carriages(st.events, id) == 0
    else && Deliveries(st.events, id) == 0 && Carriages(st.events, id) == 1
         && exists n :: ErrorCarried(id, n, at) in st.events && n in st.er.errors && Carries(env, st.er.errors[n], err)
  }

  /**
    No accepted error is lost, for arbitrary contracts. After the block an error that was
    stored is readable. One that was queued is not in the store; if it was in the queue
    when the error EndBlocker started, exactly one of two things happened, once: one Sudo
    call delivered it, or one failed and a stored record carries it. One queued later,
    while others were being delivered, leaves with the transient store.
   */
  lemma NoErrorLost(env: Env, st: State, b: Block, e: Event)
    requires EnvOk(env) && Sound(env, st) && RunBlock(env, st, b).Success?
    requires e in RunBlock(env, st, b).value.events && Fresh(e) && e.at == st.height
    ensures var next := RunBlock(env, st, b).value;
            && (e.ErrorStored? ==> Readable(next, e.id, e.err))
            && (e.ErrorQueued? ==>
                  && e.id !in next.er.errors
                  && if e.id in AtErrorEnd(env, st, b).value.er.queue
                     then Ended(env, next, e.id, e.err, st.height)
                     else Deliveries(next.events, e.id) == 0 && Carriages(next.events, e.id) == 0)
  {
    assert forall s: State :: OrderOk(s) ==> forall r :: r in s.events && Resolves(r) ==> r.id < s.er.nextId;
    hide Handle, Execute, RunBlock, DeliverAll, CallbackEnd, Prune, Grows, DeliverErrors, Inv, BeforePruning, OrderOk,
         FreshOk, Ended, Resolved, Queued;
    BlockParts(env, st, b);
    var s2 := AtErrorEnd(env, st, b).value;
    var s3 := BeforePruning(env, st, b).value;
    PruneFrame(env, s3);
    if e.ErrorStored? {
      StoredSurvives(env, s3, e);
    } else {
      QueuedIsNotStored(env, s3, e);
      QueueListed(env, s2);
      if e.id in s2.er.queue {
        SameError(s2, s3, e);
        ResolvedEnds(env, s3, e.id, e.err);
      } else {
        assert e !in s2.events by { assert QueueLogOk(s2); }
        assert OrderOk(s2) && e.id >= s2.er.nextId;
        Unresolved(s2.events, e.id);
      }
    }
  }

  lemma StoredSurvives(env: Env, st: State, e: Event)
    requires Inv(env, st) && FreshLogOk(st) && e in st.events && e.ErrorStored? && e.at == st.height
    ensures Readable(NextHeight(Prune(env, st)), e.id, e.err)
  {
    var until := Wrap64(e.at + e.storedTime);
    assert FreshOk(st, e) && 0 <= st.height < TWO63;
    hide Prune, Inv;
    assert Ahead(until, st.height) && until != st.height;
    PruneExact(env, st);
    PruneFrame(env, st);
    OneDeletion(env, st, e.id, until);
  }

  lemma QueuedIsNotStored(env: Env, st: State, e: Event)
    requires Inv(env, st) && FreshLogOk(st) && e in st.events && e.ErrorQueued?
    ensures e.id !in Prune(env, st).er.errors
  {
    assert FreshOk(st, e);
    hide Prune;
    PruneExact(env, st);
  }

  lemma QueueListed(env: Env, st: State)
    requires Inv(env, st)
    ensures forall id :: id in Queued(st) <==> id in st.er.queue
  {
  }

  /** Ids are given out once, so the queued error is the one the event names. */
  lemma SameError(s2: State, s3: State, e: Event)
    requires QueueLogOk(s2) && OrderOk(s3) && e in s3.events && e.ErrorQueued? && e.id in s2.er.queue
    requires forall f :: f in s2.events ==> f in s3.events
    ensures s2.er.queue[e.id] == e.err
  {
    var f := ErrorQueued(e.id, s2.er.queue[e.id], s2.height);
    assert f in s3.events;
    var i :| 0 <= i < |s3.events| && s3.events[i] == e;
    var j :| 0 <= j < |s3.events| && s3.events[j] == f;
    assert Fresh(s3.events[i]) && Fresh(s3.events[j]);
    assert i == j;
  }

  lemma ResolvedEnds(env: Env, st: State, id: nat, err: SudoError)
    requires Inv(env, st) && Resolved(env, st, id, err)
    ensures Ended(env, NextHeight(Prune(env, st)), id, err, st.height)
  {
    hide Prune;
    PruneExact(env, st);
    PruneFrame(env, st);
    hide Inv;
    var next := NextHeight(Prune(env, st));
    if Deliveries(st.events, id) != 1 {
      var n :| ErrorCarried(id, n, st.height) in st.events && n in st.er.errors &&
               Carries(env, st.er.errors[n], err) && ByDeletion(st.height, n) !in st.er.deletionBlocks;
      assert ErrorCarried(id, n, st.height) in next.events && n in next.er.errors &&
             next.er.errors[n] == st.er.errors[n];
    }
  }

  // ---------------------------------------------------------------- order over runs

  /** No id is resolved twice. */
  lemma {:induction false} ResolvedOnce(events: seq<Event>, id: nat)
    requires forall i, j :: 0 <= i < j < |events| && Resolves(events[i]) && Resolves(events[j]) ==>
               events[i].id < events[j].id
    ensures Deliveries(events, id) + Carriages(events, id) <= 1
    decreases |events|
  {
    if events != [] {
      var last, init := events[|events| - 1], events[..|events| - 1];
      if Resolves(last) && last.id == id {
        forall e | e in init && Resolves(e)
          ensures e.id != id
        {
          var i :| 0 <= i < |init| && init[i] == e;
          assert events[i] == e;
        }
        Unresolved(init, id);
      } else {
        ResolvedOnce(init, id);
      }
    }
  }

  /** Two reports, `i` before `j`, and their resolutions at `p` and `q`. */
  predicate Reports(log: seq<Event>, i: int, j: int, p: int, q: int) {
    && 0 <= i < j < |log| && 0 <= p < |log| && 0 <= q < |log|
    && Fresh(log[i]) && Fresh(log[j]) && Resolves(log[p]) && Resolves(log[q])
    && log[p].id == log[i].id && log[q].id == log[j].id
  }

  /** Of two reported errors the one reported first is resolved first. */
  ghost predicate FirstInFirstOut(log: seq<Event>) {
    forall i, j, p, q :: Reports(log, i, j, p, q) ==> p < q
  }

  lemma ReportedFirst(st: State, i: int, j: int, p: int, q: int)
    requires OrderOk(st) && Reports(st.events, i, j, p, q)
    ensures p < q
  {
    assert st.events[i].id < st.events[j].id;
  }

  lemma OrderedLog(st: State)
    requires OrderOk(st)
    ensures FirstInFirstOut(st.events)
  {
    hide OrderOk, Reports;
    forall i, j, p, q | Reports(st.events, i, j, p, q)
      ensures p < q
    {
      ReportedFirst(st, i, j, p, q);
    }
  }

  /**
    First raised, first delivered, from genesis over every run: of two queued errors the
    one reported first is resolved first, and no error is ever resolved twice, whether it
    is delivered or carried.
   */
  lemma DeliveryOrder(env: Env, st: State, blocks: seq<Block>)
    requires EnvOk(env) && Genesis(env, st) && st.height + |blocks| < TWO63
    requires RunBlocks(env, st, blocks).Success?
    ensures var log := RunBlocks(env, st, blocks).value.events;
            && FirstInFirstOut(log)
            && (forall id :: Deliveries(log, id) + Carriages(log, id) <= 1)
  {
    hide RunBlocks, Inv, Genesis, FirstInFirstOut, FreshLogOk, QueueLogOk;
    GenesisIsSound(env, st);
    RunBlocksSound(env, st, blocks);
    var last := RunBlocks(env, st, blocks).value;
    var log := last.events;
    OrderedLog(last);
    forall id ensures Deliveries(log, id) + Carriages(log, id) <= 1 {
      ResolvedOnce(log, id);
    }
  }
}
