/**
  The exact conditions of the two callback theorems, over every completed run and for
  arbitrary contracts: when the log says exactly once, when the escrow is exact, and what
  holds of every key in any case.
 */
module Exactness {
  import opened Machine
  import opened SudoErrorCodec
  import opened Store
  import opened CallbackModule
  import opened ErrorsModule
  import opened Chain
  import opened Invariants
  import opened Settlement
  import opened Lifecycle
  import opened Delivery
  import opened Runs

  // ---------------------------------------------------------------- the log

  lemma DeliverAllTraced(env: Env, st: State, txs: seq<seq<Msg>>)
    requires EnvOk(env) && Inv(env, st) && Traced(st)
    ensures TraceKeeps(env, st, DeliverAll(env, st, txs))
  {
    hide Handle, DeliverAll, Inv, Traced, Follows;
    TraceStable(env, st);
    FollowsItself(st);
    DeliverAllKeeps(env, st, txs, (s: State) => TraceKeeps(env, st, s), Any);
  }

  /** Delivering errors ends nothing. */
  lemma DeliverErrorsTraced(env: Env, st: State, runs: nat -> SudoRun)
    requires EnvOk(env) && Inv(env, st) && Traced(st)
    ensures var r := DeliverErrors(env, st, Queued(st), st.er.queue, runs);
            r.Success? ==> TraceKeeps(env, st, r.value)
  {
    hide Handle, DeliverErrors, Inv, Traced, EndedTwice, Unended, StoreError;
    TraceStable(env, st);
    FollowsItself(st);
    forall s: State, contract: Address, err: SudoError
      | TraceKeeps(env, st, s) && env.decode(err.contractAddress) == Some(contract)
      ensures TraceKeeps(env, st, StoreError(s, contract, err))
    {
      StoreErrorKeeps(env, s, contract, err);
      StoreErrorAdds(s, contract, err);
      OtherTrace(s, StoreError(s, contract, err));
    }
    forall s: State, id: nat | TraceKeeps(env, st, s)
      ensures TraceKeeps(env, st, NoteDelivered(s, id))
    {
      SameStores(env, s, NoteDelivered(s, id));
      OtherTrace(s, NoteDelivered(s, id));
    }
    forall s: State, id: nat, record: nat | TraceKeeps(env, st, s)
      ensures TraceKeeps(env, st, NoteCarried(s, id, record))
    {
      SameStores(env, s, NoteCarried(s, id, record));
      OtherTrace(s, NoteCarried(s, id, record));
    }
    DeliverErrorsPreserves(env, st, Queued(st), st.er.queue, runs, (s: State) => TraceKeeps(env, st, s), Any);
  }

  lemma SameOnce(a: State, b: State)
    requires Traced(a) && Follows(a, b)
    ensures Logged(a) <==> Logged(b)
  {
    LoggedIff(a);
    LoggedIff(b);
    hide Logged, Traced, EndedTwice;
    if Once(b.events) {
      forall k ensures !EndedTwice(a.events, k) {
        assert !EndedTwice(b.events, k);
      }
    }
  }

  /** One completed block: its log is right if and only if it was before and nothing paid out was gone. */
  lemma RunBlockTraced(env: Env, st: State, b: Block)
    requires EnvOk(env) && Sound(env, st) && Traced(st) && RunBlock(env, st, b).Success?
    ensures var next := RunBlock(env, st, b).value;
            && Traced(next)
            && (Logged(next) <==> Logged(st) && WalkStored(env, DeliverAll(env, st, b.txs), b.callbackRuns))
  {
    hide Handle, Execute, DeliverAll, CallbackEnd, DeliverErrors, Grows, FreshLogOk, OrderOk, QueueLogOk, Prune, Inv,
         Traced, Follows, Logged, WalkStored, Resolved;
    BlockParts(env, st, b);
    var n := Owed(st.cb.pending) - Balance(st.bank, env.callbackAccount);
    var s1 := DeliverAll(env, st, b.txs);
    DeliverAllTraced(env, st, b.txs);
    DeliverAllShort(env, st, b.txs, n);
    SameOnce(st, s1);
    CallbackEndOnceIff(env, s1, b.callbackRuns, n);
    var s2, s3 := AtErrorEnd(env, st, b).value, BeforePruning(env, st, b).value;
    DeliverErrorsTraced(env, s2, b.errorRuns);
    SameOnce(s2, s3);
    PruneFrame(env, s3);
    var next := NextHeight(Prune(env, s3));
    SameTrace(s3, next);
    LoggedIff(s3);
    LoggedIff(next);
  }

  lemma {:induction false} RunBlocksTraced(env: Env, st: State, blocks: seq<Block>)
    requires EnvOk(env) && Sound(env, st) && Traced(st) && st.height + |blocks| < TWO63
    requires RunBlocks(env, st, blocks).Success?
    ensures var last := RunBlocks(env, st, blocks).value;
            Traced(last) && (Logged(last) <==> Logged(st) && RunStored(env, st, blocks))
    decreases |blocks|
  {
    hide Sound, RunBlock, Traced, Logged, WalkStored;
    if blocks != [] {
      RunBlockSound(env, st, blocks[0]);
      RunBlockTraced(env, st, blocks[0]);
      RunBlocksTraced(env, RunBlock(env, st, blocks[0]).value, blocks[1..]);
    }
  }

  /**
    Exactly once, both ways, from genesis over every completed run and for arbitrary
    contracts: every registration has exactly one end of its own, or is still pending, if
    and only if no walked callback was cancelled before its payout.
   */
  lemma ExactlyOnceIff(env: Env, st: State, blocks: seq<Block>)
    requires EnvOk(env) && Genesis(env, st) && st.height + |blocks| < TWO63
    requires RunBlocks(env, st, blocks).Success?
    ensures Logged(RunBlocks(env, st, blocks).value) <==> RunStored(env, st, blocks)
  {
    hide RunBlocks, Sound, Genesis, Logged, RunStored, Traced, Once;
    GenesisIsSound(env, st);
    LoggedIff(st);
    RunBlocksTraced(env, st, blocks);
  }

  /**
    Completion and exactly once together, both ways: with gas limits that fit int64, a run
    from genesis goes through with a right log if and only if no walked callback was gone
    when it was paid out.
   */
  lemma CompletesOnceIff(env: Env, st: State, blocks: seq<Block>)
    requires EnvOk(env) && Genesis(env, st) && st.height + |blocks| < TWO63 && st.cb.params.gasLimit < TWO63
    requires forall b :: b in blocks ==> ModestBlock(env, b)
    ensures RunBlocks(env, st, blocks).Success? && Logged(RunBlocks(env, st, blocks).value) <==>
              RunStored(env, st, blocks)
  {
    hide RunBlocks, Genesis, Logged, RunStored, Traced, Once, ModestBlock;
    GenesisIsSound(env, st);
    if RunStored(env, st, blocks) {
      RunKeepsBooks(env, st, blocks);
      LoggedIff(RunBlocks(env, st, blocks).value);
    } else if RunBlocks(env, st, blocks).Success? {
      ExactlyOnceIff(env, st, blocks);
    }
  }

  /** No executed callback of the block at this height dispatches a cancellation for it. */
  ghost predicate CalmBlock(b: Block, height: int) {
    forall k: Key :: CalmRun(b.callbackRuns(k), height)
  }

  ghost predicate CalmBlocks(blocks: seq<Block>, height: int) {
    forall i :: 0 <= i < |blocks| ==> CalmBlock(blocks[i], height + i)
  }

  lemma CalmWalkStored(env: Env, st: State, b: Block)
    requires EnvOk(env) && Sound(env, st) && CalmBlock(b, st.height)
    ensures WalkStored(env, DeliverAll(env, st, b.txs), b.callbackRuns)
  {
    hide Handle, DeliverAll, ErrorLogOk, Filed, AllStored, CalmRun;
    var n := Owed(st.cb.pending) - Balance(st.bank, env.callbackAccount);
    DeliverAllKeepsInv(env, st, b.txs);
    DeliverAllShort(env, st, b.txs, n);
    var s1 := DeliverAll(env, st, b.txs);
    var due := KeysAt(s1.cb.pending, s1.height);
    assert Enumerates(env.walk(due), due);
    CalmIsStored(env, s1, env.walk(due), s1.cb.pending, b.callbackRuns, n);
  }

  /** A condition on the messages alone that suffices: calm runs pay out only what is stored. */
  lemma {:induction false} CalmRunStored(env: Env, st: State, blocks: seq<Block>)
    requires EnvOk(env) && Sound(env, st) && CalmBlocks(blocks, st.height) && st.height + |blocks| < TWO63
    ensures RunStored(env, st, blocks)
    decreases |blocks|
  {
    hide Sound, RunBlock, CalmBlock, WalkStored;
    if blocks != [] {
      CalmWalkStored(env, st, blocks[0]);
      if RunBlock(env, st, blocks[0]).Success? {
        RunBlockSound(env, st, blocks[0]);
        var next := RunBlock(env, st, blocks[0]).value;
        forall i | 0 <= i < |blocks[1..]|
          ensures CalmBlock(blocks[1..][i], next.height + i)
        {
          assert blocks[1..][i] == blocks[i + 1];
        }
        CalmRunStored(env, next, blocks[1..]);
      }
    }
  }

  /**
    What holds of every key in any case: it is executed at most once, and then at its
    height; nothing is pending for a past height; and its ends are as many as its
    registrations, except for one more if it was cancelled at its own height and executed
    all the same.
   */
  lemma EndsOfKey(env: Env, st: State, blocks: seq<Block>, k: Key)
    requires EnvOk(env) && Genesis(env, st) && st.height + |blocks| < TWO63
    requires RunBlocks(env, st, blocks).Success?
    ensures var last := RunBlocks(env, st, blocks).value;
            var ends := Times(last.events, Cancellation, k) + Times(last.events, Execution, k);
            var extra := if EndedTwice(last.events, k) then 1 else 0;
            && Times(last.events, Execution, k) <= 1
            && (k in last.cb.pending ==> k.height >= last.height)
            && Times(last.events, Registration, k) + extra == ends + (if k in last.cb.pending then 1 else 0)
            && (forall n: nat :: n <= |last.events| ==> -extra <= Open(last.events[..n], k) <= 1)
            && (forall e :: e in last.events ==> Timely(e))
  {
    hide RunBlocks, Genesis, Times, ErrorLogOk, Filed;
    GenesisIsSound(env, st);
    RunBlocksTraced(env, st, blocks);
    RunBlocksSound(env, st, blocks);
    var last := RunBlocks(env, st, blocks).value;
    assert TracedKey(last, k);
    forall n: nat | n <= |last.events|
      ensures Open(last.events[..n], k) <= 1
      ensures Open(last.events[..n], k) >= if EndedTwice(last.events, k) then -1 else 0
    {
      assert TracedUpTo(last.events, n, k);
    }
  }

  // ---------------------------------------------------------------- the escrow

  lemma RunBlockShort(env: Env, st: State, b: Block, n: nat)
    requires EnvOk(env) && Sound(env, st) && Short(env, st, n) && RunBlock(env, st, b).Success?
    ensures Short(env, RunBlock(env, st, b).value, n + EndShortfall(env, DeliverAll(env, st, b.txs), b.callbackRuns))
  {
    hide Handle, Execute, DeliverAll, CallbackEnd, DeliverErrors, Grows, FreshLogOk, OrderOk, QueueLogOk, Prune, Inv,
         Resolved, EndShortfall;
    BlockParts(env, st, b);
    var s1 := DeliverAll(env, st, b.txs);
    DeliverAllShort(env, st, b.txs, n);
    CallbackEndKeeps(env, s1, b.callbackRuns, n);
    LateKeepsWalk(env, AtErrorEnd(env, st, b).value, b.errorRuns, n + EndShortfall(env, s1, b.callbackRuns));
    PruneFrame(env, BeforePruning(env, st, b).value);
  }

  /** The fees paid out twice in the run. */
  ghost function RunShortfall(env: Env, st: State, blocks: seq<Block>): (r: nat)
    requires EnvOk(env)
    decreases |blocks|
  {
    if blocks == [] then 0 else
    EndShortfall(env, DeliverAll(env, st, blocks[0].txs), blocks[0].callbackRuns) +
    match RunBlock(env, st, blocks[0])
      case Failure(_) => 0
      case Success(next) => RunShortfall(env, next, blocks[1..])
  }

  /** In every block of the run each due callback with fees was still stored when it was paid out. */
  ghost predicate RunPaidStored(env: Env, st: State, blocks: seq<Block>)
    requires EnvOk(env)
    decreases |blocks|
  {
    blocks == [] ||
    (&& WalkPaidStored(env, DeliverAll(env, st, blocks[0].txs), blocks[0].callbackRuns)
     && match RunBlock(env, st, blocks[0])
        case Failure(_) => true
        case Success(next) => RunPaidStored(env, next, blocks[1..]))
  }

  /** The shortage after a run is what it paid out twice, and none of it ever comes back. */
  lemma {:induction false} RunBlocksShort(env: Env, st: State, blocks: seq<Block>, n: nat)
    requires EnvOk(env) && Sound(env, st) && Short(env, st, n) && st.height + |blocks| < TWO63
    requires RunBlocks(env, st, blocks).Success?
    ensures Short(env, RunBlocks(env, st, blocks).value, n + RunShortfall(env, st, blocks))
    ensures RunShortfall(env, st, blocks) == 0 <==> RunPaidStored(env, st, blocks)
    decreases |blocks|
  {
    hide Sound, RunBlock, Short, Shortfall, StoredWhenPaid, DeliverAll;
    if blocks != [] {
      var s1, runs := DeliverAll(env, st, blocks[0].txs), blocks[0].callbackRuns;
      var due := KeysAt(s1.cb.pending, s1.height);
      assert Enumerates(env.walk(due), due);
      ShortfallZeroIff(env, s1, env.walk(due), s1.cb.pending, runs);
      RunBlockSound(env, st, blocks[0]);
      RunBlockShort(env, st, blocks[0], n);
      RunBlocksShort(env, RunBlock(env, st, blocks[0]).value, blocks[1..], n + EndShortfall(env, s1, runs));
    }
  }

  /**
    Escrow exactness, both ways, from genesis over every completed run and for arbitrary
    contracts: the account holds exactly what pending callbacks paid if and only if no
    walked callback with fees was cancelled before its payout.
   */
  lemma EscrowRunIff(env: Env, st: State, blocks: seq<Block>)
    requires EnvOk(env) && Genesis(env, st) && st.height + |blocks| < TWO63
    requires RunBlocks(env, st, blocks).Success?
    ensures EscrowExact(env, RunBlocks(env, st, blocks).value) <==> RunPaidStored(env, st, blocks)
  {
    hide RunBlocks, Sound, Genesis, RunShortfall, RunPaidStored, Traced, Once;
    GenesisIsSound(env, st);
    RunBlocksShort(env, st, blocks, 0);
  }

  // ---------------------------------------------------------------- when a run completes

  /**
    What lets a block go through: its callback EndBlocker can afford every entry of its
    walk, and every Sudo call of its error EndBlocker returns.
   */
  ghost predicate BlockReturns(env: Env, st: State, b: Block, n: nat)
    requires EnvOk(env)
  {
    && WalkAffordable(env, DeliverAll(env, st, b.txs), b.callbackRuns, n)
    && match AtErrorEnd(env, st, b)
       case Failure(_) => true
       case Success(s2) => QueueReturns(env, s2, b.errorRuns)
  }

  ghost predicate QueueReturns(env: Env, st: State, runs: nat -> SudoRun) {
    CallsReturn(env, st, Queued(st), st.er.queue, runs)
  }

  /** One block, for arbitrary contracts: nothing else stops it, pruning included. */
  lemma BlockCompletesIff(env: Env, st: State, b: Block, n: nat)
    requires EnvOk(env) && Sound(env, st) && Short(env, st, n)
    ensures RunBlock(env, st, b).Success? <==> BlockReturns(env, st, b, n)
  {
    hide Handle, Execute, DeliverAll, CallbackEnd, DeliverErrors, Grows, FreshLogOk, OrderOk, QueueLogOk, Inv,
         CallsReturn, WalkAffordable, Prune, Prunable, PruneSubscriptions;
    var s1 := DeliverAll(env, st, b.txs);
    DeliverAllErrors(env, st, b.txs);
    DeliverAllShort(env, st, b.txs, n);
    CallbackEndCompletesIff(env, s1, b.callbackRuns, n);
    if AtErrorEnd(env, st, b).Success? {
      var s2 := AtErrorEnd(env, st, b).value;
      CallbackEndErrors(env, s1, b.callbackRuns, n);
      DeliverErrorsComplete(env, s2, Queued(s2), s2.er.queue, b.errorRuns);
      if QueueReturns(env, s2, b.errorRuns) {
        QueueDecodes(env, s2);
        assert QueueLogOk(s2);
        QueueBehind(s2);
        DeliverErrorsResolve(env, s2, Queued(s2), s2.er.queue, b.errorRuns);
        PruneExact(env, BeforePruning(env, st, b).value);
      }
    }
  }

  lemma QueueBehind(st: State)
    requires QueueLogOk(st)
    ensures forall e, id :: e in st.events && Resolves(e) && id in Queued(st) ==> e.id < id
  {
  }

  /** In every block of the run both EndBlockers can go on. */
  ghost predicate RunReturns(env: Env, st: State, blocks: seq<Block>, n: nat)
    requires EnvOk(env)
    decreases |blocks|
  {
    blocks == [] ||
    (&& BlockReturns(env, st, blocks[0], n)
     && match RunBlock(env, st, blocks[0])
        case Failure(_) => true
        case Success(next) =>
          var s1 := DeliverAll(env, st, blocks[0].txs);
          RunReturns(env, next, blocks[1..], n + EndShortfall(env, s1, blocks[0].callbackRuns)))
  }

  lemma {:induction false} RunCompletes(env: Env, st: State, blocks: seq<Block>, n: nat)
    requires EnvOk(env) && Sound(env, st) && Short(env, st, n) && st.height + |blocks| < TWO63
    ensures RunBlocks(env, st, blocks).Success? <==> RunReturns(env, st, blocks, n)
    decreases |blocks|
  {
    hide Sound, RunBlock, Short, BlockReturns, DeliverAll, EndShortfall;
    if blocks != [] {
      BlockCompletesIff(env, st, blocks[0], n);
      if RunBlock(env, st, blocks[0]).Success? {
        RunBlockSound(env, st, blocks[0]);
        RunBlockShort(env, st, blocks[0], n);
        var short := n + EndShortfall(env, DeliverAll(env, st, blocks[0].txs), blocks[0].callbackRuns);
        RunCompletes(env, RunBlock(env, st, blocks[0]).value, blocks[1..], short);
      }
    }
  }

  /**
    When the chain stops, from genesis and for arbitrary contracts and parameters: a run
    goes through if and only if in each of its blocks no dispatched message panics, no
    charged fee is negative, and the account holds what each entry of the walk paid, less
    what was paid out twice before.
   */
  lemma RunCompletesIff(env: Env, st: State, blocks: seq<Block>)
    requires EnvOk(env) && Genesis(env, st) && st.height + |blocks| < TWO63
    ensures RunBlocks(env, st, blocks).Success? <==> RunReturns(env, st, blocks, 0)
  {
    hide RunBlocks, Sound, Genesis, RunReturns, Traced, Once;
    GenesisIsSound(env, st);
    RunCompletes(env, st, blocks, 0);
  }
}
