/**
  Who may do what: for every message that is checked, exactly when it is accepted and
  exactly when it is refused for lack of authority, and what an accepted one sets.
 */
module Authority {
  import opened Machine
  import opened Decimal
  import opened SudoErrorCodec
  import opened Store
  import opened CallbackModule
  import opened ErrorsModule
  import opened FeeGrants
  import opened Chain
  import opened Invariants
  import opened Admission

  // ---------------------------------------------------------------- contracts

  /** Whose messages count as the contract's: itself, its admin, its owner. */
  function Voices(env: Env, st: State, contract: Address): (r: set<Str>) {
    {env.encode(contract)} +
    if contract !in st.contracts then {}
    else {st.contracts[contract].admin} +
         if st.contracts[contract].owner.Some? then {st.contracts[contract].owner.value} else {}
  }

  /** The sender is one of them, up to letter case. */
  ghost predicate SpeaksFor(env: Env, st: State, contract: Address, sender: Str) {
    exists name :: name in Voices(env, st, contract) && env.equalFold(sender, name)
  }

  /** ... and holds an account that can be paid back. */
  ghost predicate MaySchedule(env: Env, st: State, contract: Address, sender: Str) {
    && env.decode(sender).Some? && env.decode(sender).value !in env.blocked
    && SpeaksFor(env, st, contract, sender)
  }

  lemma ControlsIsVoice(env: Env, st: State, contract: Address, sender: Str)
    ensures Controls(env, st, contract, sender) <==> SpeaksFor(env, st, contract, sender)
  {
    var voices := Voices(env, st, contract);
    assert env.encode(contract) in voices;
    if contract in st.contracts {
      assert st.contracts[contract].admin in voices;
      if st.contracts[contract].owner.Some? {
        assert st.contracts[contract].owner.value in voices;
      }
    }
  }

  /** Exactly which requests are accepted, and which are refused for who sent them. */
  lemma RequestAuthority(env: Env, st: State, sender: Str, contract: Str, job: nat, height: int, fees: int)
    ensures var r := Handle(env, st, RequestCallback(sender, contract, job, height, fees));
            var offered := EstimateFees(st, height).Success? && fees >= EstimateFees(st, height).value.Total();
            var known := env.decode(contract).Some? && env.decode(contract).value in st.contracts;
            && (r.Success? <==>
                  && offered && known && MaySchedule(env, st, env.decode(contract).value, sender)
                  && Key(height, env.decode(contract).value, job) !in st.cb.pending
                  && fees <= Balance(st.bank, env.decode(sender).value))
            && (r == Failure(Unauthorized) <==>
                  offered && known && !MaySchedule(env, st, env.decode(contract).value, sender))
  {
    hide Controls, SpeaksFor, EstimateFees, Reserved;
    if env.decode(contract).Some? {
      ControlsIsVoice(env, st, env.decode(contract).value, sender);
    }
    QuotedNever(st, height);
    if EstimateFees(st, height).Success? {
      QuoteIsThreshold(env, st, EstimateFees(st, height).value, sender, contract, job, height, fees);
    }
  }

  lemma QuotedNever(st: State, height: int)
    ensures EstimateFees(st, height) != Failure(Unauthorized)
  {
  }

  /** Exactly which cancellations are accepted, and which are refused for who sent them. */
  lemma CancelAuthority(env: Env, st: State, sender: Str, contract: Str, job: nat, height: int)
    requires EnvOk(env) && Inv(env, st)
    ensures var r := Handle(env, st, CancelCallback(sender, contract, job, height));
            var known := env.decode(contract).Some? && Key(height, env.decode(contract).value, job) in st.cb.pending;
            && (r.Success? <==>
                  && known && MaySchedule(env, st, env.decode(contract).value, sender)
                  && var c := st.cb.pending[Key(height, env.decode(contract).value, job)];
                     c.fees.Total() <= Balance(st.bank, env.callbackAccount))
            && (r == Failure(Unauthorized) <==>
                  known && !MaySchedule(env, st, env.decode(contract).value, sender))
  {
    hide Controls, SpeaksFor, Send;
    if env.decode(contract).Some? && Key(height, env.decode(contract).value, job) in st.cb.pending {
      var key := Key(height, env.decode(contract).value, job);
      assert Filed(env, st.contracts, key, st.cb.pending[key]);
      ControlsIsVoice(env, st, key.contract, sender);
      SendRefusal(env.callbackAccount);
    }
  }

  /** A transfer is only ever refused for missing coins. */
  lemma SendRefusal(payer: Address)
    ensures forall b: map<Address, nat>, payee: Address, amount: nat ::
              Send(b, payer, payee, amount).Failure? ==> Send(b, payer, payee, amount) == Failure(InsufficientFunds)
  {
  }

  /** Exactly which subscriptions are accepted, and which are refused for who sent them. */
  lemma SubscribeAuthority(env: Env, st: State, sender: Str, contract: Str, fee: int)
    ensures var r := Handle(env, st, SubscribeToError(sender, contract, fee));
            var signs := env.decode(sender) != Some(env.callbackAccount);
            var known := env.decode(sender).Some? && env.decode(contract).Some? &&
                         env.decode(contract).value in st.contracts;
            && (r.Success? <==>
                  && signs && known
                  && SpeaksFor(env, st, env.decode(contract).value, env.encode(env.decode(sender).value))
                  && fee == st.er.params.fee && 0 <= fee <= Balance(st.bank, env.decode(sender).value))
            && (r == Failure(Unauthorized) <==>
                  !signs ||
                  (known && !SpeaksFor(env, st, env.decode(contract).value, env.encode(env.decode(sender).value))))
  {
    hide Controls, SpeaksFor;
    if env.decode(sender).Some? && env.decode(contract).Some? {
      ControlsIsVoice(env, st, env.decode(contract).value, env.encode(env.decode(sender).value));
    }
  }

  // ---------------------------------------------------------------- governance

  /** Callback parameters change exactly by a valid message of the authority, to what it sends. */
  lemma CallbackParamsAuthority(env: Env, st: State, authority: Str, p: CallbackParams)
    ensures var r := Handle(env, st, UpdateCallbackParams(authority, p));
            && (r.Success? <==>
                  && authority == env.authority && env.decode(authority).Some?
                  && 0 < p.gasLimit < TWO64 && p.maxBlock < TWO64 && p.maxFuture < TWO64
                  && p.blockMultiplier >= 0 && p.futureMultiplier >= 0)
            && (r.Success? ==>
                  && r.value.cb == st.cb.(params := p)
                  && r.value == st.(cb := r.value.cb, events := r.value.events))
            && (r == Failure(Unauthorized) <==> env.decode(authority).Some? && authority != env.authority)
  {
  }

  /** Error parameters likewise. */
  lemma ErrorParamsAuthority(env: Env, st: State, authority: Str, p: ErrorParams)
    ensures var r := Handle(env, st, UpdateErrorsParams(authority, p));
            && (r.Success? <==>
                  && authority == env.authority && env.decode(authority).Some?
                  && 0 < p.storedTime < TWO63 && p.fee >= 0 && 0 < p.period < TWO63)
            && (r.Success? ==> r.value == st.(er := st.er.(params := p)))
            && (r == Failure(Unauthorized) <==> env.decode(authority).Some? && authority != env.authority)
  {
  }

  /** No other message touches either. */
  lemma ParamsStay(env: Env, st: State, msg: Msg)
    requires Handle(env, st, msg).Success?
    ensures !msg.UpdateCallbackParams? ==> Handle(env, st, msg).value.cb.params == st.cb.params
    ensures !msg.UpdateErrorsParams? ==> Handle(env, st, msg).value.er.params == st.er.params
  {
    hide EstimateFees, Send, Refund, Controls, Admit;
  }

  // ---------------------------------------------------------------- errors

  /** Exactly which reported errors are taken, and each refusal with its cause. */
  lemma SetErrorIff(env: Env, st: State, err: SudoError)
    ensures var r, addr := SetError(env, st, err), env.decode(err.contractAddress);
            && (r.Success? <==> addr.Some? && err.moduleName != [] && addr.value in st.contracts)
            && (r == Failure(InvalidAddress) <==> addr.None?)
            && (r == Failure(ModuleNameMissing) <==> addr.Some? && err.moduleName == [])
            && (r == Failure(ContractNotFound) <==>
                  addr.Some? && err.moduleName != [] && addr.value !in st.contracts)
  {
  }
}
