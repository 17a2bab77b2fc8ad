/** x/cwfees: the set of granting contracts. */
module FeeGrants {
  import opened Machine
  import opened Store

  /** RegisterAsGranter behind the message server's address check. */
  function Register(env: Env, st: State, contract: Str): (r: Result<State>) {
    if env.decode(contract).None? then Failure(InvalidAddress)
    else RegisterAddress(st, env.decode(contract).value)
  }

  function RegisterAddress(st: State, granter: Address): (r: Result<State>) {
    if granter !in st.contracts then Failure(NotAContract)
    else if granter in st.granters then Failure(AlreadyGranter)
    else Success(st.(granters := st.granters + {granter}))
  }

  /** UnregisterAsGranter. */
  function Unregister(env: Env, st: State, contract: Str): (r: Result<State>) {
    if env.decode(contract).None? then Failure(InvalidAddress)
    else if env.decode(contract).value !in st.granters then Failure(NotAGranter)
    else Success(st.(granters := st.granters - {env.decode(contract).value}))
  }
}
