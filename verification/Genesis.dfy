/** Genesis of x/cwfees: export, validation and import of the granting contracts. */
module Genesis {
  import opened Machine
  import opened Store
  import opened FeeGrants
  import opened Chain
  import opened Invariants
  import opened Delivery
  import opened Lifecycle
  import opened Keeper
  import Runs

  /** ExportState: the addresses in store order, as bech32 strings. */
  function Export(env: Env, order: seq<Address>): (r: seq<Str>)
    ensures |r| == |order|
    ensures forall i :: 0 <= i < |order| ==> r[i] == env.encode(order[i])
  {
    if order == [] then [] else
    Export(env, order[..|order| - 1]) + [env.encode(order[|order| - 1])]
  }

  /** ImportState: registers the addresses one after the other. */
  function Import(env: Env, st: State, granters: seq<Str>): (r: Result<State>)
    decreases |granters|
  {
    if granters == [] then Success(st) else
    var next :- Register(env, st, granters[0]);
    Import(env, next, granters[1..])
  }

  /** What GenesisState.Validate promises about a list it accepts. */
  ghost predicate ValidGenesis(env: Env, granters: seq<Str>) {
    && (forall i :: 0 <= i < |granters| ==> env.decode(granters[i]).Some?)
    && (forall i, j :: 0 <= i < j < |granters| ==> granters[i] != granters[j])
  }

  /** GenesisState.Validate: accepts exactly the lists of distinct valid addresses. */
  method Validate(env: Env, granters: seq<Str>) returns (r: Result<()>)
    ensures r.Success? <==> ValidGenesis(env, granters)
    ensures r.Failure? ==> r.error == DuplicateGranter || r.error == InvalidAddress
    ensures r == Failure(InvalidAddress) ==> exists s :: s in granters && env.decode(s).None?
    ensures r == Failure(DuplicateGranter) ==> exists i, j :: 0 <= i < j < |granters| && granters[i] == granters[j]
  {
    var seen: set<Str> := {};
    var i := 0;
    while i < |granters|
      invariant 0 <= i <= |granters|
      invariant forall s :: s in seen <==> s in granters[..i]
      invariant ValidGenesis(env, granters[..i])
    {
      if granters[i] in seen {
        var j :| 0 <= j < i && granters[..i][j] == granters[i];
        assert granters[j] == granters[i];
        return Failure(DuplicateGranter);
      }
      if env.decode(granters[i]).None? {
        assert granters[i] in granters;
        return Failure(InvalidAddress);
      }
      seen := seen + {granters[i]};
      assert granters[..i + 1] == granters[..i] + [granters[i]];
      i := i + 1;
    }
    assert granters[..i] == granters;
    r := Success(());
  }

  /** ExportState as a walk over the key set. */
  method ExportState(ctx: Context) returns (granters: seq<Str>)
    requires EnvOk(ctx.env)
    ensures granters == Export(ctx.env, ctx.env.walkGranters(ctx.granters))
  {
    var order := ctx.env.walkGranters(ctx.granters);
    granters := [];
    var i := 0;
    while i < |order|
      invariant 0 <= i <= |order|
      invariant granters == Export(ctx.env, order[..i])
    {
      granters := granters + [ctx.env.encode(order[i])];
      assert order[..i + 1][..i] == order[..i];
      i := i + 1;
    }
    assert order[..i] == order;
  }

  /** ImportState as a loop of registrations; an error leaves the earlier ones in place. */
  method ImportState(ctx: Context, granters: seq<Str>) returns (r: Result<()>)
    modifies ctx
    ensures Agrees(r, ctx.View(), Import(ctx.env, old(ctx.View()), granters))
  {
    hide Register;
    ghost var start := ctx.View();
    var i := 0;
    while i < |granters|
      invariant 0 <= i <= |granters|
      invariant Import(ctx.env, ctx.View(), granters[i..]) == Import(ctx.env, start, granters)
    {
      assert granters[i..][1..] == granters[i + 1..];
      r := ctx.RegisterGranter(granters[i]);
      if r.Failure? { return; }
      i := i + 1;
    }
    r := Success(());
  }

  lemma {:induction false} ImportAdds(env: Env, st: State, order: seq<Address>)
    requires forall a :: a in order ==> a in st.contracts && a !in st.granters && ValidAddress(env, a)
    requires forall i, j :: 0 <= i < j < |order| ==> order[i] != order[j]
    ensures Import(env, st, Export(env, order)) == Success(st.(granters := st.granters + (set a | a in order)))
    decreases |order|
  {
    var names := Export(env, order);
    if order == [] {
      assert st.granters + (set a | a in order) == st.granters;
    } else {
      assert names[0] == env.encode(order[0]) && order[0] in order;
      var next := st.(granters := st.granters + {order[0]});
      assert Register(env, st, names[0]) == Success(next);
      assert forall a :: a in order <==> a == order[0] || a in order[1..];
      assert names[1..] == Export(env, order[1..]);
      ImportAdds(env, next, order[1..]);
      assert next.granters + (set a | a in order[1..]) == st.granters + (set a | a in order);
    }
  }

  /**
    Granter genesis round trip: the export of a sound state validates, and importing
    it into an empty store where its contracts exist rebuilds the same set.
   */
  lemma ExportImports(env: Env, st: State, empty: State)
    requires EnvOk(env) && GrantersOk(env, st)
    requires empty.granters == {} && st.granters <= empty.contracts.Keys
    ensures var names := Export(env, env.walkGranters(st.granters));
            && ValidGenesis(env, names)
            && Import(env, empty, names) == Success(empty.(granters := st.granters))
  {
    var order := env.walkGranters(st.granters);
    assert Enumerates(order, st.granters);
    var names := Export(env, order);
    forall i, j | 0 <= i < j < |names|
      ensures names[i] != names[j]
    {
      assert order[i] in order && order[j] in order;
    }
    forall i | 0 <= i < |names|
      ensures env.decode(names[i]).Some?
    {
      assert order[i] in order;
    }
    ImportAdds(env, empty, order);
    assert {} + (set a | a in order) == st.granters;
  }

  /** ... which holds of every state a run from the chain's genesis reaches. */
  lemma ReachableExportImports(env: Env, st: State, blocks: seq<Block>, empty: State)
    requires EnvOk(env) && Runs.Genesis(env, st) && st.height + |blocks| < TWO63
    requires RunBlocks(env, st, blocks).Success?
    requires empty.granters == {} && RunBlocks(env, st, blocks).value.granters <= empty.contracts.Keys
    ensures var last := RunBlocks(env, st, blocks).value;
            var names := Export(env, env.walkGranters(last.granters));
            && ValidGenesis(env, names)
            && Import(env, empty, names) == Success(empty.(granters := last.granters))
  {
    hide RunBlocks, Runs.Genesis, ValidGenesis, Import, ErrorLogOk, Traced, Once, EnvOk;
    Runs.GenesisIsSound(env, st);
    Runs.RunBlocksSound(env, st, blocks);
    ExportImports(env, RunBlocks(env, st, blocks).value, empty);
  }
}
