/** The runtime: one instance of each pallet, the closed union of calls an
    extrinsic may carry, and sequential block execution. */
module Runtime {
  import opened Types
  import System
  import Balances
  import ProofOfExistence

  /** Every call an extrinsic can make, tagged by the pallet that handles it. */
  datatype RuntimeCall =
    | BalancesCall(balancesCall: Balances.Call)
    | ProofOfExistenceCall(poeCall: ProofOfExistence.Call)

  datatype Extrinsic = Extrinsic(caller: AccountId, call: RuntimeCall)
  datatype Header = Header(blockNumber: BlockNumber)
  datatype Block = Block(header: Header, extrinsics: seq<Extrinsic>)

  /** What `execute_block` reports: the per-extrinsic results of a block that was
      executed, or the structural error of a header whose number is not the
      incremented counter. */
  datatype BlockOutcome =
    | Executed(results: seq<DispatchResult>)
    | BlockNumberMismatch(expected: BlockNumber, found: BlockNumber)

  /** The storage of the three pallets, as values. */
  datatype State = State(
    blockNumber: BlockNumber,
    nonces: map<AccountId, Nonce>,
    balances: map<AccountId, Balance>,
    claims: map<Content, AccountId>)

  const Empty := State(0, map[], map[], map[])

  /** How many extrinsics of `exts` `who` submitted. */
  function Occurrences(exts: seq<Extrinsic>, who: AccountId): nat
  {
    if |exts| == 0 then 0
    else Occurrences(exts[..|exts| - 1], who) + (if exts[|exts| - 1].caller == who then 1 else 0)
  }

  /** No account's nonce would pass the 32-bit maximum while `exts` is executed. */
  ghost predicate NoncesFit(nonces: map<AccountId, Nonce>, exts: seq<Extrinsic>)
  {
    forall a :: System.NonceIn(nonces, a) + Occurrences(exts, a) <= U32_MAX
  }

  /** Routes `call` to the pallet it names, passing the extrinsic's caller first
      and then the call's own fields. */
  function DispatchIn(s: State, caller: AccountId, call: RuntimeCall): (r: (State, DispatchResult))
    ensures r.0.blockNumber == s.blockNumber && r.0.nonces == s.nonces
    ensures r.1.Err? ==> r.0 == s
    ensures call.BalancesCall? ==>
              && r.0.claims == s.claims
              && (r.1, r.0.balances)
                 == Balances.TransferIn(s.balances, caller, call.balancesCall.to, call.balancesCall.amount)
    ensures call.ProofOfExistenceCall? && call.poeCall.CreateClaim? ==>
              && r.0.balances == s.balances
              && (r.1, r.0.claims) == ProofOfExistence.CreateClaimIn(s.claims, caller, call.poeCall.claim)
    ensures call.ProofOfExistenceCall? && call.poeCall.RevokeClaim? ==>
              && r.0.balances == s.balances
              && (r.1, r.0.claims) == ProofOfExistence.RevokeClaimIn(s.claims, caller, call.poeCall.claim)
  {
    match call
    case BalancesCall(Transfer(to, amount)) =>
      var (res, balances) := Balances.TransferIn(s.balances, caller, to, amount);
      (s.(balances := balances), res)
    case ProofOfExistenceCall(CreateClaim(claim)) =>
      var (res, claims) := ProofOfExistence.CreateClaimIn(s.claims, caller, claim);
      (s.(claims := claims), res)
    case ProofOfExistenceCall(RevokeClaim(claim)) =>
      var (res, claims) := ProofOfExistence.RevokeClaimIn(s.claims, caller, claim);
      (s.(claims := claims), res)
  }

  /** One extrinsic: the caller's nonce goes up first, whatever the call's result,
      and then the call is dispatched. A failing call leaves the pallets' storage
      as the nonce increment left it. */
  function ApplyExtrinsic(s: State, e: Extrinsic): (r: (State, DispatchResult))
    requires System.NonceIn(s.nonces, e.caller) < U32_MAX
    ensures r.0.blockNumber == s.blockNumber
    ensures r.0.nonces == System.IncNonceIn(s.nonces, e.caller)
    ensures r.1.Err? ==> r.0.balances == s.balances && r.0.claims == s.claims
  {
    DispatchIn(s.(nonces := System.IncNonceIn(s.nonces, e.caller)), e.caller, e.call)
  }

  /** The extrinsics in order, each against the state the previous ones left,
      with one result per extrinsic and no result stopping the walk. */
  function ApplyExtrinsics(s: State, exts: seq<Extrinsic>): (r: (State, seq<DispatchResult>))
    requires NoncesFit(s.nonces, exts)
    ensures |r.1| == |exts|
    ensures r.0.blockNumber == s.blockNumber
    ensures forall a :: System.NonceIn(r.0.nonces, a) == System.NonceIn(s.nonces, a) + Occurrences(exts, a)
    decreases |exts|
  {
    if |exts| == 0 then (s, [])
    else
      var before := ApplyExtrinsics(s, exts[..|exts| - 1]);
      var step := ApplyExtrinsic(before.0, exts[|exts| - 1]);
      (step.0, before.1 + [step.1])
  }

  /** `execute_block`: the block number goes up once, the header must carry the
      new number, and then every extrinsic is applied in order. Per-extrinsic
      errors are recorded, never propagated. */
  function ExecuteBlockIn(s: State, block: Block): (r: (State, BlockOutcome))
    requires s.blockNumber < U32_MAX
    requires block.header.blockNumber == s.blockNumber + 1 ==> NoncesFit(s.nonces, block.extrinsics)
    ensures r.0.blockNumber == s.blockNumber + 1
    ensures r.1.Executed? <==> block.header.blockNumber == s.blockNumber + 1
    ensures r.1.Executed? ==>
              && |r.1.results| == |block.extrinsics|
              && forall a :: System.NonceIn(r.0.nonces, a)
                             == System.NonceIn(s.nonces, a) + Occurrences(block.extrinsics, a)
    ensures r.1.BlockNumberMismatch? ==>
              r.0 == s.(blockNumber := s.blockNumber + 1)
              && r.1 == BlockNumberMismatch(s.blockNumber + 1, block.header.blockNumber)
  {
    var started := s.(blockNumber := s.blockNumber + 1);
    if block.header.blockNumber != started.blockNumber then
      (started, BlockNumberMismatch(started.blockNumber, block.header.blockNumber))
    else
      var (finished, results) := ApplyExtrinsics(started, block.extrinsics);
      (finished, Executed(results))
  }

  /** Appending one extrinsic applies it to the state the others left. */
  lemma ApplyExtrinsicsSnoc(s: State, exts: seq<Extrinsic>, e: Extrinsic)
    requires NoncesFit(s.nonces, exts + [e])
    ensures NoncesFit(s.nonces, exts)
    ensures System.NonceIn(ApplyExtrinsics(s, exts).0.nonces, e.caller) < U32_MAX
    ensures var before := ApplyExtrinsics(s, exts);
            var step := ApplyExtrinsic(before.0, e);
            ApplyExtrinsics(s, exts + [e]) == (step.0, before.1 + [step.1])
  {
  }

  lemma {:induction false} OccurrencesAppend(xs: seq<Extrinsic>, ys: seq<Extrinsic>, who: AccountId)
    ensures Occurrences(xs + ys, who) == Occurrences(xs, who) + Occurrences(ys, who)
    decreases |ys|
  {
    if |ys| == 0 {
      assert xs + ys == xs;
    } else {
      var n := |ys| - 1;
      assert (xs + ys)[..|xs + ys| - 1] == xs + ys[..n];
      OccurrencesAppend(xs, ys[..n], who);
    }
  }

  lemma {:induction false} OccurrencesAtMostLength(exts: seq<Extrinsic>, who: AccountId)
    ensures Occurrences(exts, who) <= |exts|
    decreases |exts|
  {
    if |exts| > 0 {
      OccurrencesAtMostLength(exts[..|exts| - 1], who);
    }
  }

  /** Every nonce of `nonces` is at most `k` and `k + |exts|` fits in 32 bits. */
  lemma NoncesFitWhenSmall(nonces: map<AccountId, Nonce>, exts: seq<Extrinsic>, k: nat)
    requires forall a :: System.NonceIn(nonces, a) <= k
    requires k + |exts| <= U32_MAX
    ensures NoncesFit(nonces, exts)
  {
    forall a ensures System.NonceIn(nonces, a) + Occurrences(exts, a) <= U32_MAX {
      OccurrencesAtMostLength(exts, a);
    }
  }

  /** A correctly numbered block of two extrinsics runs the first on the
      advanced state and the second on what the first left. */
  lemma TwoExtrinsicBlock(s: State, block: Block)
    requires s.blockNumber < U32_MAX
    requires block.header.blockNumber == s.blockNumber + 1
    requires |block.extrinsics| == 2
    requires NoncesFit(s.nonces, block.extrinsics)
    ensures System.NonceIn(s.nonces, block.extrinsics[0].caller) < U32_MAX
    ensures var step1 := ApplyExtrinsic(s.(blockNumber := s.blockNumber + 1), block.extrinsics[0]);
            && System.NonceIn(step1.0.nonces, block.extrinsics[1].caller) < U32_MAX
            && var step2 := ApplyExtrinsic(step1.0, block.extrinsics[1]);
            ExecuteBlockIn(s, block) == (step2.0, Executed([step1.1, step2.1]))
  {
    var exts := block.extrinsics;
    var started := s.(blockNumber := s.blockNumber + 1);
    assert exts == [exts[0]] + [exts[1]];
    assert [exts[0]] == [] + [exts[0]];
    ApplyExtrinsicsSnoc(started, [exts[0]], exts[1]);
    ApplyExtrinsicsSnoc(started, [], exts[0]);
    var step1 := ApplyExtrinsic(started, exts[0]);
    var step2 := ApplyExtrinsic(step1.0, exts[1]);
    assert ApplyExtrinsics(started, []) == (started, []);
    assert [] + [step1.1] == [step1.1];
    assert ApplyExtrinsics(started, [exts[0]]) == (step1.0, [step1.1]);
    assert [step1.1] + [step2.1] == [step1.1, step2.1];
    assert ApplyExtrinsics(started, exts) == (step2.0, [step1.1, step2.1]);
  }

  /** A failing extrinsic neither stops the block nor undoes anything: from alice
      holding 100, bob's transfer of 10 fails for lack of funds, still costs bob a
      nonce, and alice's following transfer of 5 to bob goes through. */
  lemma FailedExtrinsicIsIsolated()
    ensures var s := Empty.(balances := map["alice" := 100]);
            var block := Block(Header(1), [
              Extrinsic("bob", BalancesCall(Balances.Transfer("alice", 10))),
              Extrinsic("alice", BalancesCall(Balances.Transfer("bob", 5)))]);
            NoncesFit(s.nonces, block.extrinsics) &&
            var (after, outcome) := ExecuteBlockIn(s, block);
            && outcome == Executed([Err(InsufficientBalance), Ok])
            && Balances.BalanceIn(after.balances, "alice") == 95
            && Balances.BalanceIn(after.balances, "bob") == 5
            && System.NonceIn(after.nonces, "bob") == 1
            && System.NonceIn(after.nonces, "alice") == 1
  {
    var s := Empty.(balances := map["alice" := 100]);
    var block := Block(Header(1), [
      Extrinsic("bob", BalancesCall(Balances.Transfer("alice", 10))),
      Extrinsic("alice", BalancesCall(Balances.Transfer("bob", 5)))]);
    NoncesFitWhenSmall(s.nonces, block.extrinsics, 0);
    TwoExtrinsicBlock(s, block);
    var step1 := ApplyExtrinsic(s.(blockNumber := 1), block.extrinsics[0]);
    assert step1.1 == Err(InsufficientBalance);
    assert step1.0.balances == s.balances;
    var step2 := ApplyExtrinsic(step1.0, block.extrinsics[1]);
    assert "alice" != "bob";
    assert step2.1 == Ok;
  }

  // The accounts and the two blocks of the example chain that `main` builds.
  const ALICE: AccountId := "alice"
  const BOB: AccountId := "bob"
  const CHARLI: AccountId := "charli"

  const BLOCK_1 := Block(Header(1), [
    Extrinsic(ALICE, BalancesCall(Balances.Transfer(BOB, 30))),
    Extrinsic(ALICE, BalancesCall(Balances.Transfer(CHARLI, 20)))])

  const BLOCK_2 := Block(Header(2), [
    Extrinsic(ALICE, ProofOfExistenceCall(ProofOfExistence.CreateClaim("my_document"))),
    Extrinsic(ALICE, ProofOfExistenceCall(ProofOfExistence.CreateClaim("bobs_document")))])

  const GENESIS := Empty.(balances := map[ALICE := 100])

  /** From genesis (alice holding 100), block 1 moves 30 to bob and 20 to
      charli; both transfers succeed and cost alice two nonces. */
  lemma Block1Scenario()
    ensures NoncesFit(GENESIS.nonces, BLOCK_1.extrinsics)
    ensures var (after, outcome) := ExecuteBlockIn(GENESIS, BLOCK_1);
            && outcome == Executed([Ok, Ok])
            && after.blockNumber == 1
            && Balances.BalanceIn(after.balances, ALICE) == 50
            && Balances.BalanceIn(after.balances, BOB) == 30
            && Balances.BalanceIn(after.balances, CHARLI) == 20
            && after.nonces == map[ALICE := 2]
            && after.claims == map[]
  {
    NoncesFitWhenSmall(GENESIS.nonces, BLOCK_1.extrinsics, 0);
    TwoExtrinsicBlock(GENESIS, BLOCK_1);
    var step1 := ApplyExtrinsic(GENESIS.(blockNumber := 1), BLOCK_1.extrinsics[0]);
    assert step1.1 == Ok && Balances.BalanceIn(step1.0.balances, ALICE) == 70;
    assert step1.0.nonces == map[ALICE := 1];
    var step2 := ApplyExtrinsic(step1.0, BLOCK_1.extrinsics[1]);
    assert step2.1 == Ok;
    assert step2.0.nonces == map[ALICE := 2];
  }

  /** Block 2, run on a state like the one block 1 leaves, claims
      "my_document" and "bobs_document" for alice; balances stay as they were
      and alice's nonce reaches four. */
  lemma Block2Scenario(afterBlock1: State)
    requires afterBlock1.blockNumber == 1 && afterBlock1.nonces == map[ALICE := 2] && afterBlock1.claims == map[]
    ensures NoncesFit(afterBlock1.nonces, BLOCK_2.extrinsics)
    ensures var (after, outcome) := ExecuteBlockIn(afterBlock1, BLOCK_2);
            && outcome == Executed([Ok, Ok])
            && after.blockNumber == 2
            && after.balances == afterBlock1.balances
            && ProofOfExistence.ClaimOwnerIn(after.claims, "my_document") == Some(ALICE)
            && ProofOfExistence.ClaimOwnerIn(after.claims, "bobs_document") == Some(ALICE)
            && System.NonceIn(after.nonces, ALICE) == 4
  {
    NoncesFitWhenSmall(afterBlock1.nonces, BLOCK_2.extrinsics, 2);
    TwoExtrinsicBlock(afterBlock1, BLOCK_2);
    var step1 := ApplyExtrinsic(afterBlock1.(blockNumber := 2), BLOCK_2.extrinsics[0]);
    assert step1.1 == Ok;
    assert "my_document" != "bobs_document";
    assert ProofOfExistence.ClaimOwnerIn(step1.0.claims, "bobs_document") == None;
    assert System.NonceIn(step1.0.nonces, ALICE) == 3;
  }

  class Runtime {
    const system: System.Pallet
    const balances: Balances.Pallet
    const proofOfExistence: ProofOfExistence.Pallet

    /** The storage of the three pallets this runtime owns. */
    ghost function Model(): State
      reads this, system, balances, proofOfExistence
    {
      State(system.blockNumber, system.nonce, balances.balances, proofOfExistence.claims)
    }

    /** A runtime owning one fresh pallet of each kind, all empty. */
    constructor ()
      ensures fresh(system) && fresh(balances) && fresh(proofOfExistence)
      ensures Model() == Empty
    {
      system := new System.Pallet();
      balances := new Balances.Pallet();
      proofOfExistence := new ProofOfExistence.Pallet();
    }

    /** Routes `call` to its pallet with `caller` as first argument. */
    method Dispatch(caller: AccountId, call: RuntimeCall) returns (r: DispatchResult)
      modifies balances, proofOfExistence
      ensures (Model(), r) == DispatchIn(old(Model()), caller, call)
    {
      match call
      case BalancesCall(Transfer(to, amount)) =>
        r := balances.Transfer(caller, to, amount);
      case ProofOfExistenceCall(CreateClaim(claim)) =>
        r := proofOfExistence.CreateClaim(caller, claim);
      case ProofOfExistenceCall(RevokeClaim(claim)) =>
        r := proofOfExistence.RevokeClaim(caller, claim);
    }

    /** Advances the block number, checks the header against it, then for each
        extrinsic in order bumps the caller's nonce and dispatches its call. */
    method ExecuteBlock(block: Block) returns (outcome: BlockOutcome)
      requires system.blockNumber < U32_MAX
      requires block.header.blockNumber == system.blockNumber + 1 ==> NoncesFit(system.nonce, block.extrinsics)
      modifies system, balances, proofOfExistence
      ensures (Model(), outcome) == ExecuteBlockIn(old(Model()), block)
    {
      system.IncBlockNumber();
      if block.header.blockNumber != system.GetBlockNumber() {
        return BlockNumberMismatch(system.GetBlockNumber(), block.header.blockNumber);
      }
      ghost var started := Model();
      var exts := block.extrinsics;
      var results: seq<DispatchResult> := [];
      var i := 0;
      while i < |exts|
        invariant 0 <= i <= |exts|
        invariant NoncesFit(started.nonces, exts[..i])
        invariant (Model(), results) == ApplyExtrinsics(started, exts[..i])
      {
        var e := exts[i];
        assert exts[..i + 1][..i] == exts[..i] && exts[..i + 1][i] == e;
        assert NoncesFit(started.nonces, exts[..i + 1]) by {
          forall a ensures System.NonceIn(started.nonces, a) + Occurrences(exts[..i + 1], a) <= U32_MAX {
            assert exts == exts[..i + 1] + exts[i + 1..];
            OccurrencesAppend(exts[..i + 1], exts[i + 1..], a);
          }
        }
        system.IncNonce(e.caller);
        var r := Dispatch(e.caller, e.call);
        results := results + [r];
        i := i + 1;
      }
      assert exts[..i] == exts;
      outcome := Executed(results);
    }
  }

  /** What `main` does: a fresh runtime, alice funded with 100 outside block
      execution, then blocks 1 and 2, each of which must execute. */
  method RunMain() returns (runtime: Runtime, outcome1: BlockOutcome, outcome2: BlockOutcome)
    ensures outcome1 == Executed([Ok, Ok]) && outcome2 == Executed([Ok, Ok])
    ensures runtime.system.GetBlockNumber() == 2
    ensures runtime.system.GetNonce(ALICE) == 4
    ensures runtime.balances.GetBalance(ALICE) == 50
    ensures runtime.balances.GetBalance(BOB) == 30
    ensures runtime.balances.GetBalance(CHARLI) == 20
    ensures runtime.proofOfExistence.GetClaim("my_document") == Some(ALICE)
    ensures runtime.proofOfExistence.GetClaim("bobs_document") == Some(ALICE)
  {
    runtime := new Runtime();
    runtime.balances.SetBalance(ALICE, 100);
    Block1Scenario();
    Block2Scenario(ExecuteBlockIn(GENESIS, BLOCK_1).0);
    outcome1 := runtime.ExecuteBlock(BLOCK_1);
    outcome2 := runtime.ExecuteBlock(BLOCK_2);
  }
}
