/**
 * The flows of the repository's end-to-end tests, and one further flow
 * those tests do not run, stated against a `Chain`: a maker with 10 000
 * tokens of mint A (6 decimals) and a taker with 20 000 tokens of mint B,
 * each with 2 SOL; an escrow depositing 1 and asking 1.
 */
module Scenarios {
  import opened LeBytes
  import opened Addresses
  import opened Ledger
  import opened MakeIx
  import opened RefundIx
  import opened TakeIx
  import opened EscrowProgram

  const MAKER: Address := Wallet(1)
  const TAKER: Address := Wallet(2)
  const MINT_A: Address := Wallet(10)
  const MINT_B: Address := Wallet(11)
  const LAMPORTS_PER_SOL: nat := 1_000_000_000
  const MAKER_A: nat := 10_000_000_000
  const TAKER_B: nat := 20_000_000_000

  /** Both parties funded, both mints created, the maker holding mint A and the taker mint B. */
  function Funded(): (s: LedgerState)
    ensures Ata(MAKER, MINT_A) in s.tokens && s.tokens[Ata(MAKER, MINT_A)].amount == MAKER_A
    ensures Ata(TAKER, MINT_B) in s.tokens && s.tokens[Ata(TAKER, MINT_B)].amount == TAKER_B
  {
    LedgerState(
      {MINT_A, MINT_B},
      map[Ata(MAKER, MINT_A) := TokenAccount(MINT_A, MAKER, MAKER_A),
          Ata(TAKER, MINT_B) := TokenAccount(MINT_B, TAKER, TAKER_B)],
      map[],
      map[MAKER := 2 * LAMPORTS_PER_SOL, TAKER := 2 * LAMPORTS_PER_SOL])
  }

  /** The funded ledger is consistent: no records, every account in its associated shape, every supply within a u64. */
  lemma FundedConsistent()
    ensures Consistent(Funded())
  {
    var t := Funded().tokens;
    forall m
      ensures Supply(t, m) <= U64_MAX
    {
      SupplyRemove(t, Ata(MAKER, MINT_A), m);
      var rest := t - {Ata(MAKER, MINT_A)};
      SupplyRemove(rest, Ata(TAKER, MINT_B), m);
      assert rest - {Ata(TAKER, MINT_B)} == map[];
    }
  }

  /**
   * "Make an Escrow!" then "Refund the Escrow!": both succeed, the record is
   * gone, and the maker holds all 10 000 tokens and all 2 SOL again.
   */
  method MakeThenRefund(rent: Rent, bumpOf: BumpSearch, seed: u64)
    returns (made: Outcome, refunded: Outcome, balance: nat, lamports: nat, live: bool)
    requires rent.escrowAccount + rent.tokenAccount <= 2 * LAMPORTS_PER_SOL
    ensures made == Pass && refunded == Pass
    ensures balance == MAKER_A && lamports == 2 * LAMPORTS_PER_SOL
    ensures !live
  {
    var chain := new Chain(rent, bumpOf, Funded());
    var escrow := FindProgramAddress(EscrowSeeds(MAKER, seed), bumpOf).0;
    var vault := AssociatedTokenAddress(escrow, MINT_A);
    made := chain.Make({1}, MakeAccounts(MAKER, MINT_A, MINT_B, Ata(MAKER, MINT_A), escrow, vault), seed, 1, 1);
    refunded := chain.Refund({1}, RefundAccounts(MAKER, MINT_A, Ata(MAKER, MINT_A), escrow, vault));
    balance := chain.tokens[Ata(MAKER, MINT_A)].amount;
    lamports := Lamports(chain.lamports, MAKER);
    live := escrow in chain.escrows;
  }

  /**
   * Beyond the end-to-end tests: on a chain that starts consistent, a refund
   * signed by anyone but the maker fails and leaves the escrow open, the
   * maker's refund then passes, and a second refund by the maker fails.
   */
  method RefundOnlyOnceByMaker(rent: Rent, bumpOf: BumpSearch, seed: u64)
    returns (foreign: Outcome, first: Outcome, second: Outcome)
    requires rent.escrowAccount + rent.tokenAccount <= 2 * LAMPORTS_PER_SOL
    ensures foreign.Fail? && first == Pass && second.Fail?
  {
    var chain := new Chain(rent, bumpOf, Funded());
    FundedConsistent();
    assert chain.Valid();
    var escrow := FindProgramAddress(EscrowSeeds(MAKER, seed), bumpOf).0;
    var vault := AssociatedTokenAddress(escrow, MINT_A);
    var made := chain.Make({1}, MakeAccounts(MAKER, MINT_A, MINT_B, Ata(MAKER, MINT_A), escrow, vault), seed, 1, 1);
    assert made == Pass;
    var accounts := RefundAccounts(MAKER, MINT_A, Ata(MAKER, MINT_A), escrow, vault);
    foreign := chain.Refund({2}, accounts);
    first := chain.Refund({1}, accounts);
    second := chain.Refund({1}, accounts);
  }

  /** The ledger of the take flow before Make: the taker's mint A and the maker's mint B accounts exist, empty. */
  function TakeFlowStart(): (s: LedgerState)
    ensures Ata(TAKER, MINT_A) in s.tokens && s.tokens[Ata(TAKER, MINT_A)].amount == 0
    ensures Ata(MAKER, MINT_B) in s.tokens && s.tokens[Ata(MAKER, MINT_B)].amount == 0
  {
    var funded := Funded();
    funded.(tokens := funded.tokens[Ata(TAKER, MINT_A) := TokenAccount(MINT_A, TAKER, 0)]
                                   [Ata(MAKER, MINT_B) := TokenAccount(MINT_B, MAKER, 0)])
  }

  /** The ledger of the take flow is consistent too. */
  lemma TakeFlowStartConsistent()
    ensures Consistent(TakeFlowStart())
  {
    var t := TakeFlowStart().tokens;
    forall m
      ensures Supply(t, m) <= U64_MAX
    {
      SupplyRemove(t, Ata(TAKER, MINT_A), m);
      var rest := t - {Ata(TAKER, MINT_A)};
      SupplyRemove(rest, Ata(MAKER, MINT_B), m);
      assert rest - {Ata(MAKER, MINT_B)} == Funded().tokens;
      FundedConsistent();
    }
  }

  /** The maker's Make in the take flow succeeds, leaving 1 of mint A in the vault and the record open. */
  lemma TakeFlowMake(rent: Rent, bumpOf: BumpSearch, seed: u64, escrow: Address, vault: Address)
    requires rent.escrowAccount + rent.tokenAccount <= 2 * LAMPORTS_PER_SOL
    requires escrow == FindProgramAddress(EscrowSeeds(MAKER, seed), bumpOf).0
    requires vault == AssociatedTokenAddress(escrow, MINT_A)
    ensures var made := MakeIx.Make(TakeFlowStart(), rent, bumpOf, {1},
                                    MakeAccounts(MAKER, MINT_A, MINT_B, Ata(MAKER, MINT_A), escrow, vault), seed, 1, 1);
            && made.Ok?
            && made.value.tokens == TakeFlowStart().tokens[Ata(MAKER, MINT_A) := TokenAccount(MINT_A, MAKER, MAKER_A - 1)]
                                                          [vault := TokenAccount(MINT_A, escrow, 1)]
            && made.value.escrows == map[escrow := EscrowRecord(seed, MAKER, MINT_A, MINT_B, 1, bumpOf(EscrowSeeds(MAKER, seed)))]
            && made.value.mints == {MINT_A, MINT_B}
  {
  }

  /** The taker's Take on the ledger the take flow's Make leaves succeeds: the taker pays 1 of mint B and receives 1 of mint A. */
  lemma TakeFlowTake(s: LedgerState, rent: Rent, bumpOf: BumpSearch, seed: u64, escrow: Address, vault: Address)
    requires escrow == FindProgramAddress(EscrowSeeds(MAKER, seed), bumpOf).0
    requires vault == AssociatedTokenAddress(escrow, MINT_A)
    requires s.tokens == TakeFlowStart().tokens[Ata(MAKER, MINT_A) := TokenAccount(MINT_A, MAKER, MAKER_A - 1)]
                                               [vault := TokenAccount(MINT_A, escrow, 1)]
    requires s.escrows == map[escrow := EscrowRecord(seed, MAKER, MINT_A, MINT_B, 1, bumpOf(EscrowSeeds(MAKER, seed)))]
    requires s.mints == {MINT_A, MINT_B}
    ensures var taken := TakeIx.Take(s, rent, {2}, TakeAccounts(TAKER, MAKER, MINT_A, MINT_B, Ata(TAKER, MINT_A), Ata(TAKER, MINT_B),
                                                               Ata(MAKER, MINT_B), escrow, vault));
            && taken.Ok?
            && taken.value.tokens[Ata(TAKER, MINT_A)].amount == 1
            && taken.value.tokens[Ata(TAKER, MINT_B)].amount == TAKER_B - 1
            && taken.value.tokens[Ata(MAKER, MINT_B)].amount == 1
            && escrow !in taken.value.escrows
  {
  }

  /**
   * "Take the Escrow!": after the maker's Make, the taker pays 1 of mint B
   * and receives the deposited 1 of mint A; the record is gone. The taker's
   * mint A account and the maker's mint B account exist, empty, beforehand.
   */
  method MakeThenTake(rent: Rent, bumpOf: BumpSearch, seed: u64)
    returns (made: Outcome, taken: Outcome, takerA: nat, takerB: nat, makerB: nat, live: bool)
    requires rent.escrowAccount + rent.tokenAccount <= 2 * LAMPORTS_PER_SOL
    ensures made == Pass && taken == Pass
    ensures takerA == 1 && takerB == TAKER_B - 1 && makerB == 1
    ensures !live
  {
    var chain := new Chain(rent, bumpOf, TakeFlowStart());
    var escrow := FindProgramAddress(EscrowSeeds(MAKER, seed), bumpOf).0;
    var vault := AssociatedTokenAddress(escrow, MINT_A);
    TakeFlowMake(rent, bumpOf, seed, escrow, vault);
    made := chain.Make({1}, MakeAccounts(MAKER, MINT_A, MINT_B, Ata(MAKER, MINT_A), escrow, vault), seed, 1, 1);
    TakeFlowTake(chain.State(), rent, bumpOf, seed, escrow, vault);
    taken := chain.Take({2}, TakeAccounts(TAKER, MAKER, MINT_A, MINT_B, Ata(TAKER, MINT_A), Ata(TAKER, MINT_B),
                                          Ata(MAKER, MINT_B), escrow, vault));
    takerA := chain.tokens[Ata(TAKER, MINT_A)].amount;
    takerB := chain.tokens[Ata(TAKER, MINT_B)].amount;
    makerB := chain.tokens[Ata(MAKER, MINT_B)].amount;
    live := escrow in chain.escrows;
  }
}
