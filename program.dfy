/**
 * The escrow program run against a mutable ledger. The ledger's accounts are
 * fields of `Chain`; the program's instruction handlers (`deposit`,
 * `save_escrow`, `refund_and_close_vault`, and Take's two steps) and the
 * three entry points `make`, `refund` and `take` are methods that change
 * them step by step. A step that fails ends the entry point (Rust's `?`), and
 * the runtime then discards every change the transaction made (`Revert`).
 * Each entry point is proved to produce exactly the ledger that the
 * instruction's reference function (MakeIx.Make, RefundIx.Refund,
 * TakeIx.Take) describes, and to keep the ledger consistent.
 */
module EscrowProgram {
  import opened LeBytes
  import opened Addresses
  import opened Ledger
  import opened TokenProgram
  import opened MakeIx
  import opened RefundIx
  import opened TakeIx

  // ---------------------------------------------------------------------
  // The instructions as the program runs them: one step after another, each
  // a check or a token-program call, with the first error ending the run.
  // ---------------------------------------------------------------------

  /**
   * Anchor's `init` of the escrow account: the supplied address must be the
   * one created from the seeds and bump, must not be live, and the payer must
   * cover its rent. The new account's data is all zeroes.
   */
  function InitEscrowAccount(s: LedgerState, rent: Rent, payer: Address, escrow: Address,
                             seeds: Seeds, bump: u8): (r: Result<LedgerState>)
    ensures r.Ok? <==> escrow == CreateProgramAddress(seeds, bump) && !InUse(s, escrow)
                       && rent.escrowAccount <= Lamports(s.lamports, payer)
    ensures r.Ok? ==> r.value == s.(escrows := s.escrows[escrow := ZEROED_RECORD],
                                    lamports := Debit(s.lamports, payer, rent.escrowAccount))
  {
    if escrow != CreateProgramAddress(seeds, bump) then Err(ConstraintSeeds)
    else if InUse(s, escrow) then Err(AccountAlreadyInUse)
    else if Lamports(s.lamports, payer) < rent.escrowAccount then Err(InsufficientLamports)
    else Ok(s.(escrows := s.escrows[escrow := ZEROED_RECORD],
               lamports := Debit(s.lamports, payer, rent.escrowAccount)))
  }

  /** `make` step by step: validation, the escrow's `init`, the vault's `init`, `deposit`, `save_escrow`. */
  function MakeSteps(s: LedgerState, rent: Rent, bumpOf: BumpSearch, ids: set<nat>, a: MakeAccounts,
                     seed: u64, deposit: u64, recieve: u64): (r: Result<LedgerState>)
    ensures r.Ok? ==> CheckMakeAccounts(s, Wallets(ids), a).Pass?
    ensures r.Ok? ==> && a.escrow == FindProgramAddress(EscrowSeeds(a.maker, seed), bumpOf).0
                      && a.escrow !in s.escrows && r.value.mints == s.mints
                      && a.escrow in r.value.escrows
                      && r.value.escrows[a.escrow] == EscrowRecord(seed, a.maker, a.mintA, a.mintB, recieve, bumpOf(EscrowSeeds(a.maker, seed)))
  {
    var signers := Wallets(ids);
    var check := CheckMakeAccounts(s, signers, a);
    if check.Fail? then Err(check.error)
    else
      var bump := bumpOf(EscrowSeeds(a.maker, seed));
      var initialised := InitEscrowAccount(s, rent, a.maker, a.escrow, EscrowSeeds(a.maker, seed), bump);
      if initialised.Err? then initialised
      else
        var created := CreateAssociatedAccount(initialised.value, rent, a.maker, a.vault, a.escrow, a.mintA);
        if created.Err? then created
        else
          var deposited := TransferChecked(created.value, a.makerAtaA, a.mintA, a.vault, a.maker, signers, deposit as nat);
          if deposited.Err? then deposited
          else
            var t := deposited.value;
            Ok(t.(escrows := t.escrows[a.escrow := EscrowRecord(seed, a.maker, a.mintA, a.mintB, recieve, bump)]))
  }

  /** Running `make` step by step ends exactly where the closed-form MakeIx.Make says, error included. */
  lemma MakeStepsAgree(s: LedgerState, rent: Rent, bumpOf: BumpSearch, ids: set<nat>, a: MakeAccounts,
                       seed: u64, deposit: u64, recieve: u64)
    ensures MakeSteps(s, rent, bumpOf, ids, a, seed, deposit, recieve) == MakeIx.Make(s, rent, bumpOf, ids, a, seed, deposit, recieve)
  {
    var signers := Wallets(ids);
    var seeds := EscrowSeeds(a.maker, seed);
    var bump := bumpOf(seeds);
    if CheckMakeAccounts(s, signers, a).Pass? {
      var initialised := InitEscrowAccount(s, rent, a.maker, a.escrow, seeds, bump);
      if initialised.Ok? {
        var s1 := initialised.value;
        if a.vault == AssociatedTokenAddress(a.escrow, a.mintA) {
          assert a.vault != a.escrow;
          assert InUse(s1, a.vault) <==> InUse(s, a.vault);
        }
        if CreateAssociatedAccount(s1, rent, a.maker, a.vault, a.escrow, a.mintA).Ok? {
          MakeAfterCreateAgrees(s, rent, bumpOf, ids, a, seed, deposit, recieve);
        }
      }
    }
  }

  /** Once both accounts are created, the deposit and `save_escrow` end where MakeIx.Make says. */
  lemma MakeAfterCreateAgrees(s: LedgerState, rent: Rent, bumpOf: BumpSearch, ids: set<nat>, a: MakeAccounts,
                              seed: u64, deposit: u64, recieve: u64)
    requires CheckMakeAccounts(s, Wallets(ids), a).Pass?
    requires var seeds := EscrowSeeds(a.maker, seed);
             var initialised := InitEscrowAccount(s, rent, a.maker, a.escrow, seeds, bumpOf(seeds));
             && initialised.Ok?
             && CreateAssociatedAccount(initialised.value, rent, a.maker, a.vault, a.escrow, a.mintA).Ok?
    ensures MakeSteps(s, rent, bumpOf, ids, a, seed, deposit, recieve) == MakeIx.Make(s, rent, bumpOf, ids, a, seed, deposit, recieve)
  {
    MakeStepsAfterCreate(s, rent, bumpOf, ids, a, seed, deposit, recieve);
    MakeAfterCreate(s, rent, bumpOf, ids, a, seed, deposit, recieve);
    DebitTwice(s.lamports, a.maker, rent.escrowAccount, rent.tokenAccount);
  }

  /** The record Make stores, with the canonical bump. */
  function MadeRecord(bumpOf: BumpSearch, a: MakeAccounts, seed: u64, recieve: u64): EscrowRecord
  {
    EscrowRecord(seed, a.maker, a.mintA, a.mintB, recieve, bumpOf(EscrowSeeds(a.maker, seed)))
  }

  /** The token accounts after the deposit: the maker's source debited, the new vault holding the deposit. */
  function Deposited(s: LedgerState, a: MakeAccounts, deposit: nat): map<Address, TokenAccount>
    requires a.makerAtaA in s.tokens && deposit <= s.tokens[a.makerAtaA].amount
  {
    var source := s.tokens[a.makerAtaA];
    s.tokens[a.makerAtaA := source.(amount := source.amount - deposit)][a.vault := TokenAccount(a.mintA, a.escrow, deposit)]
  }

  /** Once both accounts are created, Make step by step is short of funds or ends with the deposit and the record saved. */
  lemma MakeStepsAfterCreate(s: LedgerState, rent: Rent, bumpOf: BumpSearch, ids: set<nat>, a: MakeAccounts,
                             seed: u64, deposit: u64, recieve: u64)
    requires CheckMakeAccounts(s, Wallets(ids), a).Pass?
    requires var seeds := EscrowSeeds(a.maker, seed);
             var initialised := InitEscrowAccount(s, rent, a.maker, a.escrow, seeds, bumpOf(seeds));
             && initialised.Ok?
             && CreateAssociatedAccount(initialised.value, rent, a.maker, a.vault, a.escrow, a.mintA).Ok?
    ensures MakeSteps(s, rent, bumpOf, ids, a, seed, deposit, recieve) ==
            if s.tokens[a.makerAtaA].amount < deposit as nat then Err(InsufficientFunds)
            else Ok(LedgerState(s.mints, Deposited(s, a, deposit as nat), s.escrows[a.escrow := MadeRecord(bumpOf, a, seed, recieve)],
                                Debit(Debit(s.lamports, a.maker, rent.escrowAccount), a.maker, rent.tokenAccount)))
  {
    var signers := Wallets(ids);
    var seeds := EscrowSeeds(a.maker, seed);
    var s1 := InitEscrowAccount(s, rent, a.maker, a.escrow, seeds, bumpOf(seeds)).value;
    var s2 := CreateAssociatedAccount(s1, rent, a.maker, a.vault, a.escrow, a.mintA).value;
    assert a.vault != a.makerAtaA;
    var deposited := TransferChecked(s2, a.makerAtaA, a.mintA, a.vault, a.maker, signers, deposit as nat);
    if s.tokens[a.makerAtaA].amount >= deposit as nat {
      assert deposited.Ok?;
      assert deposited.value.tokens == Deposited(s, a, deposit as nat);
      assert deposited.value.escrows[a.escrow := MadeRecord(bumpOf, a, seed, recieve)]
          == s.escrows[a.escrow := MadeRecord(bumpOf, a, seed, recieve)];
    }
  }

  /** Once both accounts can be created, the closed-form Make is short of funds or ends with the deposit and the record. */
  lemma MakeAfterCreate(s: LedgerState, rent: Rent, bumpOf: BumpSearch, ids: set<nat>, a: MakeAccounts,
                        seed: u64, deposit: u64, recieve: u64)
    requires CheckMakeAccounts(s, Wallets(ids), a).Pass?
    requires var seeds := EscrowSeeds(a.maker, seed);
             var initialised := InitEscrowAccount(s, rent, a.maker, a.escrow, seeds, bumpOf(seeds));
             && initialised.Ok?
             && CreateAssociatedAccount(initialised.value, rent, a.maker, a.vault, a.escrow, a.mintA).Ok?
    ensures MakeIx.Make(s, rent, bumpOf, ids, a, seed, deposit, recieve) ==
            if s.tokens[a.makerAtaA].amount < deposit as nat then Err(InsufficientFunds)
            else Ok(LedgerState(s.mints, Deposited(s, a, deposit as nat), s.escrows[a.escrow := MadeRecord(bumpOf, a, seed, recieve)],
                                Debit(s.lamports, a.maker, rent.escrowAccount + rent.tokenAccount)))
  {
    var seeds := EscrowSeeds(a.maker, seed);
    var s1 := InitEscrowAccount(s, rent, a.maker, a.escrow, seeds, bumpOf(seeds)).value;
    assert a.vault != a.escrow;
    assert InUse(s1, a.vault) <==> InUse(s, a.vault);
  }

  /** Two debits of one account are one debit of their sum. */
  lemma DebitTwice(lamports: map<Address, nat>, a: Address, x: nat, y: nat)
    requires x + y <= Lamports(lamports, a)
    ensures Debit(Debit(lamports, a, x), a, y) == Debit(lamports, a, x + y)
  {
  }

  /** Two credits of one account are one credit of their sum. */
  lemma CreditTwice(lamports: map<Address, nat>, a: Address, x: nat, y: nat)
    ensures Credit(Credit(lamports, a, x), a, y) == Credit(lamports, a, x + y)
  {
  }

  /**
   * The vault's withdrawal, shared by `refund_and_close_vault` and Take:
   * signing with the escrow's seeds, move the vault's whole balance to `to`,
   * then close the vault with its rent going to the maker.
   */
  function WithdrawAndClose(s: LedgerState, rent: Rent, escrow: Address, vault: Address, mint: Address,
                            to: Address, maker: Address, signers: set<Address>): (r: Result<LedgerState>)
    requires escrow in s.escrows && vault in s.tokens
    ensures r.Ok? ==> && s.tokens[vault].owner == escrow && s.tokens[vault].mint == mint
                      && to in s.tokens && s.tokens[to].mint == mint
    ensures r.Ok? ==> && vault !in r.value.tokens
                      && r.value.escrows == s.escrows && r.value.mints == s.mints
                      && Lamports(r.value.lamports, maker) == Lamports(s.lamports, maker) + rent.tokenAccount
  {
    var (seeds, bump) := VaultSignerSeeds(maker, s.escrows[escrow]);
    var programSigners := signers + {CreateProgramAddress(seeds, bump)};
    var moved := TransferChecked(s, vault, mint, to, escrow, programSigners, s.tokens[vault].amount);
    if moved.Err? then moved
    else CloseAccount(moved.value, rent, vault, maker, escrow, programSigners)
  }

  /**
   * Once the vault and the destination are validated, the withdrawal either
   * overflows the destination or empties the vault into it and closes it:
   * the close never meets a remaining balance, and the signer seeds always
   * sign for the vault's owner.
   */
  lemma WithdrawAndCloseDrains(s: LedgerState, rent: Rent, escrow: Address, vault: Address, mint: Address,
                               to: Address, maker: Address, signers: set<Address>)
    requires escrow in s.escrows && to in s.tokens && to != vault
    requires IsAssociated(s.tokens, vault, escrow, mint) && s.tokens[to].mint == mint
    requires escrow == CreateProgramAddress(EscrowSeeds(maker, s.escrows[escrow].seed), s.escrows[escrow].bump)
    ensures var r := WithdrawAndClose(s, rent, escrow, vault, mint, to, maker, signers);
            var held := s.tokens[vault].amount;
            if s.tokens[to].amount + held > U64_MAX then r == Err(Overflow)
            else r == Ok(s.(tokens := s.tokens[to := s.tokens[to].(amount := s.tokens[to].amount + held)] - {vault},
                            lamports := Credit(s.lamports, maker, rent.tokenAccount)))
  {
    var held := s.tokens[vault].amount;
    if s.tokens[to].amount + held <= U64_MAX {
      var (seeds, bump) := VaultSignerSeeds(maker, s.escrows[escrow]);
      var programSigners := signers + {CreateProgramAddress(seeds, bump)};
      var moved := TransferChecked(s, vault, mint, to, escrow, programSigners, held);
      assert moved.Ok?;
      assert moved.value.tokens[vault].amount == 0;
      assert moved.value.tokens - {vault} == s.tokens[to := s.tokens[to].(amount := s.tokens[to].amount + held)] - {vault};
    }
  }

  /** Anchor's `close = destination` on the escrow account: the record goes, its rent goes to `destination`. */
  function CloseEscrowAccount(s: LedgerState, rent: Rent, escrow: Address, destination: Address): (t: LedgerState)
    ensures t.escrows == s.escrows - {escrow} && escrow !in t.escrows
    ensures t.tokens == s.tokens && t.mints == s.mints
    ensures Lamports(t.lamports, destination) == Lamports(s.lamports, destination) + rent.escrowAccount
    ensures forall w :: w != destination ==> Lamports(t.lamports, w) == Lamports(s.lamports, w)
  {
    s.(escrows := s.escrows - {escrow}, lamports := Credit(s.lamports, destination, rent.escrowAccount))
  }

  /** `refund` step by step: validation, `refund_and_close_vault`, then closing the record to the maker. */
  function RefundSteps(s: LedgerState, rent: Rent, ids: set<nat>, a: RefundAccounts): (r: Result<LedgerState>)
    ensures r.Ok? ==> CheckRefundAccounts(s, Wallets(ids), a).Pass?
    ensures r.Ok? ==> && a.vault !in r.value.tokens && a.escrow !in r.value.escrows && r.value.mints == s.mints
  {
    var signers := Wallets(ids);
    var check := CheckRefundAccounts(s, signers, a);
    if check.Fail? then Err(check.error)
    else
      var withdrawn := WithdrawAndClose(s, rent, a.escrow, a.vault, a.mintA, a.makerAtaA, a.maker, signers);
      if withdrawn.Err? then withdrawn
      else Ok(CloseEscrowAccount(withdrawn.value, rent, a.escrow, a.maker))
  }

  /** Running `refund` step by step ends exactly where the closed-form RefundIx.Refund says, error included. */
  lemma RefundStepsAgree(s: LedgerState, rent: Rent, ids: set<nat>, a: RefundAccounts)
    ensures RefundSteps(s, rent, ids, a) == RefundIx.Refund(s, rent, ids, a)
  {
    if CheckRefundAccounts(s, Wallets(ids), a).Pass? {
      assert a.escrow != a.maker;
      WithdrawAndCloseDrains(s, rent, a.escrow, a.vault, a.mintA, a.makerAtaA, a.maker, Wallets(ids));
      CreditTwice(s.lamports, a.maker, rent.tokenAccount, rent.escrowAccount);
    }
  }

  /** Take step by step: validation, the taker's payment, the withdrawal to the taker, then closing the record. */
  function TakeSteps(s: LedgerState, rent: Rent, ids: set<nat>, a: TakeAccounts): (r: Result<LedgerState>)
    ensures r.Ok? ==> CheckTakeAccounts(s, Wallets(ids), a).Pass?
    ensures r.Ok? ==> && a.vault !in r.value.tokens && a.escrow !in r.value.escrows && r.value.mints == s.mints
  {
    var signers := Wallets(ids);
    var check := CheckTakeAccounts(s, signers, a);
    if check.Fail? then Err(check.error)
    else
      var paid := TransferChecked(s, a.takerAtaB, a.mintB, a.makerAtaB, a.taker, signers, s.escrows[a.escrow].recieve as nat);
      if paid.Err? then paid
      else
        var withdrawn := WithdrawAndClose(paid.value, rent, a.escrow, a.vault, a.mintA, a.takerAtaA, a.maker, signers);
        if withdrawn.Err? then withdrawn
        else Ok(CloseEscrowAccount(withdrawn.value, rent, a.escrow, a.maker))
  }

  /** Running Take step by step ends exactly where the closed-form TakeIx.Take says, error included. */
  lemma TakeStepsAgree(s: LedgerState, rent: Rent, ids: set<nat>, a: TakeAccounts)
    ensures TakeSteps(s, rent, ids, a) == TakeIx.Take(s, rent, ids, a)
  {
    var signers := Wallets(ids);
    if CheckTakeAccounts(s, signers, a).Pass? {
      var price := s.escrows[a.escrow].recieve as nat;
      if TransferChecked(s, a.takerAtaB, a.mintB, a.makerAtaB, a.taker, signers, price).Ok? {
        TakeAfterPaymentAgrees(s, rent, ids, a);
      }
    }
  }

  /** Once the taker's payment has gone through, the rest of Take step by step agrees with the closed form. */
  lemma TakeAfterPaymentAgrees(s: LedgerState, rent: Rent, ids: set<nat>, a: TakeAccounts)
    requires CheckTakeAccounts(s, Wallets(ids), a).Pass?
    requires TransferChecked(s, a.takerAtaB, a.mintB, a.makerAtaB, a.taker, Wallets(ids), s.escrows[a.escrow].recieve as nat).Ok?
    ensures TakeSteps(s, rent, ids, a) == TakeIx.Take(s, rent, ids, a)
  {
    TakeStepsAfterPayment(s, rent, ids, a);
    TakeAfterPayment(s, rent, ids, a);
    CreditTwice(s.lamports, a.maker, rent.tokenAccount, rent.escrowAccount);
  }

  /** The tokens after the taker's payment and the vault's withdrawal to the taker, before the vault is deleted. */
  function TakePayout(s: LedgerState, a: TakeAccounts): map<Address, TokenAccount>
    requires a.escrow in s.escrows && a.vault in s.tokens && a.takerAtaA in s.tokens
    requires a.takerAtaB in s.tokens && a.makerAtaB in s.tokens
    requires s.escrows[a.escrow].recieve as nat <= s.tokens[a.takerAtaB].amount
  {
    var paid := Move(s.tokens, a.takerAtaB, a.makerAtaB, s.escrows[a.escrow].recieve as nat);
    paid[a.takerAtaA := paid[a.takerAtaA].(amount := paid[a.takerAtaA].amount + s.tokens[a.vault].amount)]
  }

  /** Whether the withdrawal would overflow the taker's mint_a account once the payment is made. */
  predicate TakeOverflows(s: LedgerState, a: TakeAccounts)
    requires a.escrow in s.escrows && a.vault in s.tokens && a.takerAtaA in s.tokens
    requires a.takerAtaB in s.tokens && a.makerAtaB in s.tokens
    requires s.escrows[a.escrow].recieve as nat <= s.tokens[a.takerAtaB].amount
  {
    Move(s.tokens, a.takerAtaB, a.makerAtaB, s.escrows[a.escrow].recieve as nat)[a.takerAtaA].amount + s.tokens[a.vault].amount > U64_MAX
  }

  /** After the payment, Take step by step either overflows or withdraws, closes the vault and closes the record. */
  lemma TakeStepsAfterPayment(s: LedgerState, rent: Rent, ids: set<nat>, a: TakeAccounts)
    requires CheckTakeAccounts(s, Wallets(ids), a).Pass?
    requires TransferChecked(s, a.takerAtaB, a.mintB, a.makerAtaB, a.taker, Wallets(ids), s.escrows[a.escrow].recieve as nat).Ok?
    ensures TakeSteps(s, rent, ids, a) ==
            if TakeOverflows(s, a) then Err(Overflow)
            else Ok(CloseEscrowAccount(s.(tokens := TakePayout(s, a) - {a.vault},
                                          lamports := Credit(s.lamports, a.maker, rent.tokenAccount)), rent, a.escrow, a.maker))
  {
    var signers := Wallets(ids);
    var paid := TransferChecked(s, a.takerAtaB, a.mintB, a.makerAtaB, a.taker, signers, s.escrows[a.escrow].recieve as nat).value;
    PaymentKeepsTakeAccounts(s, signers, a);
    assert a.taker != a.escrow;
    assert a.vault != a.takerAtaB && a.vault != a.makerAtaB;
    WithdrawAndCloseDrains(paid, rent, a.escrow, a.vault, a.mintA, a.takerAtaA, a.maker, signers);
  }

  /** After the payment, the closed-form Take either overflows or ends with the payout, the record gone and both rents paid. */
  lemma TakeAfterPayment(s: LedgerState, rent: Rent, ids: set<nat>, a: TakeAccounts)
    requires CheckTakeAccounts(s, Wallets(ids), a).Pass?
    requires TransferChecked(s, a.takerAtaB, a.mintB, a.makerAtaB, a.taker, Wallets(ids), s.escrows[a.escrow].recieve as nat).Ok?
    ensures TakeIx.Take(s, rent, ids, a) ==
            if TakeOverflows(s, a) then Err(Overflow)
            else Ok(LedgerState(s.mints, TakePayout(s, a) - {a.vault}, s.escrows - {a.escrow},
                                Credit(s.lamports, a.maker, rent.tokenAccount + rent.escrowAccount)))
  {
  }

  /**
   * The taker's payment changes only balances of mint_b accounts, so the
   * account constraints still hold for the withdrawal that follows it.
   */
  lemma PaymentKeepsTakeAccounts(s: LedgerState, signers: set<Address>, a: TakeAccounts)
    requires CheckTakeAccounts(s, signers, a).Pass?
    requires TransferChecked(s, a.takerAtaB, a.mintB, a.makerAtaB, a.taker, signers, s.escrows[a.escrow].recieve as nat).Ok?
    ensures var paid := TransferChecked(s, a.takerAtaB, a.mintB, a.makerAtaB, a.taker, signers, s.escrows[a.escrow].recieve as nat).value;
            && CheckTakeAccounts(paid, signers, a).Pass?
            && paid.tokens == Move(s.tokens, a.takerAtaB, a.makerAtaB, s.escrows[a.escrow].recieve as nat)
  {
  }

  class Chain {
    const rent: Rent
    const bumpOf: BumpSearch
    var mints: set<Address>
    var tokens: map<Address, TokenAccount>
    var escrows: map<Address, EscrowRecord>
    var lamports: map<Address, nat>

    function State(): LedgerState
      reads this
    {
      LedgerState(mints, tokens, escrows, lamports)
    }

    /** Consistency of the ledger in its current state. */
    ghost predicate Valid()
      reads this
    {
      Consistent(State())
    }

    constructor (rent: Rent, bumpOf: BumpSearch, genesis: LedgerState)
      ensures this.rent == rent && this.bumpOf == bumpOf && State() == genesis
    {
      this.rent := rent;
      this.bumpOf := bumpOf;
      mints, tokens, escrows, lamports := genesis.mints, genesis.tokens, genesis.escrows, genesis.lamports;
    }

    /** Replace the whole ledger; used to commit a token-program call and to discard a failed transaction. */
    method Store(s: LedgerState)
      modifies this
      ensures State() == s
    {
      mints, tokens, escrows, lamports := s.mints, s.tokens, s.escrows, s.lamports;
    }

    /** Anchor's `init` of the escrow account, with the bump found from the seeds. */
    method InitEscrow(escrow: Address, seeds: Seeds, payer: Address) returns (r: Outcome, bump: u8)
      modifies this
      ensures bump == bumpOf(seeds)
      ensures var res := InitEscrowAccount(old(State()), rent, payer, escrow, seeds, bump);
              r == OutcomeOf(res) && State() == Committed(res, old(State()))
    {
      var (address, b) := FindProgramAddress(seeds, bumpOf);
      bump := b;
      if escrow != address {
        return Fail(ConstraintSeeds), bump;
      }
      if InUse(State(), escrow) {
        return Fail(AccountAlreadyInUse), bump;
      }
      if Lamports(lamports, payer) < rent.escrowAccount {
        return Fail(InsufficientLamports), bump;
      }
      escrows := escrows[escrow := ZEROED_RECORD];
      lamports := Debit(lamports, payer, rent.escrowAccount);
      r := Pass;
    }

    /** Anchor's `init` of the vault: the associated token program creates the (escrow, mint_a) account. */
    method InitVault(vault: Address, escrow: Address, mintA: Address, payer: Address) returns (r: Outcome)
      modifies this
      ensures var res := CreateAssociatedAccount(old(State()), rent, payer, vault, escrow, mintA);
              r == OutcomeOf(res) && State() == Committed(res, old(State()))
    {
      var res := CreateAssociatedAccount(State(), rent, payer, vault, escrow, mintA);
      if res.Err? {
        return Fail(res.error);
      }
      Store(res.value);
      r := Pass;
    }

    /** `Make::deposit`: the maker, signing, moves `deposit` of mint_a from their account into the vault. */
    method Deposit(a: MakeAccounts, signers: set<Address>, deposit: u64) returns (r: Outcome)
      modifies this
      ensures var res := TransferChecked(old(State()), a.makerAtaA, a.mintA, a.vault, a.maker, signers, deposit as nat);
              r == OutcomeOf(res) && State() == Committed(res, old(State()))
    {
      var res := TransferChecked(State(), a.makerAtaA, a.mintA, a.vault, a.maker, signers, deposit as nat);
      if res.Err? {
        return Fail(res.error);
      }
      Store(res.value);
      r := Pass;
    }

    /** `Make::save_escrow`: overwrite the escrow account's data with the record. */
    method SaveEscrow(escrow: Address, seed: u64, recieve: u64, maker: Address, mintA: Address, mintB: Address, bump: u8)
      modifies this
      ensures escrows == old(escrows)[escrow := EscrowRecord(seed, maker, mintA, mintB, recieve, bump)]
      ensures mints == old(mints) && tokens == old(tokens) && lamports == old(lamports)
    {
      escrows := escrows[escrow := EscrowRecord(seed, maker, mintA, mintB, recieve, bump)];
    }

    /**
     * The vault's withdrawal to `to` and its close, signed with the escrow's
     * seeds: `Refund::refund_and_close_vault` with the maker's account as
     * `to`, and Take's last step with the taker's.
     */
    method WithdrawAndCloseVault(escrow: Address, vault: Address, mint: Address, to: Address, maker: Address,
                                 txSigners: set<Address>) returns (r: Outcome)
      requires escrow in escrows && vault in tokens
      modifies this
      ensures var res := WithdrawAndClose(old(State()), rent, escrow, vault, mint, to, maker, txSigners);
              r == OutcomeOf(res) && (r.Pass? ==> State() == res.value)
    {
      var (seeds, bump) := VaultSignerSeeds(maker, escrows[escrow]);
      var signers := txSigners + {CreateProgramAddress(seeds, bump)};
      var held := tokens[vault].amount;
      var moved := TransferChecked(State(), vault, mint, to, escrow, signers, held);
      if moved.Err? {
        return Fail(moved.error);
      }
      Store(moved.value);
      var closed := CloseAccount(State(), rent, vault, maker, escrow, signers);
      if closed.Err? {
        return Fail(closed.error);
      }
      Store(closed.value);
      r := Pass;
    }

    /** Anchor's `close = maker` on the escrow account: delete the record and send its rent to `destination`. */
    method CloseEscrow(escrow: Address, destination: Address)
      modifies this
      ensures State() == CloseEscrowAccount(old(State()), rent, escrow, destination)
    {
      escrows := escrows - {escrow};
      lamports := Credit(lamports, destination, rent.escrowAccount);
    }

    /** Take's payment: the taker, signing, pays the record's `recieve` of mint_b to the maker. */
    method TakeDeposit(a: TakeAccounts, signers: set<Address>) returns (r: Outcome)
      requires a.escrow in escrows
      modifies this
      ensures var res := TransferChecked(old(State()), a.takerAtaB, a.mintB, a.makerAtaB, a.taker, signers,
                                         old(escrows[a.escrow].recieve) as nat);
              r == OutcomeOf(res) && State() == Committed(res, old(State()))
    {
      var res := TransferChecked(State(), a.takerAtaB, a.mintB, a.makerAtaB, a.taker, signers, escrows[a.escrow].recieve as nat);
      if res.Err? {
        return Fail(res.error);
      }
      Store(res.value);
      r := Pass;
    }

    /**
     * The `make` entry point: account validation (the two `init`s included),
     * then `deposit`, then `save_escrow`; any failure discards the whole
     * transaction. It ends where MakeIx.Make says and keeps the ledger
     * consistent.
     */
    method Make(ids: set<nat>, a: MakeAccounts, seed: u64, deposit: u64, recieve: u64) returns (r: Outcome)
      modifies this
      ensures var res := MakeIx.Make(old(State()), rent, bumpOf, ids, a, seed, deposit, recieve);
              r == OutcomeOf(res) && State() == Committed(res, old(State()))
      ensures old(Valid()) ==> Valid()
    {
      MakeStepsAgree(State(), rent, bumpOf, ids, a, seed, deposit, recieve);
      if Valid() && MakeIx.Make(State(), rent, bumpOf, ids, a, seed, deposit, recieve).Ok? {
        MakePreservesConsistent(State(), rent, bumpOf, ids, a, seed, deposit, recieve);
      }
      var pre := State();
      var signers := Wallets(ids);
      r := CheckMakeAccounts(pre, signers, a);
      if r.Fail? {
        return;
      }
      var bump;
      r, bump := InitEscrow(a.escrow, EscrowSeeds(a.maker, seed), a.maker);
      if r.Fail? {
        return;
      }
      r := InitVault(a.vault, a.escrow, a.mintA, a.maker);
      if r.Fail? {
        Store(pre);
        return;
      }
      r := Deposit(a, signers, deposit);
      if r.Fail? {
        Store(pre);
        return;
      }
      SaveEscrow(a.escrow, seed, recieve, a.maker, a.mintA, a.mintB, bump);
    }

    /**
     * The `refund` entry point: account validation, `refund_and_close_vault`,
     * then closing the record. It ends where RefundIx.Refund says and keeps
     * the ledger consistent.
     */
    method Refund(ids: set<nat>, a: RefundAccounts) returns (r: Outcome)
      modifies this
      ensures var res := RefundIx.Refund(old(State()), rent, ids, a);
              r == OutcomeOf(res) && State() == Committed(res, old(State()))
      ensures old(Valid()) ==> Valid()
    {
      RefundStepsAgree(State(), rent, ids, a);
      if Valid() && RefundIx.Refund(State(), rent, ids, a).Ok? {
        RefundPreservesConsistent(State(), rent, ids, a);
      }
      var pre := State();
      var signers := Wallets(ids);
      r := CheckRefundAccounts(pre, signers, a);
      if r.Fail? {
        return;
      }
      r := WithdrawAndCloseVault(a.escrow, a.vault, a.mintA, a.makerAtaA, a.maker, signers);
      if r.Fail? {
        Store(pre);
        return;
      }
      CloseEscrow(a.escrow, a.maker);
    }

    /**
     * The `take` entry point: account validation, the taker's payment, then
     * the withdrawal to the taker and the record's close. It ends where
     * TakeIx.Take says and keeps the ledger consistent.
     */
    method Take(ids: set<nat>, a: TakeAccounts) returns (r: Outcome)
      modifies this
      ensures var res := TakeIx.Take(old(State()), rent, ids, a);
              r == OutcomeOf(res) && State() == Committed(res, old(State()))
      ensures old(Valid()) ==> Valid()
    {
      TakeStepsAgree(State(), rent, ids, a);
      if Valid() && TakeIx.Take(State(), rent, ids, a).Ok? {
        TakePreservesConsistent(State(), rent, ids, a);
      }
      var pre := State();
      var signers := Wallets(ids);
      r := CheckTakeAccounts(pre, signers, a);
      if r.Fail? {
        return;
      }
      r := TakeDeposit(a, signers);
      if r.Fail? {
        return;
      }
      PaymentKeepsTakeAccounts(pre, signers, a);
      r := WithdrawAndCloseVault(a.escrow, a.vault, a.mintA, a.takerAtaA, a.maker, signers);
      if r.Fail? {
        Store(pre);
        return;
      }
      CloseEscrow(a.escrow, a.maker);
    }
  }
}
