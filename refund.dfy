/**
 * The `Refund` instruction's accounts and its effect on the ledger, stated
 * as one function from the ledger before the transaction to the ledger after
 * it (or the error it aborts with), together with what it guarantees.
 */
module RefundIx {
  import opened LeBytes
  import opened Addresses
  import opened Ledger
  import opened TokenProgram
  import MakeIx

  /** The accounts a client passes to `refund`. */
  datatype RefundAccounts = RefundAccounts(
    maker: Address, mintA: Address, makerAtaA: Address, escrow: Address, vault: Address)

  /**
   * The account constraints: the maker signs, mint_a exists, the destination
   * is the maker's associated account of mint_a, the record exists and names
   * this mint_a and this maker (`has_one`), its address re-derives from the
   * stored seed and bump, and the vault is the associated account of
   * (escrow, mint_a).
   */
  function CheckRefundAccounts(s: LedgerState, signers: set<Address>, a: RefundAccounts): (o: Outcome)
    ensures o.Pass? ==> a.maker in signers && a.mintA in s.mints
    ensures o.Pass? ==> IsAssociated(s.tokens, a.makerAtaA, a.maker, a.mintA)
    ensures o.Pass? ==> a.escrow in s.escrows && s.escrows[a.escrow].maker == a.maker && s.escrows[a.escrow].mintA == a.mintA
    ensures o.Pass? ==> a.escrow == CreateProgramAddress(EscrowSeeds(a.maker, s.escrows[a.escrow].seed), s.escrows[a.escrow].bump)
    ensures o.Pass? ==> IsAssociated(s.tokens, a.vault, a.escrow, a.mintA)
  {
    if a.maker !in signers then Fail(MissingSigner)
    else if a.mintA !in s.mints then Fail(AccountNotInitialized)
    else if a.makerAtaA !in s.tokens then Fail(AccountNotInitialized)
    else if !IsAssociated(s.tokens, a.makerAtaA, a.maker, a.mintA) then Fail(ConstraintAssociated)
    else if a.escrow !in s.escrows then Fail(AccountNotInitialized)
    else if s.escrows[a.escrow].mintA != a.mintA then Fail(ConstraintHasOne)
    else if s.escrows[a.escrow].maker != a.maker then Fail(ConstraintHasOne)
    else if a.escrow != CreateProgramAddress(EscrowSeeds(a.maker, s.escrows[a.escrow].seed), s.escrows[a.escrow].bump)
    then Fail(ConstraintSeeds)
    else if a.vault !in s.tokens then Fail(AccountNotInitialized)
    else if !IsAssociated(s.tokens, a.vault, a.escrow, a.mintA) then Fail(ConstraintAssociated)
    else Pass
  }

  /**
   * The signer seeds the program hands to the token program to sign for the
   * vault's authority: `[b"escrow", maker, escrow.seed.to_le_bytes()]` and
   * the stored bump.
   */
  function VaultSignerSeeds(maker: Address, rec: EscrowRecord): (r: (Seeds, u8))
    ensures r.0 == EscrowSeeds(maker, rec.seed) && r.1 == rec.bump
  {
    (Seeds(ESCROW_TAG, maker, ToLeBytes(rec.seed)), rec.bump)
  }

  /**
   * Once the account constraints hold, the address the signer seeds sign for
   * is the escrow address, which is the vault's owner: the program can
   * authorise exactly this vault's debit and close.
   */
  lemma SignerSeedsSignForVault(s: LedgerState, signers: set<Address>, a: RefundAccounts)
    requires CheckRefundAccounts(s, signers, a).Pass?
    ensures var (seeds, bump) := VaultSignerSeeds(a.maker, s.escrows[a.escrow]);
            CreateProgramAddress(seeds, bump) == a.escrow == s.tokens[a.vault].owner
  {
  }

  /**
   * A whole `refund` transaction. On success: the vault's whole balance is
   * back in the maker's mint_a account, the vault and the record are gone,
   * and both rents are credited to the maker.
   */
  function Refund(s: LedgerState, rent: Rent, ids: set<nat>, a: RefundAccounts): (r: Result<LedgerState>)
    ensures r.Ok? ==> a.escrow in s.escrows && a.vault in s.tokens
    ensures r.Ok? ==> a.escrow !in r.value.escrows && a.vault !in r.value.tokens && r.value.mints == s.mints
  {
    var check := CheckRefundAccounts(s, Wallets(ids), a);
    if check.Fail? then Err(check.error)
    else
      var held := s.tokens[a.vault].amount;
      var dest := s.tokens[a.makerAtaA];
      if dest.amount + held > U64_MAX then Err(Overflow)
      else Ok(LedgerState(
        s.mints,
        s.tokens[a.makerAtaA := dest.(amount := dest.amount + held)] - {a.vault},
        s.escrows - {a.escrow},
        Credit(s.lamports, a.maker, rent.tokenAccount + rent.escrowAccount)))
  }

  /**
   * A successful Refund was signed by the maker stored in the record, and
   * the record named the supplied mint_a and re-derived from its own seed
   * and bump.
   */
  lemma RefundOnlyByMaker(s: LedgerState, rent: Rent, ids: set<nat>, a: RefundAccounts)
    requires Refund(s, rent, ids, a).Ok?
    ensures a.escrow in s.escrows
    ensures var rec := s.escrows[a.escrow];
            && rec.maker == a.maker && rec.maker.Wallet? && rec.maker.id in ids
            && rec.mintA == a.mintA
            && a.escrow == CreateProgramAddress(EscrowSeeds(rec.maker, rec.seed), rec.bump)
  {
  }

  /** Refund is rejected, whatever accounts are passed, when the record's maker has not signed. */
  lemma RefundRejectsOthers(s: LedgerState, rent: Rent, ids: set<nat>, a: RefundAccounts)
    requires a.escrow in s.escrows && s.escrows[a.escrow].maker !in Wallets(ids)
    ensures Refund(s, rent, ids, a).Err?
  {
  }

  /**
   * Refund moves the vault's entire balance into the maker's mint_a account,
   * deletes the vault and the record, credits both rents to the maker, and
   * changes nothing else.
   */
  lemma RefundReturnsVault(s: LedgerState, rent: Rent, ids: set<nat>, a: RefundAccounts)
    requires Refund(s, rent, ids, a).Ok?
    ensures var s' := Refund(s, rent, ids, a).value;
            && a.vault != a.makerAtaA && a.vault in s.tokens
            && s'.tokens[a.makerAtaA].amount == s.tokens[a.makerAtaA].amount + s.tokens[a.vault].amount
            && s'.tokens.Keys == s.tokens.Keys - {a.vault}
            && (forall k :: k in s'.tokens && k != a.makerAtaA ==> s'.tokens[k] == s.tokens[k])
            && a.escrow in s.escrows && s'.escrows == s.escrows - {a.escrow}
            && Lamports(s'.lamports, a.maker) == Lamports(s.lamports, a.maker) + rent.tokenAccount + rent.escrowAccount
            && (forall w :: w != a.maker ==> Lamports(s'.lamports, w) == Lamports(s.lamports, w))
            && s'.mints == s.mints
  {
  }

  /** Refund leaves the total of every mint unchanged. */
  lemma RefundConservesSupply(s: LedgerState, rent: Rent, ids: set<nat>, a: RefundAccounts, m: Address)
    requires Refund(s, rent, ids, a).Ok?
    ensures Supply(Refund(s, rent, ids, a).value.tokens, m) == Supply(s.tokens, m)
  {
    var held := s.tokens[a.vault].amount;
    var drained := Move(s.tokens, a.vault, a.makerAtaA, held);
    MoveConservesSupply(s.tokens, a.vault, a.makerAtaA, held, m);
    SupplyDelete(drained, a.vault, m);
    assert drained - {a.vault} == Refund(s, rent, ids, a).value.tokens;
  }

  /**
   * Draining a vault by its whole balance leaves it at zero, so the close
   * that follows cannot fail on a remaining balance: with the same authority
   * it succeeds.
   */
  lemma DrainedVaultCloses(s: LedgerState, rent: Rent, vault: Address, mint: Address, dest: Address,
                           authority: Address, signers: set<Address>, rentTo: Address)
    requires vault in s.tokens && vault != dest
    requires TransferChecked(s, vault, mint, dest, authority, signers, s.tokens[vault].amount).Ok?
    ensures var s1 := TransferChecked(s, vault, mint, dest, authority, signers, s.tokens[vault].amount).value;
            && s1.tokens[vault].amount == 0
            && CloseAccount(s1, rent, vault, rentTo, authority, signers).Ok?
  {
  }

  /** A second Refund of the same escrow fails, because the record is gone. */
  lemma RefundTwiceFails(s: LedgerState, rent: Rent, ids: set<nat>, a: RefundAccounts)
    requires Refund(s, rent, ids, a).Ok?
    ensures Refund(Refund(s, rent, ids, a).value, rent, ids, a) == Err(AccountNotInitialized)
  {
    var s' := Refund(s, rent, ids, a).value;
    assert a.makerAtaA in s'.tokens && s'.tokens[a.makerAtaA].owner == a.maker;
  }

  /** Refund moves its escrow address from Open to Absent and leaves every other address where it was. */
  lemma RefundCloses(s: LedgerState, rent: Rent, ids: set<nat>, a: RefundAccounts, e: Address)
    requires Refund(s, rent, ids, a).Ok?
    ensures var s' := Refund(s, rent, ids, a).value;
            if e == a.escrow then StatusOf(s, e) == Open && StatusOf(s', e) == Absent
            else StatusOf(s', e) == StatusOf(s, e)
  {
  }

  /** Refund keeps the ledger consistent. */
  lemma RefundPreservesConsistent(s: LedgerState, rent: Rent, ids: set<nat>, a: RefundAccounts)
    requires Consistent(s)
    requires Refund(s, rent, ids, a).Ok?
    ensures Consistent(Refund(s, rent, ids, a).value)
  {
    var s' := Refund(s, rent, ids, a).value;
    forall m
      ensures Supply(s'.tokens, m) <= U64_MAX
    {
      RefundConservesSupply(s, rent, ids, a, m);
    }
    RefundReturnsVault(s, rent, ids, a);
    SupplyBoundsPair(s.tokens, a.makerAtaA, a.vault, a.mintA);
    ClosingKeepsConsistent(s, s', a.escrow);
  }

  /**
   * In a consistent ledger the record's maker can always refund an open
   * escrow, given the maker's associated account of mint_a: the checks pass
   * and the returned balance cannot overflow.
   */
  lemma MakerCanRefund(s: LedgerState, rent: Rent, ids: set<nat>, e: Address)
    requires Consistent(s) && e in s.escrows
    requires s.escrows[e].maker in Wallets(ids)
    requires AssociatedTokenAddress(s.escrows[e].maker, s.escrows[e].mintA) in s.tokens
    ensures var rec := s.escrows[e];
            Refund(s, rent, ids, RefundAccounts(rec.maker, rec.mintA, AssociatedTokenAddress(rec.maker, rec.mintA),
                                                e, AssociatedTokenAddress(e, rec.mintA))).Ok?
  {
    var rec := s.escrows[e];
    assert RecordHasVault(s, e);
    var dest := AssociatedTokenAddress(rec.maker, rec.mintA);
    var vault := AssociatedTokenAddress(e, rec.mintA);
    assert dest != vault;
    SupplyBoundsPair(s.tokens, dest, vault, rec.mintA);
  }

  /**
   * Make followed by the matching Refund puts the ledger back as it was:
   * the same token accounts with the same balances (so the maker's mint_a
   * balance is restored), the same records and the same lamport balances.
   */
  lemma MakeThenRefundRestores(s: LedgerState, rent: Rent, bumpOf: BumpSearch, ids: set<nat>,
                               a: MakeIx.MakeAccounts, seed: u64, deposit: u64, recieve: u64)
    requires AmountsFit(s.tokens)
    requires MakeIx.Make(s, rent, bumpOf, ids, a, seed, deposit, recieve).Ok?
    ensures var s1 := MakeIx.Make(s, rent, bumpOf, ids, a, seed, deposit, recieve).value;
            var r := Refund(s1, rent, ids, RefundAccounts(a.maker, a.mintA, a.makerAtaA, a.escrow, a.vault));
            && r.Ok?
            && r.value.tokens == s.tokens
            && r.value.escrows == s.escrows
            && forall w :: Lamports(r.value.lamports, w) == Lamports(s.lamports, w)
  {
    var s1 := MakeIx.Make(s, rent, bumpOf, ids, a, seed, deposit, recieve).value;
    var ra := RefundAccounts(a.maker, a.mintA, a.makerAtaA, a.escrow, a.vault);
    assert CheckRefundAccounts(s1, Wallets(ids), ra).Pass?;
    var r := Refund(s1, rent, ids, ra).value;
    assert s1.tokens[a.makerAtaA].amount + s1.tokens[a.vault].amount == s.tokens[a.makerAtaA].amount;
    assert r.tokens == s.tokens;
    assert r.escrows == s.escrows;
  }
}
