/**
 * The `Take` instruction. Only its entry point is part of this model
 * (programs/escrow/src/lib.rs): the taker first pays the maker, then the
 * vault is withdrawn to the taker and closed. Its account constraints are
 * taken to mirror Refund's, with the taker as the signer and the
 * destination of the vault, and with `has_one` checks on maker, mint_a and
 * mint_b.
 */
module TakeIx {
  import opened LeBytes
  import opened Addresses
  import opened Ledger
  import RefundIx

  /** The accounts a client passes to `take`. */
  datatype TakeAccounts = TakeAccounts(
    taker: Address, maker: Address, mintA: Address, mintB: Address,
    takerAtaA: Address, takerAtaB: Address, makerAtaB: Address,
    escrow: Address, vault: Address)

  /**
   * The account constraints: the taker signs, both mints exist, the three
   * party accounts are the right associated accounts, the record exists,
   * names this maker and these mints, re-derives from its seed and bump, and
   * the vault is the associated account of (escrow, mint_a).
   */
  function CheckTakeAccounts(s: LedgerState, signers: set<Address>, a: TakeAccounts): (o: Outcome)
    ensures o.Pass? ==> a.taker in signers && a.mintA in s.mints && a.mintB in s.mints
    ensures o.Pass? ==> IsAssociated(s.tokens, a.takerAtaA, a.taker, a.mintA)
    ensures o.Pass? ==> IsAssociated(s.tokens, a.takerAtaB, a.taker, a.mintB)
    ensures o.Pass? ==> IsAssociated(s.tokens, a.makerAtaB, a.maker, a.mintB)
    ensures o.Pass? ==> a.escrow in s.escrows && s.escrows[a.escrow].maker == a.maker
    ensures o.Pass? ==> s.escrows[a.escrow].mintA == a.mintA && s.escrows[a.escrow].mintB == a.mintB
    ensures o.Pass? ==> a.escrow == CreateProgramAddress(EscrowSeeds(a.maker, s.escrows[a.escrow].seed), s.escrows[a.escrow].bump)
    ensures o.Pass? ==> IsAssociated(s.tokens, a.vault, a.escrow, a.mintA)
  {
    if a.taker !in signers then Fail(MissingSigner)
    else if a.mintA !in s.mints || a.mintB !in s.mints then Fail(AccountNotInitialized)
    else if a.takerAtaA !in s.tokens || a.takerAtaB !in s.tokens || a.makerAtaB !in s.tokens then Fail(AccountNotInitialized)
    else if !IsAssociated(s.tokens, a.takerAtaA, a.taker, a.mintA) then Fail(ConstraintAssociated)
    else if !IsAssociated(s.tokens, a.takerAtaB, a.taker, a.mintB) then Fail(ConstraintAssociated)
    else if !IsAssociated(s.tokens, a.makerAtaB, a.maker, a.mintB) then Fail(ConstraintAssociated)
    else if a.escrow !in s.escrows then Fail(AccountNotInitialized)
    else if s.escrows[a.escrow].maker != a.maker then Fail(ConstraintHasOne)
    else if s.escrows[a.escrow].mintA != a.mintA then Fail(ConstraintHasOne)
    else if s.escrows[a.escrow].mintB != a.mintB then Fail(ConstraintHasOne)
    else if a.escrow != CreateProgramAddress(EscrowSeeds(a.maker, s.escrows[a.escrow].seed), s.escrows[a.escrow].bump)
    then Fail(ConstraintSeeds)
    else if a.vault !in s.tokens then Fail(AccountNotInitialized)
    else if !IsAssociated(s.tokens, a.vault, a.escrow, a.mintA) then Fail(ConstraintAssociated)
    else Pass
  }

  /**
   * A whole `take` transaction. On success: the taker has paid `recieve` of
   * mint_b to the maker, the vault's whole balance of mint_a has gone to the
   * taker, the vault and the record are gone, and both rents are credited to
   * the maker.
   */
  function Take(s: LedgerState, rent: Rent, ids: set<nat>, a: TakeAccounts): (r: Result<LedgerState>)
    ensures r.Ok? ==> a.escrow in s.escrows && a.vault in s.tokens
    ensures r.Ok? ==> a.escrow !in r.value.escrows && a.vault !in r.value.tokens && r.value.mints == s.mints
  {
    var check := CheckTakeAccounts(s, Wallets(ids), a);
    if check.Fail? then Err(check.error)
    else
      var price := s.escrows[a.escrow].recieve as nat;
      if s.tokens[a.takerAtaB].amount < price then Err(InsufficientFunds)
      else if a.takerAtaB != a.makerAtaB && s.tokens[a.makerAtaB].amount + price > U64_MAX then Err(Overflow)
      else
        var paid := Move(s.tokens, a.takerAtaB, a.makerAtaB, price);
        var held := s.tokens[a.vault].amount;
        if paid[a.takerAtaA].amount + held > U64_MAX then Err(Overflow)
        else Ok(LedgerState(
          s.mints,
          paid[a.takerAtaA := paid[a.takerAtaA].(amount := paid[a.takerAtaA].amount + held)] - {a.vault},
          s.escrows - {a.escrow},
          Credit(s.lamports, a.maker, rent.tokenAccount + rent.escrowAccount)))
  }

  /** A successful Take was signed by the taker and found a live record naming this maker and these mints. */
  lemma TakeChecks(s: LedgerState, rent: Rent, ids: set<nat>, a: TakeAccounts)
    requires Take(s, rent, ids, a).Ok?
    ensures a.taker.Wallet? && a.taker.id in ids
    ensures a.escrow in s.escrows
    ensures var rec := s.escrows[a.escrow];
            rec.maker == a.maker && rec.mintA == a.mintA && rec.mintB == a.mintB
            && a.escrow == CreateProgramAddress(EscrowSeeds(rec.maker, rec.seed), rec.bump)
  {
  }

  /**
   * Take's token accounts are those of two transfers in order: `recieve` of
   * mint_b from the taker's account to the maker's, then the vault's whole
   * balance of mint_a to the taker's account, after which the vault is
   * deleted. The payment never touches the vault.
   */
  lemma TakePaysThenWithdraws(s: LedgerState, rent: Rent, ids: set<nat>, a: TakeAccounts)
    requires Take(s, rent, ids, a).Ok?
    ensures a.escrow in s.escrows && a.vault in s.tokens
    ensures var price := s.escrows[a.escrow].recieve as nat;
            && a.takerAtaB in s.tokens && a.makerAtaB in s.tokens && price <= s.tokens[a.takerAtaB].amount
            && var paid := Move(s.tokens, a.takerAtaB, a.makerAtaB, price);
               && a.takerAtaA in paid && a.vault != a.takerAtaA && paid[a.vault] == s.tokens[a.vault]
               && Take(s, rent, ids, a).value.tokens == Move(paid, a.vault, a.takerAtaA, s.tokens[a.vault].amount) - {a.vault}
  {
    assert a.vault != a.takerAtaB && a.vault != a.makerAtaB;
  }

  /**
   * Take deletes the vault and the record, credits both rents to the maker,
   * and changes no mint and no other lamport balance. When the two mints
   * differ and the taker is not the maker, the taker's two accounts and the
   * maker's mint_b account are distinct: the taker pays exactly `recieve`
   * of mint_b, the maker receives it, the taker receives the vault's whole
   * balance of mint_a, and no other account changes.
   */
  lemma TakeSwaps(s: LedgerState, rent: Rent, ids: set<nat>, a: TakeAccounts)
    requires Take(s, rent, ids, a).Ok?
    ensures a.escrow in s.escrows && a.vault in s.tokens
    ensures var s' := Take(s, rent, ids, a).value;
            && s'.tokens.Keys == s.tokens.Keys - {a.vault}
            && s'.escrows == s.escrows - {a.escrow}
            && s'.mints == s.mints
            && Lamports(s'.lamports, a.maker) == Lamports(s.lamports, a.maker) + rent.tokenAccount + rent.escrowAccount
            && (forall w :: w != a.maker ==> Lamports(s'.lamports, w) == Lamports(s.lamports, w))
    ensures a.mintA != a.mintB && a.taker != a.maker ==>
            var s' := Take(s, rent, ids, a).value;
            var price := s.escrows[a.escrow].recieve as nat;
            && s'.tokens[a.takerAtaB].amount + price == s.tokens[a.takerAtaB].amount
            && s'.tokens[a.makerAtaB].amount == s.tokens[a.makerAtaB].amount + price
            && s'.tokens[a.takerAtaA].amount == s.tokens[a.takerAtaA].amount + s.tokens[a.vault].amount
            && (forall k :: k in s'.tokens && k !in {a.takerAtaA, a.takerAtaB, a.makerAtaB} ==> s'.tokens[k] == s.tokens[k])
  {
    TakePaysThenWithdraws(s, rent, ids, a);
  }

  /** Take leaves the total of every mint unchanged. */
  lemma TakeConservesSupply(s: LedgerState, rent: Rent, ids: set<nat>, a: TakeAccounts, m: Address)
    requires Take(s, rent, ids, a).Ok?
    ensures Supply(Take(s, rent, ids, a).value.tokens, m) == Supply(s.tokens, m)
  {
    TakePaysThenWithdraws(s, rent, ids, a);
    var price := s.escrows[a.escrow].recieve as nat;
    var paid := Move(s.tokens, a.takerAtaB, a.makerAtaB, price);
    MoveConservesSupply(s.tokens, a.takerAtaB, a.makerAtaB, price, m);
    var held := s.tokens[a.vault].amount;
    var drained := Move(paid, a.vault, a.takerAtaA, held);
    MoveConservesSupply(paid, a.vault, a.takerAtaA, held, m);
    SupplyDelete(drained, a.vault, m);
    assert drained - {a.vault} == Take(s, rent, ids, a).value.tokens;
  }

  /** After a successful Take no record exists at the escrow address. */
  lemma TakeCloses(s: LedgerState, rent: Rent, ids: set<nat>, a: TakeAccounts, e: Address)
    requires Take(s, rent, ids, a).Ok?
    ensures var s' := Take(s, rent, ids, a).value;
            if e == a.escrow then StatusOf(s, e) == Open && StatusOf(s', e) == Absent
            else StatusOf(s', e) == StatusOf(s, e)
  {
  }

  /**
   * Take deletes the vault and no other token account, never changes which
   * mint an account holds or who owns it, and keeps every balance within a
   * u64.
   */
  lemma TakeKeepsAccountShape(s: LedgerState, rent: Rent, ids: set<nat>, a: TakeAccounts)
    requires AmountsFit(s.tokens)
    requires Take(s, rent, ids, a).Ok?
    ensures var t := Take(s, rent, ids, a).value.tokens;
            && t.Keys == s.tokens.Keys - {a.vault}
            && (forall k :: k in t ==> t[k].mint == s.tokens[k].mint && t[k].owner == s.tokens[k].owner)
            && AmountsFit(t)
  {
    var price := s.escrows[a.escrow].recieve as nat;
    var paid := Move(s.tokens, a.takerAtaB, a.makerAtaB, price);
    assert AmountsFit(paid);
  }

  /** Take keeps the ledger consistent. */
  lemma TakePreservesConsistent(s: LedgerState, rent: Rent, ids: set<nat>, a: TakeAccounts)
    requires Consistent(s)
    requires Take(s, rent, ids, a).Ok?
    ensures Consistent(Take(s, rent, ids, a).value)
  {
    var s' := Take(s, rent, ids, a).value;
    TakeKeepsAccountShape(s, rent, ids, a);
    forall m
      ensures Supply(s'.tokens, m) <= U64_MAX
    {
      TakeConservesSupply(s, rent, ids, a, m);
    }
    ClosingKeepsConsistent(s, s', a.escrow);
  }

  /** Once Take has closed an escrow, a second Take on it fails. */
  lemma TakeTwiceFails(s: LedgerState, rent: Rent, ids: set<nat>, a: TakeAccounts)
    requires Take(s, rent, ids, a).Ok?
    ensures Take(Take(s, rent, ids, a).value, rent, ids, a).Err?
  {
  }

  /** Once Take has closed an escrow, Refund on that address fails. */
  lemma RefundAfterTakeFails(s: LedgerState, rent: Rent, ids: set<nat>, a: TakeAccounts, r: RefundIx.RefundAccounts)
    requires Take(s, rent, ids, a).Ok? && r.escrow == a.escrow
    ensures RefundIx.Refund(Take(s, rent, ids, a).value, rent, ids, r).Err?
  {
  }

  /** Once Refund has closed an escrow, Take on that address fails. */
  lemma TakeAfterRefundFails(s: LedgerState, rent: Rent, ids: set<nat>, r: RefundIx.RefundAccounts, a: TakeAccounts)
    requires RefundIx.Refund(s, rent, ids, r).Ok? && r.escrow == a.escrow
    ensures Take(RefundIx.Refund(s, rent, ids, r).value, rent, ids, a).Err?
  {
  }
}
