/**
 * The token-program instructions the escrow invokes by cross-program call:
 * `transfer_checked`, `close_account`, and the associated-token-account
 * `create` that backs an `init` of an associated account. They are external
 * to the escrow program, so they are modelled as functions from the ledger
 * before the call to the ledger after it (or the error the call fails with).
 */
module TokenProgram {
  import opened LeBytes
  import opened Addresses
  import opened Ledger

  /**
   * `transfer_checked`: debit `amount` of `mint` from `from` and credit it
   * to `to`. Only the owner of `from`, signing, may do so. The decimals check
   * is reduced to "the mint matches".
   */
  function TransferChecked(s: LedgerState, from: Address, mint: Address, to: Address,
                           authority: Address, signers: set<Address>, amount: nat): (r: Result<LedgerState>)
    ensures r.Ok? ==> from in s.tokens && to in s.tokens
    ensures r.Ok? ==> s.tokens[from].owner == authority && authority in signers
    ensures r.Ok? ==> s.tokens[from].mint == mint && s.tokens[to].mint == mint && amount <= s.tokens[from].amount
    ensures r.Ok? ==> r.value == s.(tokens := Move(s.tokens, from, to, amount))
    ensures r.Ok? && AmountsFit(s.tokens) ==> AmountsFit(r.value.tokens)
    ensures r.Err? && from in s.tokens && to in s.tokens && s.tokens[from].amount < amount ==> r.error == InsufficientFunds
  {
    if from !in s.tokens || to !in s.tokens then Err(AccountNotInitialized)
    else if s.tokens[from].amount < amount then Err(InsufficientFunds)
    else if s.tokens[from].mint != mint || s.tokens[to].mint != mint then Err(MintMismatch)
    else if s.tokens[from].owner != authority then Err(OwnerMismatch)
    else if authority !in signers then Err(MissingSigner)
    else if from != to && s.tokens[to].amount + amount > U64_MAX then Err(Overflow)
    else Ok(s.(tokens := Move(s.tokens, from, to, amount)))
  }

  /** A successful transfer conserves the supply of every mint. */
  lemma TransferConservesSupply(s: LedgerState, from: Address, mint: Address, to: Address,
                                authority: Address, signers: set<Address>, amount: nat, m: Address)
    requires TransferChecked(s, from, mint, to, authority, signers, amount).Ok?
    ensures Supply(TransferChecked(s, from, mint, to, authority, signers, amount).value.tokens, m) == Supply(s.tokens, m)
  {
    MoveConservesSupply(s.tokens, from, to, amount, m);
  }

  /**
   * No set of key-pair signatures can debit an account whose owner is a
   * derived address: only the program that derives it can sign for it.
   */
  lemma DerivedOwnerNeedsProgramSignature(s: LedgerState, from: Address, mint: Address, to: Address,
                                          authority: Address, ids: set<nat>, amount: nat)
    requires from in s.tokens && s.tokens[from].owner.Pda?
    ensures TransferChecked(s, from, mint, to, authority, Wallets(ids), amount).Err?
  {
  }

  /**
   * `close_account`: delete a token account with a zero balance and send its
   * rent to `destination`; only its owner, signing, may do so.
   */
  function CloseAccount(s: LedgerState, rent: Rent, account: Address, destination: Address,
                        authority: Address, signers: set<Address>): (r: Result<LedgerState>)
    ensures r.Ok? ==> account in s.tokens && s.tokens[account].amount == 0
    ensures r.Ok? ==> s.tokens[account].owner == authority && authority in signers
    ensures r.Ok? ==> r.value == s.(tokens := s.tokens - {account}, lamports := Credit(s.lamports, destination, rent.tokenAccount))
    ensures account in s.tokens && s.tokens[account].amount != 0 ==> r == Err(NonZeroBalance)
  {
    if account !in s.tokens then Err(AccountNotInitialized)
    else if s.tokens[account].amount != 0 then Err(NonZeroBalance)
    else if s.tokens[account].owner != authority then Err(OwnerMismatch)
    else if authority !in signers then Err(MissingSigner)
    else Ok(s.(tokens := s.tokens - {account}, lamports := Credit(s.lamports, destination, rent.tokenAccount)))
  }

  /** Closing an account leaves the supply of every mint unchanged: its balance was zero. */
  lemma CloseConservesSupply(s: LedgerState, rent: Rent, account: Address, destination: Address,
                             authority: Address, signers: set<Address>, m: Address)
    requires CloseAccount(s, rent, account, destination, authority, signers).Ok?
    ensures Supply(CloseAccount(s, rent, account, destination, authority, signers).value.tokens, m) == Supply(s.tokens, m)
  {
    SupplyDelete(s.tokens, account, m);
  }

  /**
   * The associated token program's `create`, paid by `payer`: the new,
   * empty account of `mint` owned by `owner`, at its associated address.
   */
  function CreateAssociatedAccount(s: LedgerState, rent: Rent, payer: Address, account: Address,
                                   owner: Address, mint: Address): (r: Result<LedgerState>)
    ensures r.Ok? ==> !InUse(s, account) && account == AssociatedTokenAddress(owner, mint)
    ensures r.Ok? ==> rent.tokenAccount <= Lamports(s.lamports, payer)
    ensures r.Ok? ==> r.value == s.(tokens := s.tokens[account := TokenAccount(mint, owner, 0)],
                                    lamports := Debit(s.lamports, payer, rent.tokenAccount))
    ensures InUse(s, account) ==> r.Err?
  {
    if account != AssociatedTokenAddress(owner, mint) then Err(ConstraintAssociated)
    else if InUse(s, account) then Err(AccountAlreadyInUse)
    else if Lamports(s.lamports, payer) < rent.tokenAccount then Err(InsufficientLamports)
    else Ok(s.(tokens := s.tokens[account := TokenAccount(mint, owner, 0)],
               lamports := Debit(s.lamports, payer, rent.tokenAccount)))
  }
}
