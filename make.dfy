/**
 * The `Make` instruction's accounts and its effect on the ledger, stated as
 * one function from the ledger before the transaction to the ledger after it
 * (or the error it aborts with), together with what it guarantees.
 */
module MakeIx {
  import opened LeBytes
  import opened Addresses
  import opened Ledger

  /** The accounts a client passes to `make`. */
  datatype MakeAccounts = MakeAccounts(
    maker: Address, mintA: Address, mintB: Address,
    makerAtaA: Address, escrow: Address, vault: Address)

  /**
   * The constraints on the accounts that already exist: the maker signs,
   * both mints exist, and the source is the maker's associated account of
   * mint_a.
   */
  function CheckMakeAccounts(s: LedgerState, signers: set<Address>, a: MakeAccounts): (o: Outcome)
    ensures o.Pass? ==> a.maker in signers && a.mintA in s.mints && a.mintB in s.mints
    ensures o.Pass? ==> IsAssociated(s.tokens, a.makerAtaA, a.maker, a.mintA)
  {
    if a.maker !in signers then Fail(MissingSigner)
    else if a.mintA !in s.mints || a.mintB !in s.mints then Fail(AccountNotInitialized)
    else if a.makerAtaA !in s.tokens then Fail(AccountNotInitialized)
    else if !IsAssociated(s.tokens, a.makerAtaA, a.maker, a.mintA) then Fail(ConstraintAssociated)
    else Pass
  }

  /**
   * A whole `make` transaction. On success: a new record at the escrow
   * address derived from (maker, seed) with the canonical bump, a new vault
   * owned by that address holding `deposit` of mint_a, the maker's source
   * account debited by `deposit`, and both rents paid by the maker.
   */
  function Make(s: LedgerState, rent: Rent, bumpOf: BumpSearch, ids: set<nat>, a: MakeAccounts,
                seed: u64, deposit: u64, recieve: u64): (r: Result<LedgerState>)
    ensures r.Ok? ==> !InUse(s, a.escrow) && !InUse(s, a.vault)
    ensures r.Ok? ==> a.escrow in r.value.escrows && a.vault in r.value.tokens && r.value.mints == s.mints
  {
    var (address, bump) := FindProgramAddress(EscrowSeeds(a.maker, seed), bumpOf);
    var check := CheckMakeAccounts(s, Wallets(ids), a);
    if check.Fail? then Err(check.error)
    else if a.escrow != address then Err(ConstraintSeeds)
    else if InUse(s, a.escrow) then Err(AccountAlreadyInUse)
    else if Lamports(s.lamports, a.maker) < rent.escrowAccount then Err(InsufficientLamports)
    else if a.vault != AssociatedTokenAddress(a.escrow, a.mintA) then Err(ConstraintAssociated)
    else if InUse(s, a.vault) then Err(AccountAlreadyInUse)
    else if Lamports(s.lamports, a.maker) < rent.escrowAccount + rent.tokenAccount then Err(InsufficientLamports)
    else if s.tokens[a.makerAtaA].amount < deposit as nat then Err(InsufficientFunds)
    else
      var source := s.tokens[a.makerAtaA];
      Ok(LedgerState(
        s.mints,
        s.tokens[a.makerAtaA := source.(amount := source.amount - deposit as nat)]
                [a.vault := TokenAccount(a.mintA, a.escrow, deposit as nat)],
        s.escrows[a.escrow := EscrowRecord(seed, a.maker, a.mintA, a.mintB, recieve, bump)],
        Debit(s.lamports, a.maker, rent.escrowAccount + rent.tokenAccount)))
  }

  /**
   * After a successful Make the record at the escrow address holds exactly
   * the given seed, maker, mints and receive amount and the derivation bump;
   * that address is the one derived from (maker, seed), it was not live
   * before, and no other record changed.
   */
  lemma MakeStoresRecord(s: LedgerState, rent: Rent, bumpOf: BumpSearch, ids: set<nat>, a: MakeAccounts,
                         seed: u64, deposit: u64, recieve: u64)
    requires Make(s, rent, bumpOf, ids, a, seed, deposit, recieve).Ok?
    ensures var s' := Make(s, rent, bumpOf, ids, a, seed, deposit, recieve).value;
            var (address, bump) := FindProgramAddress(EscrowSeeds(a.maker, seed), bumpOf);
            && a.escrow == address && a.escrow !in s.escrows
            && s'.escrows == s.escrows[a.escrow := EscrowRecord(seed, a.maker, a.mintA, a.mintB, recieve, bump)]
  {
  }

  /**
   * Make debits the maker's mint_a account by exactly `deposit`, creates the
   * vault holding exactly `deposit`, owned by the escrow address (never by
   * the maker), and touches no other token account.
   */
  lemma MakeMovesDeposit(s: LedgerState, rent: Rent, bumpOf: BumpSearch, ids: set<nat>, a: MakeAccounts,
                         seed: u64, deposit: u64, recieve: u64)
    requires Make(s, rent, bumpOf, ids, a, seed, deposit, recieve).Ok?
    ensures var s' := Make(s, rent, bumpOf, ids, a, seed, deposit, recieve).value;
            && a.vault !in s.tokens && a.vault == AssociatedTokenAddress(a.escrow, a.mintA)
            && s'.tokens[a.vault] == TokenAccount(a.mintA, a.escrow, deposit as nat)
            && a.escrow != a.maker
            && s'.tokens[a.makerAtaA].amount + deposit as nat == s.tokens[a.makerAtaA].amount
            && s'.tokens.Keys == s.tokens.Keys + {a.vault}
            && (forall k :: k in s.tokens && k != a.makerAtaA ==> s'.tokens[k] == s.tokens[k])
  {
  }

  /** The source is accepted only as the maker's associated account of mint_a, and only with the maker's signature. */
  lemma MakeChecksSource(s: LedgerState, rent: Rent, bumpOf: BumpSearch, ids: set<nat>, a: MakeAccounts,
                         seed: u64, deposit: u64, recieve: u64)
    requires Make(s, rent, bumpOf, ids, a, seed, deposit, recieve).Ok?
    ensures a.maker.Wallet? && a.maker.id in ids
    ensures IsAssociated(s.tokens, a.makerAtaA, a.maker, a.mintA)
  {
  }

  /** The maker pays both rents, and no other lamport balance changes. */
  lemma MakeChargesRent(s: LedgerState, rent: Rent, bumpOf: BumpSearch, ids: set<nat>, a: MakeAccounts,
                        seed: u64, deposit: u64, recieve: u64)
    requires Make(s, rent, bumpOf, ids, a, seed, deposit, recieve).Ok?
    ensures var s' := Make(s, rent, bumpOf, ids, a, seed, deposit, recieve).value;
            && Lamports(s'.lamports, a.maker) + rent.escrowAccount + rent.tokenAccount == Lamports(s.lamports, a.maker)
            && forall w :: w != a.maker ==> Lamports(s'.lamports, w) == Lamports(s.lamports, w)
  {
  }

  /** Make leaves the total of every mint unchanged. */
  lemma MakeConservesSupply(s: LedgerState, rent: Rent, bumpOf: BumpSearch, ids: set<nat>, a: MakeAccounts,
                            seed: u64, deposit: u64, recieve: u64, m: Address)
    requires Make(s, rent, bumpOf, ids, a, seed, deposit, recieve).Ok?
    ensures Supply(Make(s, rent, bumpOf, ids, a, seed, deposit, recieve).value.tokens, m) == Supply(s.tokens, m)
  {
    var source := s.tokens[a.makerAtaA];
    var debited := s.tokens[a.makerAtaA := source.(amount := source.amount - deposit as nat)];
    SupplyUpdate(s.tokens, a.makerAtaA, debited[a.makerAtaA], m);
    SupplyInsert(debited, a.vault, TokenAccount(a.mintA, a.escrow, deposit as nat), m);
  }

  /** Make fails when the maker's mint_a balance is below the deposit. */
  lemma MakeFailsOnShortBalance(s: LedgerState, rent: Rent, bumpOf: BumpSearch, ids: set<nat>, a: MakeAccounts,
                                seed: u64, deposit: u64, recieve: u64)
    requires a.makerAtaA in s.tokens && s.tokens[a.makerAtaA].amount < deposit as nat
    ensures Make(s, rent, bumpOf, ids, a, seed, deposit, recieve).Err?
  {
  }

  /** Make fails when a live escrow already sits at the address derived from (maker, seed). */
  lemma MakeFailsOnLiveEscrow(s: LedgerState, rent: Rent, bumpOf: BumpSearch, ids: set<nat>, a: MakeAccounts,
                              seed: u64, deposit: u64, recieve: u64)
    requires FindProgramAddress(EscrowSeeds(a.maker, seed), bumpOf).0 in s.escrows
    ensures Make(s, rent, bumpOf, ids, a, seed, deposit, recieve).Err?
  {
  }

  /** Make moves its escrow address from Absent to Open and leaves every other address where it was. */
  lemma MakeOpens(s: LedgerState, rent: Rent, bumpOf: BumpSearch, ids: set<nat>, a: MakeAccounts,
                  seed: u64, deposit: u64, recieve: u64, e: Address)
    requires Make(s, rent, bumpOf, ids, a, seed, deposit, recieve).Ok?
    ensures var s' := Make(s, rent, bumpOf, ids, a, seed, deposit, recieve).value;
            if e == a.escrow then StatusOf(s, e) == Absent && StatusOf(s', e) == Open
            else StatusOf(s', e) == StatusOf(s, e)
  {
  }

  /** Make keeps the ledger consistent. */
  lemma MakePreservesConsistent(s: LedgerState, rent: Rent, bumpOf: BumpSearch, ids: set<nat>, a: MakeAccounts,
                                seed: u64, deposit: u64, recieve: u64)
    requires Consistent(s)
    requires Make(s, rent, bumpOf, ids, a, seed, deposit, recieve).Ok?
    ensures Consistent(Make(s, rent, bumpOf, ids, a, seed, deposit, recieve).value)
  {
    var seeds := EscrowSeeds(a.maker, seed);
    var rec := EscrowRecord(seed, a.maker, a.mintA, a.mintB, recieve, bumpOf(seeds));
    OpeningKeepsConsistent(s, Make(s, rent, bumpOf, ids, a, seed, deposit, recieve).value, a.makerAtaA, deposit as nat, a.escrow, rec);
  }

  /**
   * Opening a record at `e` that re-derives from its own fields, with its
   * new vault funded from an account of mint_a, keeps the ledger consistent.
   */
  lemma OpeningKeepsConsistent(s: LedgerState, t: LedgerState, src: Address, deposit: nat, e: Address, rec: EscrowRecord)
    requires Consistent(s)
    requires !InUse(s, e) && !InUse(s, AssociatedTokenAddress(e, rec.mintA))
    requires e == CreateProgramAddress(EscrowSeeds(rec.maker, rec.seed), rec.bump) && rec.maker.Wallet?
    requires rec.mintA in s.mints && rec.mintB in s.mints
    requires src in s.tokens && s.tokens[src].mint == rec.mintA && deposit <= s.tokens[src].amount
    requires t.mints == s.mints && t.escrows == s.escrows[e := rec]
    requires t.tokens == s.tokens[src := s.tokens[src].(amount := s.tokens[src].amount - deposit)]
                                 [AssociatedTokenAddress(e, rec.mintA) := TokenAccount(rec.mintA, e, deposit)]
    ensures Consistent(t)
  {
    var vault := AssociatedTokenAddress(e, rec.mintA);
    FundingKeepsSupplies(s.tokens, t.tokens, src, deposit, vault, TokenAccount(rec.mintA, e, deposit));
    OpeningKeepsRecords(s, t, e, rec);
    OpeningKeepsOwners(s, t, src, deposit, e, rec);
  }

  /** Every record, the new one included, still has its vault after the opening. */
  lemma OpeningKeepsRecords(s: LedgerState, t: LedgerState, e: Address, rec: EscrowRecord)
    requires forall d :: d in s.escrows ==> RecordHasVault(s, d)
    requires e !in s.escrows && AssociatedTokenAddress(e, rec.mintA) !in s.tokens
    requires e == CreateProgramAddress(EscrowSeeds(rec.maker, rec.seed), rec.bump) && rec.maker.Wallet?
    requires rec.mintA in s.mints && rec.mintB in s.mints
    requires t.mints == s.mints && t.escrows == s.escrows[e := rec]
    requires AssociatedTokenAddress(e, rec.mintA) in t.tokens
    requires t.tokens[AssociatedTokenAddress(e, rec.mintA)] == TokenAccount(rec.mintA, e, 0).(amount := t.tokens[AssociatedTokenAddress(e, rec.mintA)].amount)
    requires forall k :: k in s.tokens ==> k in t.tokens && t.tokens[k].owner == s.tokens[k].owner && t.tokens[k].mint == s.tokens[k].mint
    ensures forall d :: d in t.escrows ==> RecordHasVault(t, d)
  {
    forall d | d in t.escrows
      ensures RecordHasVault(t, d)
    {
      if d != e {
        assert RecordHasVault(s, d);
      }
    }
  }

  /** Account owners and shapes stay right, and every balance still fits, after the opening. */
  lemma OpeningKeepsOwners(s: LedgerState, t: LedgerState, src: Address, deposit: nat, e: Address, rec: EscrowRecord)
    requires forall k :: k in s.tokens && s.tokens[k].owner.Pda? ==>
               s.tokens[k].owner in s.escrows && k == AssociatedTokenAddress(s.tokens[k].owner, s.escrows[s.tokens[k].owner].mintA)
    requires forall k :: k in s.tokens && k.Ata? ==> s.tokens[k].owner == k.owner && s.tokens[k].mint == k.mint
    requires AmountsFit(s.tokens)
    requires e !in s.escrows && AssociatedTokenAddress(e, rec.mintA) !in s.tokens
    requires src in s.tokens && deposit <= s.tokens[src].amount
    requires t.escrows == s.escrows[e := rec]
    requires t.tokens == s.tokens[src := s.tokens[src].(amount := s.tokens[src].amount - deposit)]
                                 [AssociatedTokenAddress(e, rec.mintA) := TokenAccount(rec.mintA, e, deposit)]
    ensures forall k :: k in t.tokens && t.tokens[k].owner.Pda? ==>
              t.tokens[k].owner in t.escrows && k == AssociatedTokenAddress(t.tokens[k].owner, t.escrows[t.tokens[k].owner].mintA)
    ensures forall k :: k in t.tokens && k.Ata? ==> t.tokens[k].owner == k.owner && t.tokens[k].mint == k.mint
    ensures AmountsFit(t.tokens)
  {
    var vault := AssociatedTokenAddress(e, rec.mintA);
    forall k | k in t.tokens && t.tokens[k].owner.Pda?
      ensures t.tokens[k].owner in t.escrows
      ensures k == AssociatedTokenAddress(t.tokens[k].owner, t.escrows[t.tokens[k].owner].mintA)
    {
      if k != vault {
        var o := s.tokens[k].owner;
        assert o in s.escrows;
        assert o != e;
      }
    }
  }

  /** Moving `deposit` out of `src` into a new account of the same mint keeps every supply within a u64. */
  lemma FundingKeepsSupplies(tokens: map<Address, TokenAccount>, t: map<Address, TokenAccount>, src: Address, deposit: nat,
                             k: Address, acct: TokenAccount)
    requires forall m :: Supply(tokens, m) <= U64_MAX
    requires src in tokens && k !in tokens && deposit <= tokens[src].amount
    requires acct.mint == tokens[src].mint && acct.amount == deposit
    requires t == tokens[src := tokens[src].(amount := tokens[src].amount - deposit)][k := acct]
    ensures forall m :: Supply(t, m) <= U64_MAX
  {
    var debited := tokens[src := tokens[src].(amount := tokens[src].amount - deposit)];
    forall m
      ensures Supply(t, m) == Supply(tokens, m)
    {
      SupplyUpdate(tokens, src, debited[src], m);
      SupplyInsert(debited, k, acct, m);
    }
  }
}
