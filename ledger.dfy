/**
 * The closed ledger the escrow program runs over: mint accounts, token
 * accounts (balances per owner and mint), escrow records keyed by their
 * derived address, and the lamport balances of wallets. Also the error kinds
 * an instruction can abort with, and the per-mint supply used to state
 * conservation.
 */
module Ledger {
  import opened LeBytes
  import opened Addresses

  /** An SPL token account: which mint it holds, who may debit it, and its balance. */
  datatype TokenAccount = TokenAccount(mint: Address, owner: Address, amount: nat)

  /** The escrow account's data, as `save_escrow` writes it. */
  datatype EscrowRecord = EscrowRecord(seed: u64, maker: Address, mintA: Address, mintB: Address, recieve: u64, bump: u8)

  /** The contents of an escrow account right after `init`: all fields zero. */
  const ZEROED_RECORD: EscrowRecord := EscrowRecord(0, Wallet(0), Wallet(0), Wallet(0), 0, 0)

  datatype LedgerState = LedgerState(
    mints: set<Address>,
    tokens: map<Address, TokenAccount>,
    escrows: map<Address, EscrowRecord>,
    lamports: map<Address, nat>)

  /** Rent-exempt deposits of the two kinds of account the program creates; the amounts are not modelled. */
  datatype Rent = Rent(escrowAccount: nat, tokenAccount: nat)

  datatype Error =
    | MissingSigner          // a required signature is absent
    | AccountNotInitialized  // a supplied account does not exist or has the wrong type
    | AccountAlreadyInUse    // `init` on an address that is already live
    | ConstraintAssociated   // an account is not the associated token account it must be
    | ConstraintSeeds        // an address does not re-derive from its seeds and bump
    | ConstraintHasOne       // a record field differs from the supplied account
    | InsufficientLamports   // the payer cannot fund an account's rent
    | InsufficientFunds      // a token balance is below the transfer amount
    | MintMismatch           // a token account holds another mint
    | OwnerMismatch          // the authority is not the token account's owner
    | NonZeroBalance         // closing a token account that still holds tokens
    | Overflow               // a token balance would exceed a u64

  datatype Result<T> = Ok(value: T) | Err(error: Error)

  datatype Outcome = Pass | Fail(error: Error)

  /** What a transaction leaves behind: the new state when it succeeds, the old one when it aborts. */
  function Committed(r: Result<LedgerState>, pre: LedgerState): (s: LedgerState)
    ensures r.Err? ==> s == pre
    ensures r.Ok? ==> s == r.value
  {
    if r.Ok? then r.value else pre
  }

  function OutcomeOf(r: Result<LedgerState>): (o: Outcome)
    ensures o.Pass? <==> r.Ok?
    ensures r.Err? ==> o.error == r.error
  {
    if r.Ok? then Pass else Fail(r.error)
  }

  /** The transaction's signers: key-pair addresses only, since a derived address has no private key. */
  function Wallets(ids: set<nat>): (w: set<Address>)
    ensures forall a :: a in w <==> a.Wallet? && a.id in ids
  {
    set i | i in ids :: Wallet(i)
  }

  function Lamports(lamports: map<Address, nat>, a: Address): nat
  {
    if a in lamports then lamports[a] else 0
  }

  function Credit(lamports: map<Address, nat>, a: Address, x: nat): (m: map<Address, nat>)
    ensures Lamports(m, a) == Lamports(lamports, a) + x
    ensures forall b :: b != a ==> Lamports(m, b) == Lamports(lamports, b)
  {
    lamports[a := Lamports(lamports, a) + x]
  }

  function Debit(lamports: map<Address, nat>, a: Address, x: nat): (m: map<Address, nat>)
    requires x <= Lamports(lamports, a)
    ensures Lamports(m, a) == Lamports(lamports, a) - x
    ensures forall b :: b != a ==> Lamports(m, b) == Lamports(lamports, b)
  {
    lamports[a := Lamports(lamports, a) - x]
  }

  /** An address is live when some account already occupies it. */
  predicate InUse(s: LedgerState, a: Address)
  {
    a in s.mints || a in s.tokens || a in s.escrows
  }

  /**
   * The `associated_token::mint = mint, associated_token::authority = owner`
   * constraint: the account sits at the associated address and holds that
   * mint for that owner.
   */
  predicate IsAssociated(tokens: map<Address, TokenAccount>, account: Address, owner: Address, mint: Address)
  {
    account in tokens && account == AssociatedTokenAddress(owner, mint)
    && tokens[account].owner == owner && tokens[account].mint == mint
  }

  /** Moves `amount` between two token accounts; a transfer to the same account changes nothing. */
  function Move(tokens: map<Address, TokenAccount>, from: Address, to: Address, amount: nat): (t: map<Address, TokenAccount>)
    requires from in tokens && to in tokens && amount <= tokens[from].amount
    ensures t.Keys == tokens.Keys
    ensures from != to ==> t[from].amount == tokens[from].amount - amount && t[to].amount == tokens[to].amount + amount
    ensures from == to ==> t == tokens
    ensures forall k :: k in tokens && k != from && k != to ==> t[k] == tokens[k]
    ensures forall k :: k in tokens ==> t[k].mint == tokens[k].mint && t[k].owner == tokens[k].owner
  {
    if from == to then tokens
    else
      var debited := tokens[from := tokens[from].(amount := tokens[from].amount - amount)];
      debited[to := debited[to].(amount := debited[to].amount + amount)]
  }

  // ---------------------------------------------------------------------
  // Per-mint supply: the sum of the balances of every account of one mint.

  function Held(acct: TokenAccount, mint: Address): nat
  {
    if acct.mint == mint then acct.amount else 0
  }

  ghost function Supply(tokens: map<Address, TokenAccount>, mint: Address): nat
    decreases tokens.Keys
  {
    if tokens == map[] then 0
    else
      var k :| k in tokens;
      Held(tokens[k], mint) + Supply(tokens - {k}, mint)
  }

  /** The supply splits off any one account. */
  lemma {:induction false} SupplyRemove(tokens: map<Address, TokenAccount>, k: Address, mint: Address)
    requires k in tokens
    ensures Supply(tokens, mint) == Held(tokens[k], mint) + Supply(tokens - {k}, mint)
    decreases tokens.Keys
  {
    var j :| j in tokens && Supply(tokens, mint) == Held(tokens[j], mint) + Supply(tokens - {j}, mint);
    if j != k {
      SupplyRemove(tokens - {j}, k, mint);
      SupplyRemove(tokens - {k}, j, mint);
      assert (tokens - {j}) - {k} == (tokens - {k}) - {j};
    }
  }

  /** Opening a new account adds its balance to the supply of its mint. */
  lemma SupplyInsert(tokens: map<Address, TokenAccount>, k: Address, acct: TokenAccount, mint: Address)
    requires k !in tokens
    ensures Supply(tokens[k := acct], mint) == Supply(tokens, mint) + Held(acct, mint)
  {
    SupplyRemove(tokens[k := acct], k, mint);
    assert tokens[k := acct] - {k} == tokens;
  }

  /** Closing an account takes its balance out of the supply of its mint. */
  lemma SupplyDelete(tokens: map<Address, TokenAccount>, k: Address, mint: Address)
    requires k in tokens
    ensures Supply(tokens - {k}, mint) + Held(tokens[k], mint) == Supply(tokens, mint)
  {
    SupplyRemove(tokens, k, mint);
  }

  /** Rewriting one account changes the supply by the difference of its old and new balance. */
  lemma SupplyUpdate(tokens: map<Address, TokenAccount>, k: Address, acct: TokenAccount, mint: Address)
    requires k in tokens
    ensures Supply(tokens[k := acct], mint) + Held(tokens[k], mint) == Supply(tokens, mint) + Held(acct, mint)
  {
    SupplyRemove(tokens, k, mint);
    SupplyRemove(tokens[k := acct], k, mint);
    assert tokens[k := acct] - {k} == tokens - {k};
  }

  /** Two distinct accounts of one mint together hold no more than its supply. */
  lemma SupplyBoundsPair(tokens: map<Address, TokenAccount>, j: Address, k: Address, mint: Address)
    requires j in tokens && k in tokens && j != k
    requires tokens[j].mint == mint && tokens[k].mint == mint
    ensures tokens[j].amount + tokens[k].amount <= Supply(tokens, mint)
  {
    SupplyRemove(tokens, j, mint);
    SupplyRemove(tokens - {j}, k, mint);
  }

  /** Moving tokens between two accounts of one mint leaves every supply unchanged. */
  lemma MoveConservesSupply(tokens: map<Address, TokenAccount>, from: Address, to: Address, amount: nat, mint: Address)
    requires from in tokens && to in tokens && amount <= tokens[from].amount
    requires tokens[from].mint == tokens[to].mint
    ensures Supply(Move(tokens, from, to, amount), mint) == Supply(tokens, mint)
  {
    if from != to {
      var debited := tokens[from := tokens[from].(amount := tokens[from].amount - amount)];
      SupplyUpdate(tokens, from, debited[from], mint);
      SupplyUpdate(debited, to, debited[to].(amount := debited[to].amount + amount), mint);
    }
  }

  /** Every balance fits in the `u64` field of an SPL token account. */
  predicate AmountsFit(tokens: map<Address, TokenAccount>)
  {
    forall k :: k in tokens ==> tokens[k].amount <= U64_MAX
  }
  // ---------------------------------------------------------------------
  // The lifecycle invariant of the closed ledger.

  /**
   * A live escrow record at `e` re-derives from its own maker, seed and
   * bump, names existing mints, and has its vault: the associated account of
   * (e, mint_a), owned by e.
   */
  predicate RecordHasVault(s: LedgerState, e: Address)
    requires e in s.escrows
  {
    var rec := s.escrows[e];
    && e == CreateProgramAddress(EscrowSeeds(rec.maker, rec.seed), rec.bump)
    && rec.maker.Wallet?
    && rec.mintA in s.mints && rec.mintB in s.mints
    && IsAssociated(s.tokens, AssociatedTokenAddress(e, rec.mintA), e, rec.mintA)
  }

  /**
   * The ledger is consistent when every record has its vault, every token
   * account owned by a derived address is the vault of a live record, every
   * associated account holds its own mint for its own owner, and every
   * balance and every supply fits in a u64. Then no transfer between two
   * accounts of one mint can overflow its destination.
   */
  ghost predicate Consistent(s: LedgerState)
    ensures Consistent(s) ==> PairsFit(s.tokens)
  {
    && (forall e :: e in s.escrows ==> RecordHasVault(s, e))
    && (forall k :: k in s.tokens && s.tokens[k].owner.Pda? ==>
          s.tokens[k].owner in s.escrows && k == AssociatedTokenAddress(s.tokens[k].owner, s.escrows[s.tokens[k].owner].mintA))
    && (forall k :: k in s.tokens && k.Ata? ==> s.tokens[k].owner == k.owner && s.tokens[k].mint == k.mint)
    && AmountsFit(s.tokens)
    && (forall m :: Supply(s.tokens, m) <= U64_MAX)
    && (PairsFitSupply(s.tokens); true)
  }

  /** Two distinct balances of one mint together fit in a u64. */
  predicate PairFits(tokens: map<Address, TokenAccount>, j: Address, k: Address)
  {
    j in tokens && k in tokens && j != k && tokens[j].mint == tokens[k].mint ==>
      tokens[j].amount + tokens[k].amount <= U64_MAX
  }

  /** Any two balances of one mint together fit in a u64. */
  ghost predicate PairsFit(tokens: map<Address, TokenAccount>)
  {
    forall j, k :: PairFits(tokens, j, k)
  }

  /** When every supply fits in a u64, so do any two balances of one mint together. */
  lemma PairsFitSupply(tokens: map<Address, TokenAccount>)
    requires forall m :: Supply(tokens, m) <= U64_MAX
    ensures PairsFit(tokens)
  {
    forall j, k
      ensures PairFits(tokens, j, k)
    {
      if j in tokens && k in tokens && j != k && tokens[j].mint == tokens[k].mint {
        SupplyBoundsPair(tokens, j, k, tokens[j].mint);
      }
    }
  }

  /**
   * Closing the record at `e` together with its vault keeps the ledger
   * consistent, provided every remaining account keeps its mint and owner
   * and every balance and supply still fits in a u64.
   */
  lemma ClosingKeepsConsistent(s: LedgerState, t: LedgerState, e: Address)
    requires Consistent(s) && e in s.escrows
    requires t.mints == s.mints && t.escrows == s.escrows - {e}
    requires t.tokens.Keys == s.tokens.Keys - {AssociatedTokenAddress(e, s.escrows[e].mintA)}
    requires forall k :: k in t.tokens ==> k in s.tokens && t.tokens[k].owner == s.tokens[k].owner && t.tokens[k].mint == s.tokens[k].mint
    requires AmountsFit(t.tokens) && forall m :: Supply(t.tokens, m) <= U64_MAX
    ensures Consistent(t)
  {
    forall d | d in t.escrows
      ensures RecordHasVault(t, d)
    {
      assert RecordHasVault(s, d);
      assert AssociatedTokenAddress(d, s.escrows[d].mintA) != AssociatedTokenAddress(e, s.escrows[e].mintA);
    }
    forall k | k in t.tokens && t.tokens[k].owner.Pda?
      ensures t.tokens[k].owner in t.escrows
    {
      var o := s.tokens[k].owner;
      assert k == AssociatedTokenAddress(o, s.escrows[o].mintA);
    }
  }

  datatype Status = Absent | Open

  /** Where an escrow address stands in its lifecycle. */
  function StatusOf(s: LedgerState, e: Address): Status
  {
    if e in s.escrows then Open else Absent
  }

  /**
   * In a consistent ledger an address is Open exactly when both its record
   * and a vault exist, and a vault exists only beside its record.
   */
  lemma OpenIffRecordAndVault(s: LedgerState, e: Address, mint: Address)
    requires Consistent(s) && e.Pda?
    ensures (StatusOf(s, e) == Open && s.escrows[e].mintA == mint) <==> AssociatedTokenAddress(e, mint) in s.tokens
  {
    var v := AssociatedTokenAddress(e, mint);
    if v in s.tokens {
      assert s.tokens[v].owner == e;
    }
  }
}
