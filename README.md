# Anchor escrow, modelled in Dafny

This project models the Anchor escrow program. The program has three instructions:

- **`make`**: a maker opens an escrow. It locks `deposit` tokens of mint A in a vault and asks for `recieve` tokens of mint B in return.
- **`refund`**: the maker takes the deposit back and closes the escrow.
- **`take`**: a taker pays the asked amount of mint B to the maker and receives the vault's mint A. The escrow closes.

The escrow record lives at a program-derived address. That address is built from `[b"escrow", maker, seed as 8 little-endian bytes]` plus a bump byte. The vault is the associated token account of (escrow address, mint A), so only the program, signing with the escrow's seeds, can move its tokens.

The model runs over a closed ledger, with four parts:

- mint accounts;
- token accounts (mint, owner, balance), keyed by address;
- escrow records, keyed by their derived address;
- lamport balances.

Files:

- `le_bytes.dfy` (module `LeBytes`): the u64 ⇄ 8-byte little-endian encoding of the seed, with round-trip, onto and injectivity lemmas.
- `address.dfy` (module `Addresses`): addresses as a free datatype:
  - a key-pair `Wallet`;
  - a derived `Pda(tag, base, seed bytes, bump)`;
  - an associated `Ata(owner, mint)`.

  Equal derived addresses therefore have equal inputs, and a derived address is never a key-pair address. This is the collision resistance the program relies on. The canonical bump search is a parameter (`BumpSearch`).
- `ledger.dfy` (module `Ledger`): contains
  - the ledger state and the error kinds;
  - commit-or-abort (`Committed`);
  - transfers between token accounts (`Move`);
  - the per-mint supply and its algebra;
  - the consistency invariant;
  - the Absent/Open lifecycle of an escrow address.
- `token.dfy` (module `TokenProgram`): three calls into other programs, as functions on the ledger:
  - the token program's `transfer_checked` and `close_account`;
  - the associated token program's `create`.
- `make.dfy`, `refund.dfy`, `take.dfy` (modules `MakeIx`, `RefundIx`, `TakeIx`): each instruction's account constraints, and its whole effect as one closed-form function from the ledger before to the ledger after (or the error). The lemmas about each instruction are stated on that function.
- `program.dfy` (module `EscrowProgram`): holds two things:
  - the instructions as the program runs them, step by step (`MakeSteps`, `RefundSteps`, `TakeSteps`), each proved equal to the closed form;
  - the class `Chain`, whose fields are the ledger. Its methods are `save_escrow`, `deposit`, `refund_and_close_vault`, Take's two steps, the `init`s and `close`s Anchor performs, and the three entry points. On failure, an entry point restores the ledger it started from.
- `scenarios.dfy` (module `Scenarios`): the flows of the repository's end-to-end tests, and one further flow the tests do not run (a foreign refund and a repeated refund). Each is a method on a fresh `Chain` whose outcomes are proved.

All source paths below are relative to the repository root.

## Model

| member | source | states |
|---|---|---|
| LeBytes.ToLeBytes | programs/escrow/src/contexts/make.rs:21 | `seed.to_le_bytes()` is always exactly eight bytes |
| LeBytes.FromLeToLe | programs/escrow/src/contexts/make.rs:21 | decoding the n-byte little-endian encoding of any x < 256^n gives x back |
| LeBytes.ToLeFromLe | programs/escrow/src/contexts/refund.rs:27 | every byte string is the encoding, at its own length, of the value it decodes to |
| LeBytes.LeBytesRoundTrip | programs/escrow/src/contexts/refund.rs:47 | `from_le_bytes(to_le_bytes(seed)) == seed` for every u64 seed |
| LeBytes.LeBytesOnto | tests/escrow.ts:34 | every 8-byte string is the encoding of the u64 it decodes to |
| LeBytes.LeBytesInjective | programs/escrow/src/contexts/make.rs:21 | two seeds have the same encoding if and only if they are equal |
| Addresses.EscrowSeeds | programs/escrow/src/contexts/make.rs:21 | the escrow seed list is `b"escrow"`, the maker, and eight seed bytes that decode back to the seed itself, so the seed is carried without loss |
| Addresses.CreateProgramAddress | programs/escrow/src/contexts/refund.rs:27-28 | a derived address is a program address and never equals the base key it was derived from |
| Addresses.AssociatedTokenAddress | programs/escrow/src/contexts/make.rs:23 | an associated token address differs from its owner and its mint |
| Addresses.EscrowAddressInjective | programs/escrow/src/contexts/make.rs:21 | two escrow addresses are equal if and only if maker, seed and bump are all equal |
| Addresses.EscrowAddressSeparatesSeeds | programs/escrow/src/contexts/make.rs:21 | with the canonical bump, one maker's escrow addresses for two seeds coincide if and only if the seeds do |
| Ledger.Wallets | programs/escrow/src/contexts/make.rs:14 | the transaction's signers are exactly the key-pair addresses of the signing ids; a derived address never signs a transaction |
| Ledger.Move | programs/escrow/src/contexts/make.rs:43-54 | a transfer debits the source and credits the destination by the amount, and keeps the key set; a self-transfer changes nothing; every other account, and every account's mint and owner, are unchanged |
| Ledger.MoveConservesSupply | programs/escrow/src/contexts/make.rs:43-54 | a transfer between two accounts of one mint leaves the supply of every mint unchanged |
| Ledger.SupplyBoundsPair | programs/escrow/src/contexts/refund.rs:51-64 | two distinct accounts of one mint together hold at most its supply |
| Ledger.OpenIffRecordAndVault | programs/escrow/src/lib.rs:15-30 | in a consistent ledger, (escrow e is Open with mint A m) if and only if the associated account of (e, m) exists |
| Ledger.Consistent | programs/escrow/src/lib.rs:15-30 | the invariant every instruction keeps: each record re-derives from its own fields, names existing mints and has its vault; each account with a derived owner is the vault of a live record; associated accounts hold their own mint for their own owner; balances and supplies fit in a u64. Its contract: in a consistent ledger any two balances of one mint together fit in a u64, so no transfer between them can overflow |
| Ledger.ClosingKeepsConsistent | programs/escrow/src/lib.rs:21-30 | deleting a record together with its vault keeps the ledger consistent, provided the other accounts keep their mint and owner and every balance and supply still fits |
| TokenProgram.TransferChecked | programs/escrow/src/contexts/make.rs:53 | a successful transfer means both accounts exist and hold the mint, the source's owner signed, and the balance covered the amount; the result is exactly the move. A short balance fails with InsufficientFunds, and u64 balances stay within u64 |
| TokenProgram.TransferConservesSupply | programs/escrow/src/contexts/make.rs:53 | a successful transfer conserves the supply of every mint |
| TokenProgram.DerivedOwnerNeedsProgramSignature | programs/escrow/src/contexts/make.rs:23 | no set of key-pair signatures can debit an account owned by a derived address: maker and taker cannot touch the vault directly |
| TokenProgram.CloseAccount | programs/escrow/src/contexts/refund.rs:66-78 | a close succeeds only on an existing, zero-balance account whose owner signed; it deletes the account and credits its rent to the destination. A non-zero balance fails with NonZeroBalance |
| TokenProgram.CloseConservesSupply | programs/escrow/src/contexts/refund.rs:78 | closing an account leaves every mint's supply unchanged |
| TokenProgram.CreateAssociatedAccount | programs/escrow/src/contexts/make.rs:23 | on success, the account sits at the (owner, mint) associated address, was not live, and the payer covered the rent; it is created empty and the payer is debited. Creating a live address fails |
| MakeIx.CheckMakeAccounts | programs/escrow/src/contexts/make.rs:14-20 | passing requires the maker's signature, both mints, and a source that is the maker's associated mint_a account |
| MakeIx.Make | programs/escrow/src/contexts/make.rs:10-54 | the whole `make` transaction (account constraints, both `init`s, `deposit`, `save_escrow`): on success the escrow and vault addresses were not live before and are live after, and the set of mints is unchanged. What it stores and moves is stated by MakeStoresRecord, MakeMovesDeposit and MakeChargesRent |
| MakeIx.MakeStoresRecord | programs/escrow/src/contexts/make.rs:31-39 | after Make, the record at the derived address holds exactly seed, maker, mint_a, mint_b, recieve and the derivation bump; the address was not live and no other record changed |
| MakeIx.MakeMovesDeposit | programs/escrow/src/contexts/make.rs:43-53 | the vault is new and is the (escrow, mint_a) associated account, holding exactly `deposit`. It is owned by the escrow address, which is not the maker. The source drops by exactly `deposit`, and no other token account changes |
| MakeIx.MakeChecksSource | programs/escrow/src/contexts/make.rs:19-20 | a successful Make was signed by the maker and used the maker's associated mint_a account as source |
| MakeIx.MakeChargesRent | programs/escrow/src/contexts/make.rs:21-23 | the maker pays both rents and no other lamport balance changes |
| MakeIx.MakeConservesSupply | programs/escrow/src/contexts/make.rs:43-53 | Make leaves the supply of every mint unchanged |
| MakeIx.MakeFailsOnShortBalance | programs/escrow/src/contexts/make.rs:53 | Make fails when the maker's mint_a balance is below `deposit` |
| MakeIx.MakeFailsOnLiveEscrow | programs/escrow/src/contexts/make.rs:21 | Make fails when a record already lives at the address derived from (maker, seed) |
| MakeIx.MakeOpens | programs/escrow/src/lib.rs:15-19 | Make moves its escrow address from Absent to Open and leaves every other address's status unchanged |
| MakeIx.MakePreservesConsistent | programs/escrow/src/lib.rs:15-19 | Make keeps the ledger consistent |
| MakeIx.OpeningKeepsConsistent | programs/escrow/src/contexts/make.rs:21-54 | opening a record that re-derives from its own fields, with a new vault funded from an account of mint_a, keeps the ledger consistent |
| RefundIx.CheckRefundAccounts | programs/escrow/src/contexts/refund.rs:12-36 | passing requires all of: the maker's signature; mint_a; the maker's associated mint_a account; a record whose maker and mint_a match (`has_one`) and which re-derives from its seed and bump; and the vault as the (escrow, mint_a) associated account |
| RefundIx.VaultSignerSeeds | programs/escrow/src/contexts/refund.rs:44-49 | the signer seeds are the escrow's derivation seeds (maker, stored seed) and the stored bump |
| RefundIx.SignerSeedsSignForVault | programs/escrow/src/contexts/refund.rs:44-49 | once the constraints hold, the signer seeds sign for exactly the escrow address, which is the vault's owner |
| RefundIx.Refund | programs/escrow/src/contexts/refund.rs:12-81 | the whole `refund` transaction: on success the record and the vault existed before and are gone after, and the set of mints is unchanged. The balances and rents are stated by RefundReturnsVault |
| RefundIx.RefundOnlyByMaker | programs/escrow/src/contexts/refund.rs:22-30 | a successful Refund found a record whose maker signed, whose mint_a matches, and whose address re-derives from its own seed and bump |
| RefundIx.RefundRejectsOthers | programs/escrow/src/contexts/refund.rs:13-14 | whatever accounts are passed, Refund fails when the record's maker has not signed |
| RefundIx.RefundReturnsVault | programs/escrow/src/contexts/refund.rs:51-64 | the maker's mint_a balance rises by exactly the vault's old balance. The vault and the record are gone, both rents go to the maker, and no other account, record, lamport balance or mint changes |
| RefundIx.RefundConservesSupply | programs/escrow/src/contexts/refund.rs:51-64 | Refund leaves the supply of every mint unchanged |
| RefundIx.DrainedVaultCloses | programs/escrow/src/contexts/refund.rs:64-78 | after the vault is drained by its full balance, its balance is zero, and the close with the same authority succeeds |
| RefundIx.RefundTwiceFails | programs/escrow/src/contexts/refund.rs:22-30 | a second Refund of the same escrow fails with AccountNotInitialized |
| RefundIx.RefundCloses | programs/escrow/src/contexts/refund.rs:24 | Refund moves its escrow address from Open to Absent and leaves every other address's status unchanged |
| RefundIx.RefundPreservesConsistent | programs/escrow/src/lib.rs:21-24 | Refund keeps the ledger consistent |
| RefundIx.MakerCanRefund | programs/escrow/src/contexts/refund.rs:12-36 | in a consistent ledger, the record's maker, signing with their associated mint_a account, can always refund an open escrow |
| RefundIx.MakeThenRefundRestores | programs/escrow/src/contexts/refund.rs:64 | Make followed by the matching Refund restores the token accounts (the maker's mint_a balance included), the records and every lamport balance |
| TakeIx.CheckTakeAccounts | programs/escrow/src/lib.rs:26-30 | passing requires the taker's signature, both mints, the three party accounts as the right associated accounts, a record naming this maker and these mints that re-derives from its seed and bump, and the vault |
| TakeIx.Take | programs/escrow/src/lib.rs:26-30 | the whole `take` transaction: on success the record and the vault existed before and are gone after, and the set of mints is unchanged. The transfers are stated by TakePaysThenWithdraws and TakeSwaps |
| TakeIx.TakeChecks | programs/escrow/src/lib.rs:26-30 | a successful Take was signed by the taker and found a live record naming this maker and these mints |
| TakeIx.TakePaysThenWithdraws | programs/escrow/src/lib.rs:27-28 | for every successful Take, the token accounts are those of the taker's payment of `recieve` to the maker followed by the vault's whole balance moving to the taker, with the vault deleted; the payment never touches the vault |
| TakeIx.TakeSwaps | programs/escrow/src/lib.rs:27-28 | for every successful Take: the vault and the record are gone, both rents go to the maker, and no mint and no other lamport balance changes. When the mints differ and the taker is not the maker, the taker pays exactly `recieve` of mint_b, the maker receives it, the taker gets the vault's whole mint_a balance, and no other account changes |
| TakeIx.TakeConservesSupply | programs/escrow/src/lib.rs:26-30 | Take leaves the supply of every mint unchanged |
| TakeIx.TakeCloses | tests/escrow.ts:234-235 | after Take, no record exists at the escrow address; every other address's status is unchanged |
| TakeIx.TakeKeepsAccountShape | programs/escrow/src/lib.rs:26-30 | Take deletes only the vault, never changes an account's mint or owner, and keeps every balance within u64 |
| TakeIx.TakePreservesConsistent | programs/escrow/src/lib.rs:26-30 | Take keeps the ledger consistent |
| TakeIx.TakeTwiceFails | programs/escrow/src/lib.rs:26-30 | a second Take of the same escrow fails |
| TakeIx.RefundAfterTakeFails | programs/escrow/src/lib.rs:21-30 | once Take has closed an escrow, Refund on that address fails |
| TakeIx.TakeAfterRefundFails | programs/escrow/src/lib.rs:21-30 | once Refund has closed an escrow, Take on that address fails |
| EscrowProgram.InitEscrowAccount | programs/escrow/src/contexts/make.rs:21 | the escrow `init` succeeds if and only if the address is the one created from the seeds and bump, is not live, and the payer covers the rent; it then writes a zeroed record and debits the payer |
| EscrowProgram.MakeSteps | programs/escrow/src/lib.rs:15-19 | `make` run step by step: a successful run passed validation first, used the address derived from (maker, seed), which held no record, and leaves the record {seed, maker, mint_a, mint_b, recieve, bump} and the same mints. MakeStepsAgree proves it equal to MakeIx.Make |
| EscrowProgram.MakeStepsAgree | programs/escrow/src/lib.rs:15-19 | running make's steps in order (validation, escrow `init`, vault `init`, `deposit`, `save_escrow`) gives exactly the closed-form Make, error included |
| EscrowProgram.WithdrawAndClose | programs/escrow/src/contexts/refund.rs:43-81 | the vault's withdrawal: a successful one found the vault owned by the escrow and holding the mint, and a destination of that mint. It deletes the vault, credits its rent to the maker, and leaves records and mints alone |
| EscrowProgram.WithdrawAndCloseDrains | programs/escrow/src/contexts/refund.rs:43-81 | once the vault and destination are validated, the withdrawal either fails with Overflow or empties the vault into the destination, closes the vault and pays its rent to the maker |
| EscrowProgram.CloseEscrowAccount | programs/escrow/src/contexts/refund.rs:24 | `close = maker` removes exactly that record and credits its rent to the maker. Token accounts, other records, mints and every other lamport balance are unchanged |
| EscrowProgram.RefundSteps | programs/escrow/src/lib.rs:21-24 | `refund` run step by step: a successful run passed validation first and leaves neither the vault nor the record, with the same mints. RefundStepsAgree proves it equal to RefundIx.Refund |
| EscrowProgram.RefundStepsAgree | programs/escrow/src/lib.rs:21-24 | running refund's steps in order (validation, transfer back, vault close, record close) gives exactly the closed-form Refund, error included |
| EscrowProgram.TakeSteps | programs/escrow/src/lib.rs:26-30 | Take run step by step: a successful run passed validation first and leaves neither the vault nor the record, with the same mints. TakeStepsAgree proves it equal to TakeIx.Take |
| EscrowProgram.TakeStepsAgree | programs/escrow/src/lib.rs:26-30 | running take's steps in order (validation, payment, withdrawal and close, record close) gives exactly the closed-form Take, error included |
| EscrowProgram.PaymentKeepsTakeAccounts | programs/escrow/src/lib.rs:27-28 | the taker's payment keeps every account constraint of Take true for the withdrawal that follows |
| EscrowProgram.Chain.Store | programs/escrow/src/lib.rs:15-30 | the runtime's revert of a failed transaction: afterwards the ledger fields hold exactly the given state |
| EscrowProgram.Chain.InitEscrow | programs/escrow/src/contexts/make.rs:21 | the method finds the canonical bump and ends exactly where InitEscrowAccount says, leaving the ledger unchanged on failure |
| EscrowProgram.Chain.InitVault | programs/escrow/src/contexts/make.rs:23 | the method ends exactly where the associated token program's `create` of (escrow, mint_a) says, leaving the ledger unchanged on failure |
| EscrowProgram.Chain.Deposit | programs/escrow/src/contexts/make.rs:43-54 | the new ledger is exactly the result of the maker-authorised `transfer_checked` of `deposit` from the maker's account to the vault, or the old one on failure |
| EscrowProgram.Chain.SaveEscrow | programs/escrow/src/contexts/make.rs:31-41 | the escrow's record becomes exactly {seed, maker, mint_a, mint_b, recieve, bump}, and nothing else changes |
| EscrowProgram.Chain.WithdrawAndCloseVault | programs/escrow/src/contexts/refund.rs:43-81 | the method passes exactly when WithdrawAndClose succeeds (signer seeds plus bump), and the new ledger is its result |
| EscrowProgram.Chain.CloseEscrow | programs/escrow/src/contexts/refund.rs:24 | the new ledger is the old one with the record closed to the destination |
| EscrowProgram.Chain.TakeDeposit | programs/escrow/src/lib.rs:27 | the new ledger is exactly the result of the taker-authorised `transfer_checked` of the record's `recieve` of mint_b to the maker, or the old one on failure |
| EscrowProgram.Chain.Make | programs/escrow/src/lib.rs:15-19 | the `make` entry point passes exactly when the closed-form Make succeeds. It leaves exactly Make's result, or the untouched pre-state on any failure, and keeps the ledger consistent |
| EscrowProgram.Chain.Refund | programs/escrow/src/lib.rs:21-24 | the `refund` entry point passes exactly when the closed-form Refund succeeds. It leaves exactly Refund's result, or the untouched pre-state on any failure, and keeps the ledger consistent |
| EscrowProgram.Chain.Take | programs/escrow/src/lib.rs:26-30 | the `take` entry point passes exactly when the closed-form Take succeeds. It leaves exactly Take's result, or the untouched pre-state on any failure, and keeps the ledger consistent |
| Scenarios.MakeThenRefund | tests/escrow.ts:108-141 | with 10 000 mint A tokens and 2 SOL, a 1-for-1 Make then Refund both pass. The record is gone, and the maker has every token and every lamport back |
| Scenarios.FundedConsistent | tests/escrow.ts:45-106 | the funded starting ledger of the tests is consistent, so a `Chain` built on it satisfies its invariant from the start |
| Scenarios.RefundOnlyOnceByMaker | programs/escrow/src/contexts/refund.rs:13-30 | a flow the end-to-end tests do not run: on a chain that starts consistent, a refund signed by someone other than the maker fails, the maker's refund then passes, and a second refund fails |
| Scenarios.TakeFlowMake | tests/escrow.ts:192-207 | the take flow's Make passes, with 1 of mint A in the vault and the record {seed, maker, A, B, 1, bump} open |
| Scenarios.TakeFlowStartConsistent | tests/escrow.ts:159-177 | the take flow's starting ledger is consistent as well |
| Scenarios.TakeFlowTake | tests/escrow.ts:213-236 | on the ledger the take flow's Make leaves, the taker's Take passes: the taker holds 1 of mint A and 1 less of mint B, the maker holds 1 of mint B, and the record is gone |
| Scenarios.MakeThenTake | tests/escrow.ts:213-236 | after a 1-for-1 Make, Take passes: the taker holds 1 of mint A and 1 less of mint B, the maker holds 1 of mint B, and the record is gone |

## Left out

- The real derived-address hash (SHA-256 over the seeds and program id) and the off-curve bump search. Addresses are a free datatype, and the canonical bump is a parameter of every run.
- Anchor's account deserialisation, discriminators and `space`. The decimals check of `transfer_checked` is reduced to "the mint matches".
- Exact rent amounts. The two rent-exempt deposits are an abstract `Rent` parameter; the model records only who pays and who gets them back.
- Signature verification, transaction ordering and concurrency. Each instruction is one atomic step over a single ledger, and the signers of a transaction are given as a set of wallet ids.
- Program ids. The `declare_id` in `programs/escrow/src/lib.rs` and the id in the tests differ, and neither affects behaviour.
- Transfers from outside into a vault. The ledger is closed, and Refund and Take still drain whatever balance the vault holds at that moment.
- Mint creation, `mintTo` and airdrops. The scenarios start from a ledger where these have already happened.
- `take.rs` and `state.rs` are not part of this model. Take's step order is modelled as the entry point shows it: the taker pays first, then the vault is withdrawn and closed.
- TakeIx.CheckTakeAccounts: assumed constraints. They mirror Refund's, with `has_one` on maker, mint_a and mint_b, and the taker as signer. They are not read off source.
- TakeIx.Take: both rents are assumed to go to the maker, as in Refund.
- TakeIx.Take: the taker's mint_a account and the maker's mint_b account must already exist. `init_if_needed` creation is not modelled, so the take scenario creates both accounts, empty, beforehand.
- EscrowProgram.Chain.WithdrawAndCloseVault: states the new ledger only when the method passes. After a failed transfer or close, the entry point restores the state, so the partial state is never observed.
- The token program's delegates, close authority, frozen accounts and freeze authority. `transfer_checked` and `close_account` check only the owner's signature, so in the model a frozen account can never make Refund or Take fail.
