/**
 * Account addresses and the two derivations the escrow relies on: the
 * escrow program's derived address for `[b"escrow", maker, seed]` plus a
 * bump byte, and the associated token account of an (owner, mint) pair.
 *
 * The hash behind both derivations is modelled as a free constructor: two
 * derived addresses are equal exactly when their inputs are, and a derived
 * address is never an ordinary key-pair address (it is off the curve). This
 * is the collision-resistance the program relies on, stated as a datatype.
 */
module Addresses {
  import opened LeBytes

  datatype Address =
    | Wallet(id: nat)                                       // a key-pair address: a user or a mint
    | Pda(tag: seq<u8>, base: Address, seed: seq<u8>, bump: u8)  // derived under the escrow program
    | Ata(owner: Address, mint: Address)                    // associated token account

  /** The namespace tag `b"escrow"`. */
  const ESCROW_TAG: seq<u8> := [0x65, 0x73, 0x63, 0x72, 0x6f, 0x77]

  /** The seed list `[tag, base, seed]`, before the bump byte is appended. */
  datatype Seeds = Seeds(tag: seq<u8>, base: Address, seed: seq<u8>)

  /** The off-curve bump search done by `find_program_address`, which is not part of this model. */
  type BumpSearch = Seeds -> u8

  /**
   * `[b"escrow", maker.key().as_ref(), &seed.to_le_bytes()]`: eight seed
   * bytes from which the seed decodes back unchanged.
   */
  function EscrowSeeds(maker: Address, seed: u64): (s: Seeds)
    ensures s.tag == ESCROW_TAG && s.base == maker && |s.seed| == 8
    ensures FromLeBytes(s.seed) == seed
  {
    LeBytesRoundTrip(seed);
    Seeds(ESCROW_TAG, maker, ToLeBytes(seed))
  }

  /** `create_program_address(seeds ++ [bump])` under the escrow program. */
  function CreateProgramAddress(s: Seeds, bump: u8): (a: Address)
    ensures a.Pda? && a != s.base
  {
    Pda(s.tag, s.base, s.seed, bump)
  }

  /** `find_program_address(seeds)`: the address at the canonical bump, and that bump. */
  function FindProgramAddress(s: Seeds, bumpOf: BumpSearch): (r: (Address, u8))
    ensures r.0 == CreateProgramAddress(s, r.1) && r.1 == bumpOf(s)
  {
    (CreateProgramAddress(s, bumpOf(s)), bumpOf(s))
  }

  /** `get_associated_token_address(owner, mint)`. */
  function AssociatedTokenAddress(owner: Address, mint: Address): (a: Address)
    ensures a.Ata? && a != owner && a != mint
  {
    assert owner < Ata(owner, mint) && mint < Ata(owner, mint);
    Ata(owner, mint)
  }

  /**
   * An escrow address determines the maker, the seed and the bump it was
   * derived from; in particular distinct seeds of one maker never share an
   * escrow address.
   */
  lemma EscrowAddressInjective(m1: Address, s1: u64, b1: u8, m2: Address, s2: u64, b2: u8)
    ensures CreateProgramAddress(EscrowSeeds(m1, s1), b1) == CreateProgramAddress(EscrowSeeds(m2, s2), b2)
            <==> m1 == m2 && s1 == s2 && b1 == b2
  {
    LeBytesInjective(s1, s2);
  }

  /** With the canonical bump, the escrow address depends on (maker, seed) alone and separates them. */
  lemma EscrowAddressSeparatesSeeds(maker: Address, s1: u64, s2: u64, bumpOf: BumpSearch)
    ensures FindProgramAddress(EscrowSeeds(maker, s1), bumpOf).0 == FindProgramAddress(EscrowSeeds(maker, s2), bumpOf).0
            <==> s1 == s2
  {
    EscrowAddressInjective(maker, s1, bumpOf(EscrowSeeds(maker, s1)), maker, s2, bumpOf(EscrowSeeds(maker, s2)));
  }
}
