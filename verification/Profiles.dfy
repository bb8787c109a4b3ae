/** The shipped network profiles, and that they meet every side condition the theorems ask for. */
module Profiles {
  import opened Types
  import opened Ledger
  import opened Chain
  import opened ChainFacts

  /** The foreign checks a profile is combined with. */
  datatype Foreign = Foreign(
    addressOk: Address -> bool, signatureOk: Tx -> bool,
    txBytes: Tx -> nat, coinbaseBytes: Coinbase -> nat, hashValue: Hash -> nat)

  const ATOMIC_UNITS: int := 1_000_000

  /** The constants all profiles share. */
  function Profile(difficulty: int, spacing: int, window: int, genesis: int, maturity: int,
                   allocations: seq<(Address, int)>, f: Foreign): Params {
    Params(25 * ATOMIC_UNITS, 100_000_000 * ATOMIC_UNITS, 1_000, difficulty, 256, true, spacing, window,
           genesis, maturity, 500, 1024, 512 * 1024, 11, 300, 5000, 25, 86_400, 100, 2000, 100,
           allocations, f.addressOk, f.signatureOk, f.txBytes, f.coinbaseBytes, f.hashValue)
  }

  function Devnet(f: Foreign): Params { Profile(65_536, 60, 60, 1_767_225_600, 3, [], f) }

  function Testnet(f: Foreign): Params { Profile(65_536, 60, 60, 1_767_225_600, 10, [], f) }

  function Mainnet(f: Foreign): Params { Profile(65_536, 60, 60, 0, 100, [], f) }

  function Privnet(f: Foreign): Params { Profile(16_384, 5, 30, 1_767_225_600, 3, [], f) }

  function Sandbox(f: Foreign): Params {
    Profile(16_384, 5, 30, 1_767_225_600, 3,
            [("SMAIMALB5FZD3Q2542WGIC2VLQVMU7P3QQHU3KTKUJA", 20_000_000 * ATOMIC_UNITS)], f)
  }

  /** Passing the start-up guards, an odd median window, and a count limit that implies the byte limit for
      every coinbase of up to 12288 bytes. */
  ghost predicate Suitable(p: Params) {
    && ValidParams(p) && p.mtpWindow % 2 == 1
    && forall cb: Coinbase :: p.coinbaseBytes(cb) <= 12_288 ==>
         p.coinbaseBytes(cb) + p.maxRegularTxs * p.maxTxBytes <= p.maxBlockBytes
  }

  /** Every shipped profile is suitable, given that the genesis marker is not a well-formed address. */
  lemma ShippedProfilesSuitable(f: Foreign)
    requires !f.addressOk(GENESIS_MINER)
    ensures Suitable(Devnet(f)) && Suitable(Testnet(f)) && Suitable(Mainnet(f)) && Suitable(Privnet(f)) && Suitable(Sandbox(f))
  {
    assert AllocationSum([]) == 0;
    var one := Sandbox(f).genesisAllocations;
    assert one[..0] == [];
    assert AllocationSum(one) == 20_000_000 * ATOMIC_UNITS;
  }

  /** On the networks without allocations the cap is reached exactly at height four million; below it every
      block mints the full reward. */
  lemma SupplySchedule(f: Foreign, rows: seq<Row>)
    requires !f.addressOk(GENESIS_MINER) && ValidParams(Devnet(f)) && ValidRows(Devnet(f), rows)
    ensures Minted(Devnet(f), rows) == Devnet(f).maxSupply <==> |rows| - 1 >= 4_000_000
    ensures |rows| - 1 < 4_000_000 ==> Total(Replay(Devnet(f), rows)) == (|rows| - 1) * 25 * ATOMIC_UNITS
  {
    hide ValidRows, Replay, Minted;
    MintedClosedForm(Devnet(f), rows);
    SupplyConserved(Devnet(f), rows);
    assert AllocationSum([]) == 0;
  }
}
