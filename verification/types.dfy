/** Machine integer ranges, account and token names, and the panics of the raffle contract.

    Rust's fixed-width integers are modelled as subset types of `int`; every place where
    the contract could leave the range of its type is written out as an explicit abort. */
module Types {

  const U32_LIMIT: nat := 0x1_0000_0000
  const U64_LIMIT: nat := 0x1_0000_0000_0000_0000
  const U128_LIMIT: nat := 0x1_0000_0000_0000_0000_0000_0000_0000_0000

  type Byte = b: int | 0 <= b < 0x100
  type U32 = x: int | 0 <= x < 0x1_0000_0000
  type U64 = x: int | 0 <= x < 0x1_0000_0000_0000_0000
  type U128 = x: int | 0 <= x < 0x1_0000_0000_0000_0000_0000_0000_0000_0000

  /** Raffle identifier (`type Id = u64`). */
  type Id = U64
  /** Amount of the ledger's base token in its smallest unit (NEAR `Balance = u128`). */
  type Balance = U128
  /** Ledger height (NEAR `BlockHeight = u64`). */
  type BlockHeight = U64
  /** Account names are compared only for equality, so a string is enough. */
  type AccountId = string
  type TokenId = string

  datatype Option<T> = None | Some(value: T)

  /** Every way a call of the contract can panic. A panic aborts the whole call: the ledger
      discards every state change and every scheduled transfer of that call. */
  datatype Panic =
    | AlreadyInitialized    // `new` on an account that already holds state
    | SliceOutOfBounds      // `&msg[..5]` or `&msg[6..]` past the end of the message
    | NotCharBoundary       // a slice index that falls inside a multi-byte UTF-8 character
    | ParseIntFailed        // `.parse().unwrap()` of a message field
    | IdOverflow            // `self.next_id += 1` at the top of the u64 range
    | NoSuchRaffle          // `.expect("No raffle with such Id")`
    | RaffleNotActive       // `panic!("Raffle is not active anymore")`
    | SmallDeposit          // `assert!(deposit >= raffle.ticket_price, "Small deposit")`
    | MissingRaffle         // `self.raffles.get(&raffle_id).unwrap()` in `draw`
    | SeedLength            // `env::random_seed().try_into().unwrap()` on a seed that is not 32 bytes
    | EmptyRange            // `rng.gen_range(0, high)` with `high == 0`
    | IndexOutOfBounds      // `raffle.participants[random]` past the end
    | PayoutOverflow        // `(p_number as u128) * t_price` at or above 2^128

  /** Outcome of a contract call: the committed value, or the panic that aborted it. */
  datatype Result<T> = Ok(value: T) | Abort(reason: Panic)
}
