/** The concrete configuration shared by every pallet: the account, content and
    numeric types of the runtime, and the closed set of dispatch errors. */
module Types {

  /** Largest value of an unsigned 32-bit integer (block numbers and nonces). */
  const U32_MAX: nat := 0xFFFF_FFFF

  /** Largest value of an unsigned 128-bit integer (balances). */
  const U128_MAX: nat := 0xFFFF_FFFF_FFFF_FFFF_FFFF_FFFF_FFFF_FFFF

  type U32 = n: nat | n <= 0xFFFF_FFFF
  type U128 = n: nat | n <= 0xFFFF_FFFF_FFFF_FFFF_FFFF_FFFF_FFFF_FFFF

  type AccountId = string
  type Content = string
  type Balance = U128
  type BlockNumber = U32
  type Nonce = U32

  datatype Option<T> = None | Some(value: T)

  /** The five ways a pallet call can fail. */
  datatype Error =
    | InsufficientBalance   // "Insufficient balance"
    | BalanceOverflow       // "Overflow when adding to balance"
    | ClaimAlreadyExists    // "Claim already exists"
    | ClaimNotFound         // "Claim does not exist."
    | NotClaimOwner         // "Caller is not the owner of the claim"

  /** The outcome of one pallet call. */
  datatype DispatchResult = Ok | Err(error: Error)
}
