/** The system pallet: the current block number and a nonce per account. */
module System {
  import opened Types

  /** The nonce recorded for `who`; an account never seen reads as zero. */
  function NonceIn(nonces: map<AccountId, Nonce>, who: AccountId): (n: Nonce)
    ensures who in nonces ==> n == nonces[who]
    ensures who !in nonces ==> n == 0
  {
    if who in nonces then nonces[who] else 0
  }

  /** The nonce map after `inc_nonce(who)`: `who` goes up by exactly one,
      starting from zero when unseen, and no other account moves. */
  function IncNonceIn(nonces: map<AccountId, Nonce>, who: AccountId): (r: map<AccountId, Nonce>)
    requires NonceIn(nonces, who) < U32_MAX
    ensures NonceIn(r, who) == NonceIn(nonces, who) + 1
    ensures forall a :: a != who ==> NonceIn(r, a) == NonceIn(nonces, a)
    ensures r.Keys == nonces.Keys + {who}
  {
    nonces[who := NonceIn(nonces, who) + 1]
  }

  /** The nonce map after `n` successive `inc_nonce(who)` calls. */
  function IncNonceRepeat(nonces: map<AccountId, Nonce>, who: AccountId, n: nat): (r: map<AccountId, Nonce>)
    requires NonceIn(nonces, who) + n <= U32_MAX
    ensures NonceIn(r, who) == NonceIn(nonces, who) + n
    ensures forall a :: a != who ==> NonceIn(r, a) == NonceIn(nonces, a)
    decreases n
  {
    if n == 0 then nonces else IncNonceIn(IncNonceRepeat(nonces, who, n - 1), who)
  }

  class Pallet {
    var blockNumber: BlockNumber
    var nonce: map<AccountId, Nonce>

    constructor ()
      ensures blockNumber == 0 && nonce == map[]
      ensures forall a :: GetNonce(a) == 0
    {
      blockNumber := 0;
      nonce := map[];
    }

    /** The current block number, read without changing any state. */
    function GetBlockNumber(): (n: BlockNumber)
      reads this
      ensures n == blockNumber
    {
      blockNumber
    }

    /** `who`'s nonce: the stored one, or zero for an account never seen. */
    function GetNonce(who: AccountId): (n: Nonce)
      reads this
      ensures who in nonce ==> n == nonce[who]
      ensures who !in nonce ==> n == 0
    {
      NonceIn(nonce, who)
    }

    /** Advances the block number by one; the nonces stay as they are. */
    method IncBlockNumber()
      requires blockNumber < U32_MAX
      modifies this
      ensures blockNumber == old(blockNumber) + 1
      ensures nonce == old(nonce)
    {
      blockNumber := blockNumber + 1;
    }

    /** Reads `who`'s nonce (zero if unseen) and writes it back plus one. */
    method IncNonce(who: AccountId)
      requires GetNonce(who) < U32_MAX
      modifies this
      ensures nonce == IncNonceIn(old(nonce), who)
      ensures GetNonce(who) == old(GetNonce(who)) + 1
      ensures forall a :: a != who ==> GetNonce(a) == old(GetNonce(a))
      ensures blockNumber == old(blockNumber)
    {
      var current := if who in nonce then nonce[who] else 0;
      nonce := nonce[who := current + 1];
    }
  }
}
