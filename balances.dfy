/** The balances pallet: a balance per account, with checked transfers. */
module Balances {
  import opened Types

  /** The calls this pallet accepts from an extrinsic. */
  datatype Call = Transfer(to: AccountId, amount: Balance)

  /** The balance recorded for `who`; an account never written reads as zero. */
  function BalanceIn(balances: map<AccountId, Balance>, who: AccountId): (b: Balance)
    ensures who in balances ==> b == balances[who]
    ensures who !in balances ==> b == 0
  {
    if who in balances then balances[who] else 0
  }

  /** `checked_sub` on the 128-bit balance type. */
  function CheckedSub(a: Balance, b: Balance): (r: Option<Balance>)
    ensures r.Some? <==> b <= a
    ensures r.Some? ==> r.value == a - b
  {
    if b <= a then Some(a - b) else None
  }

  /** `checked_add` on the 128-bit balance type. */
  function CheckedAdd(a: Balance, b: Balance): (r: Option<Balance>)
    ensures r.Some? <==> a + b <= U128_MAX
    ensures r.Some? ==> r.value == a + b
  {
    if a + b <= U128_MAX then Some(a + b) else None
  }

  /** `transfer(caller, to, amount)` on the balance map: the result and the map
      afterwards. Both balances are read first; the subtraction is checked before
      the addition, and only when both pass are the two entries written, the
      recipient's last. */
  function TransferIn(balances: map<AccountId, Balance>, caller: AccountId, to: AccountId, amount: Balance)
    : (r: (DispatchResult, map<AccountId, Balance>))
    // a failing check reports its error and writes nothing
    ensures amount > BalanceIn(balances, caller) ==> r == (Err(InsufficientBalance), balances)
    ensures amount <= BalanceIn(balances, caller) && BalanceIn(balances, to) + amount > U128_MAX
            ==> r == (Err(BalanceOverflow), balances)
    ensures r.0 == Ok <==> amount <= BalanceIn(balances, caller) && BalanceIn(balances, to) + amount <= U128_MAX
    // two distinct accounts: the amount moves and their sum is conserved
    ensures r.0 == Ok && caller != to ==>
              && BalanceIn(r.1, caller) == BalanceIn(balances, caller) - amount
              && BalanceIn(r.1, to) == BalanceIn(balances, to) + amount
              && BalanceIn(r.1, caller) + BalanceIn(r.1, to) == BalanceIn(balances, caller) + BalanceIn(balances, to)
    // a self-transfer: the recipient's write lands last, so the account gains `amount`
    ensures r.0 == Ok && caller == to ==> BalanceIn(r.1, caller) == BalanceIn(balances, caller) + amount
    ensures r.0 == Ok ==> r.1.Keys == balances.Keys + {caller, to}
    ensures forall a :: a != caller && a != to ==> BalanceIn(r.1, a) == BalanceIn(balances, a)
  {
    var callerBalance := BalanceIn(balances, caller);
    var toBalance := BalanceIn(balances, to);
    match CheckedSub(callerBalance, amount)
    case None => (Err(InsufficientBalance), balances)
    case Some(newCallerBalance) =>
      match CheckedAdd(toBalance, amount)
      case None => (Err(BalanceOverflow), balances)
      case Some(newToBalance) => (Ok, balances[caller := newCallerBalance][to := newToBalance])
  }

  /** A transfer of zero always succeeds and leaves every balance as it was
      (it may materialise zero-valued entries for the two accounts). */
  lemma TransferZero(balances: map<AccountId, Balance>, caller: AccountId, to: AccountId)
    ensures TransferIn(balances, caller, to, 0).0 == Ok
    ensures forall a :: BalanceIn(TransferIn(balances, caller, to, 0).1, a) == BalanceIn(balances, a)
  {
  }

  /** Transfers from a single funded account into an empty one: 90 of 100
      leaves 10 and 90; 50 of 100 succeeds, leaving 50 and 50; 1 from the
      maximum balance into an empty account succeeds as well, since only the
      recipient's side is checked for overflow. */
  lemma TransferExamples()
    ensures var r := TransferIn(map["alice" := 100], "alice", "bob", 90);
            r.0 == Ok && BalanceIn(r.1, "alice") == 10 && BalanceIn(r.1, "bob") == 90
    ensures var r := TransferIn(map["alice" := 100], "alice", "bob", 50);
            r.0 == Ok && BalanceIn(r.1, "alice") == 50 && BalanceIn(r.1, "bob") == 50
    ensures var r := TransferIn(map["alice" := U128_MAX], "alice", "bob", 1);
            r.0 == Ok && BalanceIn(r.1, "alice") == U128_MAX - 1 && BalanceIn(r.1, "bob") == 1
  {
  }

  /** Sum of the balances of the listed accounts. */
  function TotalOver(balances: map<AccountId, Balance>, accounts: seq<AccountId>): nat
  {
    if |accounts| == 0 then 0 else BalanceIn(balances, accounts[0]) + TotalOver(balances, accounts[1..])
  }

  predicate Distinct(accounts: seq<AccountId>)
  {
    forall i, j :: 0 <= i < j < |accounts| ==> accounts[i] != accounts[j]
  }

  /** What a successful transfer does to the total of any list of distinct
      accounts: between two accounts it only moves `amount`, so a list holding
      both keeps its total; a self-transfer adds `amount` to any list holding
      the account. */
  lemma {:induction false} TransferTotal(balances: map<AccountId, Balance>, caller: AccountId, to: AccountId,
                                         amount: Balance, accounts: seq<AccountId>)
    requires TransferIn(balances, caller, to, amount).0 == Ok
    requires Distinct(accounts)
    ensures caller != to ==>
              TotalOver(TransferIn(balances, caller, to, amount).1, accounts)
              == TotalOver(balances, accounts) - (if caller in accounts then amount else 0)
                                               + (if to in accounts then amount else 0)
    ensures caller == to ==>
              TotalOver(TransferIn(balances, caller, to, amount).1, accounts)
              == TotalOver(balances, accounts) + (if caller in accounts then amount else 0)
    decreases |accounts|
  {
    if |accounts| > 0 {
      var rest := accounts[1..];
      assert Distinct(rest) by {
        forall i, j | 0 <= i < j < |rest| ensures rest[i] != rest[j] {
          assert rest[i] == accounts[i + 1] && rest[j] == accounts[j + 1];
        }
      }
      assert accounts[0] !in rest by {
        forall k | 0 <= k < |rest| ensures rest[k] != accounts[0] {
          assert rest[k] == accounts[k + 1];
        }
      }
      assert forall x :: x in accounts <==> x == accounts[0] || x in rest by {
        assert accounts == [accounts[0]] + rest;
      }
      TransferTotal(balances, caller, to, amount, rest);
    }
  }

  class Pallet {
    var balances: map<AccountId, Balance>

    constructor ()
      ensures balances == map[]
      ensures forall a :: GetBalance(a) == 0
    {
      balances := map[];
    }

    /** `who`'s balance: the stored one, or zero for an account never written. */
    function GetBalance(who: AccountId): (b: Balance)
      reads this
      ensures who in balances ==> b == balances[who]
      ensures who !in balances ==> b == 0
    {
      BalanceIn(balances, who)
    }

    /** Unchecked write of `who`'s balance (used for genesis funding). */
    method SetBalance(who: AccountId, amount: Balance)
      modifies this
      ensures balances == old(balances)[who := amount]
      ensures GetBalance(who) == amount
      ensures forall a :: a != who ==> GetBalance(a) == old(GetBalance(a))
    {
      balances := balances[who := amount];
    }

    /** Moves `amount` from `caller` to `to`, with both checks before either write. */
    method Transfer(caller: AccountId, to: AccountId, amount: Balance) returns (r: DispatchResult)
      modifies this
      ensures (r, balances) == TransferIn(old(balances), caller, to, amount)
    {
      var callerBalance := GetBalance(caller);
      var toBalance := GetBalance(to);
      var newCallerBalance := CheckedSub(callerBalance, amount);
      if newCallerBalance.None? {
        return Err(InsufficientBalance);
      }
      var newToBalance := CheckedAdd(toBalance, amount);
      if newToBalance.None? {
        return Err(BalanceOverflow);
      }
      SetBalance(caller, newCallerBalance.value);
      SetBalance(to, newToBalance.value);
      r := Ok;
    }
  }
}
