/**
 The token ledger as values: a finite map from account identity to an
 unsigned 64-bit balance, the two in-place steps the wallet applies to it
 (debit and credit through an entry that defaults to zero) and the guarded
 transfer built from them. The class in module Wallet is specified by the
 functions here; everything the wallet promises is proved about them.
 */
module Ledger {

  /** 2^64: one more than the largest balance a `u64` can hold. */
  const U64_MODULUS: int := 0x1_0000_0000_0000_0000

  /** An unsigned 64-bit integer; no value outside this range is ever stored. */
  type U64 = x: int | 0 <= x < U64_MODULUS

  /** The balances map: account identity to balance. A missing key means 0. */
  type Balances = map<string, U64>

  /** The reason string of the one error a transfer can report. */
  const INSUFFICIENT_BALANCE: string := "Insufficient balance"

  /** The `Result<(), String>` returned by the update calls. */
  datatype Reply = Ok | Err(reason: string)

  /** The balance of `id`, counting an identity without an entry as 0. */
  function BalanceIn(m: Balances, id: string): (b: U64)
  {
    if id in m then m[id] else 0
  }

  /** Two ledgers that no balance query can tell apart. */
  ghost predicate SameBalances(m: Balances, m': Balances)
  {
    forall id :: BalanceIn(m, id) == BalanceIn(m', id)
  }

  /** Some account of a non-empty ledger; shared by Total and its lemmas so
      that they make the same choice. */
  ghost function PickAccount(m: Balances): (k: string)
    requires m != map[]
    ensures k in m
  {
    var k :| k in m; k
  }

  /** The total supply: the sum of all balances. */
  ghost function Total(m: Balances): (t: nat)
    decreases m.Keys
  {
    if m == map[] then 0
    else
      var k := PickAccount(m);
      m[k] + Total(m - {k})
  }

  /** Any entry can be split off the sum, not only the one Total picks. */
  lemma {:induction false} TotalRemove(m: Balances, k: string)
    requires k in m
    ensures Total(m) == m[k] + Total(m - {k})
    decreases m.Keys
  {
    var j := PickAccount(m);
    if j != k {
      var withoutJ, withoutK := m - {j}, m - {k};
      TotalRemove(withoutJ, k);
      TotalRemove(withoutK, j);
      assert withoutJ - {k} == withoutK - {j};
    }
  }

  /** Setting one entry changes the total by exactly the change in that
      account's balance, whether or not the entry existed before. */
  lemma TotalUpdate(m: Balances, k: string, v: U64)
    ensures Total(m[k := v]) + BalanceIn(m, k) == Total(m) + v
  {
    var m' := m[k := v];
    TotalRemove(m', k);
    assert m' - {k} == m - {k};
    if k in m {
      TotalRemove(m, k);
    } else {
      assert m - {k} == m;
    }
  }

  /** An empty ledger: every balance is 0 and so is the total supply. */
  lemma EmptyLedger()
    ensures forall id :: BalanceIn(map[], id) == 0
    ensures Total(map[]) == 0
  {
  }

  /** Inserting a zero entry for an account whose balance is already 0 (what
      `or_insert(0)` may leave behind) changes no balance and not the total. */
  lemma ZeroEntryInvisible(m: Balances, k: string)
    requires BalanceIn(m, k) == 0
    ensures SameBalances(m[k := 0], m)
    ensures Total(m[k := 0]) == Total(m)
  {
    TotalUpdate(m, k, 0);
  }

  /** `*balances.entry(id).or_insert(0) -= amount`, where the caller has
      already checked that the balance covers `amount`. */
  function Debit(m: Balances, id: string, amount: U64): (r: Balances)
    requires amount <= BalanceIn(m, id)
    ensures id in r
    ensures BalanceIn(r, id) == BalanceIn(m, id) - amount
    ensures forall x :: x != id ==> BalanceIn(r, x) == BalanceIn(m, x)
    ensures Total(r) + amount == Total(m)
  {
    var v := BalanceIn(m, id) - amount;
    TotalUpdate(m, id, v);
    m[id := v]
  }

  /** `*balances.entry(id).or_insert(0) += amount`. Neither `receive_tokens`
      nor `send_tokens` guards this addition; it is required here not to leave the u64 range. */
  function Credit(m: Balances, id: string, amount: U64): (r: Balances)
    requires BalanceIn(m, id) + amount < U64_MODULUS
    ensures id in r
    ensures BalanceIn(r, id) == BalanceIn(m, id) + amount
    ensures forall x :: x != id ==> BalanceIn(r, x) == BalanceIn(m, x)
    ensures Total(r) == Total(m) + amount
  {
    var v := BalanceIn(m, id) + amount;
    TotalUpdate(m, id, v);
    m[id := v]
  }

  /** The receiver's credit in a transfer from `from` to `to` stays in the u64
      range. The credit only runs once the balance check has passed, and a
      self-transfer credits back what was just debited, so only a transfer to
      another account whose balance would pass 2^64 - 1 is excluded. */
  predicate TransferFits(m: Balances, from: string, to: string, amount: U64)
  {
    BalanceIn(m, from) >= amount && from != to ==> BalanceIn(m, to) + amount < U64_MODULUS
  }

  /** `send_tokens` on a ledger value: check the sender's balance, then debit
      the sender and credit the receiver, in that order. */
  function Transfer(m: Balances, from: string, to: string, amount: U64): (r: (Reply, Balances))
    requires TransferFits(m, from, to, amount)
    // it fails exactly when the sender's balance does not cover the amount
    ensures r.0.Err? <==> BalanceIn(m, from) < amount
    // a failure carries the message `send_tokens` returns and leaves the ledger as it was
    ensures r.0.Err? ==> r.0 == Err(INSUFFICIENT_BALANCE) && r.1 == m
    // a success moves exactly `amount` from sender to receiver
    ensures r.0.Ok? && from != to ==>
              && BalanceIn(r.1, from) == BalanceIn(m, from) - amount
              && BalanceIn(r.1, to) == BalanceIn(m, to) + amount
    // a self-transfer changes no balance
    ensures r.0.Ok? && from == to ==> SameBalances(r.1, m)
    // no third account is touched
    ensures forall x :: x != from && x != to ==> BalanceIn(r.1, x) == BalanceIn(m, x)
    // no tokens are created or destroyed
    ensures Total(r.1) == Total(m)
  {
    if BalanceIn(m, from) < amount then
      (Err(INSUFFICIENT_BALANCE), m)
    else
      var debited := Debit(m, from, amount);
      (Ok, Credit(debited, to, amount))
  }

  /** Sending nothing always succeeds and is invisible to every balance query,
      although it may add zero entries for the sender and the receiver. */
  lemma ZeroTransferInvisible(m: Balances, from: string, to: string)
    ensures TransferFits(m, from, to, 0)
    ensures Transfer(m, from, to, 0).0 == Ok
    ensures SameBalances(Transfer(m, from, to, 0).1, m)
  {
  }
}
