# Fungible-token ledger, modelled in Dafny

This project models the token contract in `examples/token_contract.rs`: a
ledger that keeps a balance per address, a total-supply counter and an owner
address. Four endpoints change it. `init` issues the initial supply to the
caller. `transfer` moves tokens. `mint` lets the owner create tokens. `burn`
lets any holder destroy their own. Two views read a balance and the total
supply.

The model has three modules:

- `Address` (`address.dfy`): 32-byte addresses and the `is_zero` test.
- `Balances` (`balances.dfy`): the balance storage as a `map<Addr, nat>` where
  a missing key reads as 0. It also holds the two ways the contract writes an
  entry (`Debit`: overwrite with the old value minus an amount; `Credit`: add
  an amount to the old value), the ghost sum of all balances, and lemmas about
  that sum.
- `TokenContract` (`token_contract.dfy`): the `Ledger` class with fields
  `balances`, `totalSupply`, `owner` (a `const`, fixed by the constructor) and
  `events`. Each endpoint is a method that takes the caller's address as a
  parameter and returns `Ok` or `Abort(reason)` instead of raising through
  `require!`. The file ends with a client method, `Lifecycle`, that runs the
  basic scenario of the system using only the operations' contracts.

`BigUint` amounts are `nat`. The ledger's accounting invariant is the ghost
predicate `Ledger.Conserved()`: the balances add up to the total supply.
`Transfer`, `Mint` and `Burn` preserve it. `Init` re-establishes it whenever
no other address held tokens before the call.

Two details of the source are kept as written:

- `transfer` first overwrites the caller's entry. It then increments `to`'s
  entry, reading the value just written. When `to` is the caller the two
  writes cancel out, and the method proves the balance map is unchanged.
- `burn` subtracts from the total supply with a big-integer subtraction, which
  aborts the call if the result would be negative. The model makes this an
  explicit abort, `SupplyUnderflow`, and proves it cannot happen while the
  ledger is conserved: no single balance exceeds the sum of all balances.

In the source, that subtraction happens after the caller's balance has been
written. An abort makes the host discard every write of the call, so the model
checks first and writes afterwards, which is observably the same.

## Model

| member | source | states |
|---|---|---|
| `Address.IsZero` | examples/token_contract.rs:17 | the `is_zero` test of transfer (and of mint at line 32) is true exactly when all 32 bytes are zero, that is, for exactly one address, `ZeroAddress` |
| `Balances.Get` | examples/token_contract.rs:20 | a balance read (here the caller's in transfer; likewise at lines 46 and 57) gives the stored value, or 0 when the slot was never written |
| `Balances.SumRemove` | examples/token_contract.rs:67-68 | any stored balance can be split off the sum of all balances, whatever order the sum takes keys in |
| `Balances.SumUpdate` | examples/token_contract.rs:67-68 | writing a value at one address changes the sum of balances by that value minus what the address held |
| `Balances.BalanceAtMostSum` | examples/token_contract.rs:47-50 | no single balance exceeds the sum of all balances, which is why burn's supply subtraction cannot go negative |
| `Balances.SumSingleHolder` | examples/token_contract.rs:8-12 | if only one address can hold a non-zero balance, the sum is that balance (init's conservation case) |
| `Balances.Credit` | examples/token_contract.rs:24 | adding to an entry raises that address by the amount, leaves every other address as it was, and raises the sum by exactly the amount |
| `Balances.Debit` | examples/token_contract.rs:23 | overwriting an entry with its balance minus an amount it covers lowers that address by the amount, leaves every other address as it was, and lowers the sum by exactly the amount |
| `Balances.DebitThenCreditSame` | examples/token_contract.rs:23-24 | debiting and then crediting one address by the same positive amount gives back the identical map (the self-transfer case) |
| `TokenContract.Ledger.constructor` | examples/token_contract.rs:67-74 | a deployed ledger has the given owner, no balances, zero supply, no events, and is conserved |
| `TokenContract.Ledger.GetBalance` | examples/token_contract.rs:55-58 | an address with no entry reads 0, one with an entry reads it, and on a conserved ledger no balance exceeds the total supply |
| `TokenContract.Ledger.GetTotalSupply` | examples/token_contract.rs:60-63 | the view returns the stored total supply; on a conserved ledger that is the sum of all balances and bounds every balance |
| `TokenContract.Ledger.RequireOwner` | examples/token_contract.rs:102-106 | the owner check passes exactly for the stored owner and otherwise aborts with NotOwner |
| `TokenContract.Ledger.Init` | examples/token_contract.rs:8-12 | the caller's balance and the total supply become the initial supply, other balances and the event log are untouched, and the ledger is conserved if nobody else held tokens |
| `TokenContract.Ledger.Transfer` | examples/token_contract.rs:15-27 | aborts, with nothing changed, for the zero recipient, then a zero amount, then a short balance, in that order; on success it debits the caller, credits the recipient, changes no other balance and not the supply, appends one transfer event, leaves balances identical on a self-transfer, and preserves conservation |
| `TokenContract.Ledger.Mint` | examples/token_contract.rs:30-39 | aborts, with nothing changed, for a non-owner caller, then the zero recipient, then a zero amount; on success the recipient and the supply each rise by exactly the amount, no other balance changes, one mint event is appended, and conservation is preserved |
| `TokenContract.Ledger.Burn` | examples/token_contract.rs:42-53 | aborts, with nothing changed, for a zero amount, then a short balance, then a supply underflow that cannot occur on a conserved ledger; on success the caller and the supply each fall by exactly the amount, no other balance changes, one burn event is appended, and conservation is preserved |
| `TokenContract.Lifecycle` | examples/token_contract.rs:8-53 | on a fresh ledger: init 1000 by A, transfer 300 to B, a refused transfer to the zero address, mint 50 to C by the owner, burn 300 by B leave A 700, B 0, C 50, supply 750, and exactly three events |

## Left out

- The host runtime: the caller's address is a parameter of every method, storage is the fields of `Ledger`, and events are appended to a sequence instead of being encoded and emitted.
- The human-readable abort messages: each `require!` message becomes one constructor of `Error`, named after the message.
- `BigUint` internals: amounts are unbounded `nat`, so mint's additions cannot overflow, as with the source's arbitrary-precision integers.
- Setting the owner: nothing in the contract ever writes the `owner` slot, `init` included, so `require_owner` reads a slot the code never sets. The model takes the owner as a constructor argument, so each successful `Mint` (the one in `Lifecycle` too) relies on a write the contract does not contain.
- A guard against repeated `init`: the source has none and overwrites, and so does the model.
- Concurrency and re-entrancy: the host runs one call at a time, so each method is one atomic step.
- The contract, endpoint, view, storage-mapper and event annotations and `no_std`: code generation with no behaviour of its own.
