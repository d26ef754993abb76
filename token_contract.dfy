/** The fungible-token ledger: a balance per address, a total-supply counter
    and an owner, changed only by Init, Transfer, Mint and Burn. Each of the
    three guarded operations either commits completely and appends one event,
    or aborts with a reason and changes nothing. The caller's address, which
    the host supplies on every call, is an explicit parameter. */
module TokenContract {

  import opened Address
  import opened Balances

  /** The three event records the contract emits. */
  datatype Event =
    | TransferEvent(from: Addr, to: Addr, amount: nat)
    | MintEvent(to: Addr, amount: nat)
    | BurnEvent(from: Addr, amount: nat)

  /** Why an operation aborted: one constructor per failing check. */
  datatype Error =
    | TransferToZero      // "Cannot transfer to zero address"
    | MintToZero          // "Cannot mint to zero address"
    | NonPositiveAmount   // "Amount must be positive"
    | InsufficientBalance // "Insufficient balance"
    | NotOwner            // "Only owner can call this function"
    | SupplyUnderflow     // the big-integer subtraction from the supply would go negative

  /** The result of a mutating operation: committed, or aborted with a reason. */
  datatype Outcome = Ok | Abort(reason: Error)

  class Ledger {
    /** Per-address balances; an address with no entry holds 0. */
    var balances: map<Addr, nat>
    var totalSupply: nat
    /** No operation writes it: the constructor takes it as given. */
    const owner: Addr
    /** Events emitted so far, oldest first. */
    var events: seq<Event>

    /** The accounting invariant: the balances add up to the total supply. */
    ghost predicate Conserved()
      reads this
    {
      Sum(balances) == totalSupply
    }

    /** A freshly deployed ledger: empty storage and the given owner. */
    constructor (owner: Addr)
      ensures this.owner == owner
      ensures balances == map[] && totalSupply == 0 && events == []
      ensures Conserved()
    {
      this.owner := owner;
      balances := map[];
      totalSupply := 0;
      events := [];
    }

    /** The `getBalance` view: what `a` holds, 0 when nothing is stored.
        While the ledger is conserved no balance exceeds the total supply. */
    function GetBalance(a: Addr): (r: nat)
      reads this
      ensures a !in balances ==> r == 0
      ensures a in balances ==> r == balances[a]
      ensures Conserved() ==> r <= totalSupply
    {
      BalanceAtMostSum(balances, a);
      Get(balances, a)
    }

    /** The `getTotalSupply` view: the stored supply. While the ledger is
        conserved it bounds every balance and equals their sum. */
    function GetTotalSupply(): (r: nat)
      reads this
      ensures r == totalSupply
      ensures Conserved() ==> r == Sum(balances)
      ensures Conserved() ==> forall a :: GetBalance(a) <= r
    {
      totalSupply
    }

    /** The owner check used by Mint: passes exactly for the stored owner. */
    function RequireOwner(caller: Addr): (r: Outcome)
      ensures r == Ok <==> caller == owner
      ensures r != Ok ==> r == Abort(NotOwner)
    {
      if caller == owner then Ok else Abort(NotOwner)
    }

    /** `init`: the caller's balance and the total supply are both set to
        `initialSupply`, overwriting whatever was there; no event. The
        invariant is (re-)established when nobody else held tokens. */
    method Init(caller: Addr, initialSupply: nat)
      modifies this
      ensures balances == old(balances)[caller := initialSupply]
      ensures totalSupply == initialSupply
      ensures events == old(events)
      ensures GetBalance(caller) == initialSupply
      ensures forall a :: a != caller ==> GetBalance(a) == old(GetBalance(a))
      ensures (forall a :: a != caller ==> old(GetBalance(a)) == 0) ==> Conserved()
    {
      balances := balances[caller := initialSupply];
      totalSupply := initialSupply;
      if forall a :: a != caller ==> old(GetBalance(a)) == 0 {
        assert forall a :: a != caller ==> Get(balances, a) == old(GetBalance(a));
        SumSingleHolder(balances, caller);
      }
    }

    /** `transfer`: move `amount` from the caller to `to`. Checked in order:
        `to` is not the zero address, `amount` is positive, the caller holds
        at least `amount`. The caller's entry is overwritten first and `to`'s
        entry is then incremented, so a transfer to oneself nets to nothing. */
    method Transfer(caller: Addr, to: Addr, amount: nat) returns (r: Outcome)
      modifies this
      ensures r == (if IsZero(to) then Abort(TransferToZero)
                    else if amount == 0 then Abort(NonPositiveAmount)
                    else if old(GetBalance(caller)) < amount then Abort(InsufficientBalance)
                    else Ok)
      ensures r.Abort? ==> balances == old(balances) && events == old(events)
      ensures r.Ok? ==> balances == Credit(Debit(old(balances), caller, amount), to, amount)
      ensures r.Ok? ==> events == old(events) + [TransferEvent(caller, to, amount)]
      ensures totalSupply == old(totalSupply)
      ensures r.Ok? && to != caller ==>
                GetBalance(caller) == old(GetBalance(caller)) - amount &&
                GetBalance(to) == old(GetBalance(to)) + amount
      ensures r.Ok? && to == caller ==> balances == old(balances)
      ensures forall a :: a != caller && a != to ==> GetBalance(a) == old(GetBalance(a))
      ensures old(Conserved()) ==> Conserved()
    {
      if IsZero(to) {
        return Abort(TransferToZero);
      }
      if amount == 0 {
        return Abort(NonPositiveAmount);
      }
      var callerBalance := GetBalance(caller);
      if callerBalance < amount {
        return Abort(InsufficientBalance);
      }
      balances := Debit(balances, caller, amount);
      balances := Credit(balances, to, amount);
      events := events + [TransferEvent(caller, to, amount)];
      if to == caller {
        DebitThenCreditSame(old(balances), caller, amount);
      }
      r := Ok;
    }

    /** `mint`: the owner creates `amount` new tokens for `to`. Checked in
        order: the caller is the owner, `to` is not the zero address,
        `amount` is positive. */
    method Mint(caller: Addr, to: Addr, amount: nat) returns (r: Outcome)
      modifies this
      ensures r == (if caller != owner then Abort(NotOwner)
                    else if IsZero(to) then Abort(MintToZero)
                    else if amount == 0 then Abort(NonPositiveAmount)
                    else Ok)
      ensures r.Abort? ==> balances == old(balances) && totalSupply == old(totalSupply) && events == old(events)
      ensures r.Ok? ==> balances == Credit(old(balances), to, amount)
      ensures r.Ok? ==> totalSupply == old(totalSupply) + amount
      ensures r.Ok? ==> GetBalance(to) == old(GetBalance(to)) + amount
      ensures r.Ok? ==> events == old(events) + [MintEvent(to, amount)]
      ensures forall a :: a != to ==> GetBalance(a) == old(GetBalance(a))
      ensures old(Conserved()) ==> Conserved()
    {
      var auth := RequireOwner(caller);
      if auth.Abort? {
        return auth;
      }
      if IsZero(to) {
        return Abort(MintToZero);
      }
      if amount == 0 {
        return Abort(NonPositiveAmount);
      }
      balances := Credit(balances, to, amount);
      totalSupply := totalSupply + amount;
      events := events + [MintEvent(to, amount)];
      r := Ok;
    }

    /** `burn`: the caller destroys `amount` of its own tokens. Checked in
        order: `amount` is positive, the caller holds at least `amount`; the
        subtraction from the supply aborts if it would go negative, which
        cannot happen while the ledger is conserved. */
    method Burn(caller: Addr, amount: nat) returns (r: Outcome)
      modifies this
      ensures r == (if amount == 0 then Abort(NonPositiveAmount)
                    else if old(GetBalance(caller)) < amount then Abort(InsufficientBalance)
                    else if old(totalSupply) < amount then Abort(SupplyUnderflow)
                    else Ok)
      ensures old(Conserved()) ==> r != Abort(SupplyUnderflow)
      ensures r.Abort? ==> balances == old(balances) && totalSupply == old(totalSupply) && events == old(events)
      ensures r.Ok? ==> balances == Debit(old(balances), caller, amount)
      ensures r.Ok? ==> totalSupply == old(totalSupply) - amount
      ensures r.Ok? ==> GetBalance(caller) == old(GetBalance(caller)) - amount
      ensures r.Ok? ==> events == old(events) + [BurnEvent(caller, amount)]
      ensures forall a :: a != caller ==> GetBalance(a) == old(GetBalance(a))
      ensures old(Conserved()) ==> Conserved()
    {
      if amount == 0 {
        return Abort(NonPositiveAmount);
      }
      var callerBalance := GetBalance(caller);
      if callerBalance < amount {
        return Abort(InsufficientBalance);
      }
      if totalSupply < amount {
        return Abort(SupplyUnderflow);
      }
      balances := Debit(balances, caller, amount);
      totalSupply := totalSupply - amount;
      events := events + [BurnEvent(caller, amount)];
      r := Ok;
    }
  }

  /** The basic lifecycle of a fresh ledger: A issues 1000, sends 300 to B,
      the owner mints 50 for C, B burns all 300; a transfer to the zero
      address is refused on the way. Every value follows from the contracts
      of the operations alone. */
  method Lifecycle(owner: Addr, a: Addr, b: Addr, c: Addr)
    returns (balanceA: nat, balanceB: nat, balanceC: nat, supply: nat,
             refused: Outcome, log: seq<Event>)
    requires !IsZero(b) && !IsZero(c)
    requires a != b && b != c && a != c
    ensures balanceA == 700 && balanceB == 0 && balanceC == 50 && supply == 750
    ensures refused == Abort(TransferToZero)
    ensures log == [TransferEvent(a, b, 300), MintEvent(c, 50), BurnEvent(b, 300)]
  {
    var ledger := new Ledger(owner);
    ledger.Init(a, 1000);
    var sent := ledger.Transfer(a, b, 300);
    assert ledger.GetBalance(a) == 700 && ledger.GetBalance(b) == 300;
    assert IsZero(ZeroAddress);
    refused := ledger.Transfer(a, ZeroAddress, 10);
    var minted := ledger.Mint(owner, c, 50);
    assert ledger.GetTotalSupply() == 1050;
    var burned := ledger.Burn(b, 300);
    balanceA, balanceB, balanceC := ledger.GetBalance(a), ledger.GetBalance(b), ledger.GetBalance(c);
    supply := ledger.GetTotalSupply();
    log := ledger.events;
  }
}
