/** Account addresses of the ledger: fixed-length byte strings with a
    distinguished all-zero address that no tokens may be sent or minted to. */
module Address {

  newtype byte = x: int | 0 <= x < 256

  /** Length in bytes of an address on the chain. */
  const AddressLength: nat := 32

  type Addr = s: seq<byte> | |s| == AddressLength witness seq(32, _ => 0)

  /** The null principal: every byte is zero. */
  const ZeroAddress: Addr :=
    [0, 0, 0, 0, 0, 0, 0, 0, 0, 0, 0, 0, 0, 0, 0, 0,
     0, 0, 0, 0, 0, 0, 0, 0, 0, 0, 0, 0, 0, 0, 0, 0]

  /** Models the address type's `is_zero` test: true when every byte is
      zero, which holds of exactly one address, ZeroAddress. */
  function IsZero(a: Addr): (r: bool)
    ensures r <==> a == ZeroAddress
  {
    forall i :: 0 <= i < |a| ==> a[i] == 0
  }
}
