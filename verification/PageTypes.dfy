// Values shared by the pager modules.

module PageTypes {
  type byte = x: int | 0 <= x < 256

  type Bytes = seq<byte>

  // The in-memory database header (struct BtDbHdr).
  datatype DbHdr = DbHdr(
    pgsz: nat, blksz: nat, nPg: nat,
    iRoot: nat, iMRoot: nat, iSRoot: nat,
    iSubBlock: nat, nSubPg: nat, iCookie: nat,
    iFreePg: nat, iFreeBlk: nat)

  // A memset(aData, 0, pgsz) page.
  function Zeros(pgsz: nat): Bytes {
    seq(pgsz, _ => 0)
  }

  predicate NoDup<T(==)>(s: seq<T>) {
    forall i, j | 0 <= i < j < |s| :: s[i] != s[j]
  }
}
