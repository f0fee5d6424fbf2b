/** Byte-block copies into a flat store, shared by the ROM loader and the
    register dump/load instructions. */
module Memory {

  /** Copies `bytes[i..]` to `store[addr + i..]`, one byte at a time in
      increasing order, as the source's copy loops do. */
  function WriteFrom(store: seq<bv8>, addr: nat, bytes: seq<bv8>, i: nat): (r: seq<bv8>)
    requires addr + |bytes| <= |store|
    requires i <= |bytes|
    ensures |r| == |store|
    ensures forall a :: 0 <= a < |store| ==>
      r[a] == if addr + i <= a < addr + |bytes| then bytes[a - addr] else store[a]
    decreases |bytes| - i
  {
    if i == |bytes| then store
    else WriteFrom(store[addr + i := bytes[i]], addr, bytes, i + 1)
  }

  /** The store with `bytes` written starting at `addr`; everything outside
      the written window keeps its old value. */
  function Write(store: seq<bv8>, addr: nat, bytes: seq<bv8>): (r: seq<bv8>)
    requires addr + |bytes| <= |store|
    ensures |r| == |store|
    ensures r[addr..addr + |bytes|] == bytes
    ensures forall a :: 0 <= a < |store| && !(addr <= a < addr + |bytes|) ==> r[a] == store[a]
  {
    var r := WriteFrom(store, addr, bytes, 0);
    assert forall k :: 0 <= k < |bytes| ==> r[addr..addr + |bytes|][k] == bytes[k];
    r
  }
}
