/** The bytes of a pool of memory. */
module Bytes {
  /** The `n` bytes at `src` have been copied to `dst`, and nothing else has changed. */
  ghost predicate Copied(was: seq<bv8>, now: seq<bv8>, dst: int, src: int, n: int) {
    && 0 <= n && 0 <= dst && 0 <= src && dst + n <= |was| && src + n <= |was|
    && |now| == |was|
    && forall a :: 0 <= a < |was| ==> now[a] == if dst <= a < dst + n then was[a - dst + src] else was[a]
  }

  /** `rt_memcpy` between ranges that do not overlap. */
  method CopyBytes(bytes: array<bv8>, dst: nat, src: nat, n: nat)
    requires dst + n <= bytes.Length && src + n <= bytes.Length && (dst + n <= src || src + n <= dst)
    modifies bytes
    ensures Copied(old(bytes[..]), bytes[..], dst, src, n)
  {
    for i := 0 to n
      invariant forall a :: 0 <= a < bytes.Length ==>
                  bytes[a] == if dst <= a < dst + i then old(bytes[a - dst + src]) else old(bytes[a])
    {
      bytes[dst + i] := bytes[src + i];
    }
  }
}
