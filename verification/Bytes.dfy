/** Bytes and the byte-copying helper of the kernel. */
module Bytes {

  type Byte = b: int | 0 <= b < 256

  /** memmove(page + off, src, |src|) */
  function Overwrite(page: seq<Byte>, off: nat, src: seq<Byte>): (r: seq<Byte>)
    requires off + |src| <= |page|
    ensures |r| == |page|
    ensures forall i :: 0 <= i < |page| ==> r[i] == if off <= i < off + |src| then src[i - off] else page[i]
  {
    page[..off] + src + page[off + |src|..]
  }
}
