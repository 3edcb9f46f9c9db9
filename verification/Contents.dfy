/** File contents, and what a block does to them. */
module Contents {

  type Byte = bv8
  type Path = string
  type Files = map<Path, seq<Byte>>

  /** Where the block device is, on both sides. */
  const DEVICE: Path := "/dev/block"

  /** A block as an iterator hands it to the pipeline. */
  datatype ChangeBlock = ChangeBlock(path: Path, off: nat, len: nat, reqID: nat, totalSize: int, isZero: bool)

  /** The last block of a file, and the size of the file. */
  datatype Boundary = Boundary(path: Path, last: nat, total: int)

  /** A block as it travels in a write request. */
  datatype ChangedBlock = ChangedBlock(reqID: nat, path: Path, total: nat, off: nat, len: nat,
                                       isZero: bool, data: seq<Byte>)

  ghost predicate AllZero(d: seq<Byte>) {
    forall i :: 0 <= i < |d| ==> d[i] == 0
  }

  function Zeros(n: nat): (d: seq<Byte>)
    ensures |d| == n && AllZero(d)
  {
    seq(n, _ => 0)
  }

  /** A file that does not exist reads as an empty one. */
  function File(fs: Files, p: Path): seq<Byte> {
    if p in fs then fs[p] else []
  }

  /** The byte at a position; past the end a file reads as zeros. */
  function ByteAt(c: seq<Byte>, x: nat): Byte {
    if x < |c| then c[x] else 0
  }

  function Clip(x: nat, n: nat): (y: nat)
    ensures y <= n
  {
    if x < n then x else n
  }

  /** A read at `off`, cut short at the end of the file. */
  function ReadAt(c: seq<Byte>, off: nat, n: nat): (d: seq<Byte>)
    ensures off + n <= |c| ==> |d| == n
    ensures off < |c| < off + n ==> |d| == |c| - off
    ensures off >= |c| ==> d == []
    ensures |d| <= n
    ensures forall i :: 0 <= i < |d| ==> d[i] == ByteAt(c, off + i)
  {
    c[Clip(off, |c|)..Clip(off + n, |c|)]
  }

  /** A file is truncated upwards to its new size before the first write. */
  function Grow(c: seq<Byte>, n: nat): (d: seq<Byte>)
    ensures |d| == if |c| < n then n else |c|
    ensures forall x: nat :: ByteAt(d, x) == ByteAt(c, x)
  {
    if |c| < n then c + Zeros(n - |c|) else c
  }

  /** A positioned write; it extends the file when it goes past its end. */
  function Overlay(c: seq<Byte>, off: nat, d: seq<Byte>): (r: seq<Byte>)
    ensures |r| == if |c| < off + |d| then off + |d| else |c|
    ensures forall x: nat :: ByteAt(r, x) == if off <= x < off + |d| then d[x - off] else ByteAt(c, x)
  {
    var g := Grow(c, off + |d|);
    g[..off] + d + g[off + |d|..]
  }
}
