/** TileLink A- and D-channel messages as they travel in a queue packet, the link parameters,
    and byte ranges inside a buffer. */
module Messages {
  import opened Bits

  const PUT_FULL_DATA := 0
  const PUT_PARTIAL_DATA := 1
  const GET := 4
  const ACCESS_ACK := 0
  const ACCESS_ACK_DATA := 1

  /** Both message structs carry a 32-byte payload, one beat of the widest bus. */
  const PAYLOAD := 32

  datatype MsgA = MsgA(opcode: nat, param: nat, size: nat, corrupt: nat, source: nat,
                       address: nat, mask: nat, data: seq<byte>)

  datatype MsgD = MsgD(opcode: nat, param: nat, size: nat, corrupt: nat, source: nat,
                       sink: nat, denied: nat, data: seq<byte>)

  datatype TLBundleParams = TLBundleParams(addressBits: nat, sourceBits: nat, sinkBits: nat,
                                           sizeBits: nat, dataBits: nat, maxTransferBytes: nat)

  /** What `memcpy(&s[at], d, |d|)` leaves in `s`. */
  function Store<T>(s: seq<T>, at: nat, d: seq<T>): (r: seq<T>)
    requires at + |d| <= |s|
    ensures |r| == |s|
    ensures forall i :: 0 <= i < |s| ==> r[i] == if at <= i < at + |d| then d[i - at] else s[i]
  {
    s[..at] + d + s[at + |d|..]
  }

  function Zeros(n: nat): (r: seq<byte>)
    ensures |r| == n && forall i :: 0 <= i < n ==> r[i] == 0
  {
    seq(n, _ => 0)
  }

  /** Two adjacent stores are one longer store. */
  lemma StoreAppend<T>(s: seq<T>, at: nat, d: seq<T>, e: seq<T>)
    requires at + |d| + |e| <= |s|
    ensures Store(Store(s, at, d), at + |d|, e) == Store(s, at, d + e)
  {
  }

  /** A full-payload copy of the first beat's bytes, the rest zero. */
  function Padded(d: seq<byte>): (r: seq<byte>)
    requires |d| <= PAYLOAD
    ensures |r| == PAYLOAD
  {
    d + Zeros(PAYLOAD - |d|)
  }

  lemma PaddedFront(d: seq<byte>)
    requires |d| <= PAYLOAD
    ensures Padded(d)[..|d|] == d
  {
  }
}
