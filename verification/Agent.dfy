/** `TLAgent`: link parameters, and the builders that fill a message struct in place. */
module Agent {
  import opened Bits
  import opened Messages
  import opened Lanes

  /** `TLMessageA`, a struct on the caller's stack: its contents are arbitrary until filled. */
  class TLMessageA {
    var opcode: nat
    var param: nat
    var size: nat
    var corrupt: nat
    var source: nat
    var address: nat
    var mask: nat
    const data: array<byte>

    constructor ()
      ensures data.Length == PAYLOAD && fresh(data)
    {
      data := new byte[PAYLOAD];
    }

    function Value(): (m: MsgA)
      reads this, data
      ensures |m.data| == data.Length
    {
      MsgA(opcode, param, size, corrupt, source, address, mask, data[..])
    }
  }

  class TLMessageD {
    var opcode: nat
    var param: nat
    var size: nat
    var corrupt: nat
    var source: nat
    var sink: nat
    var denied: nat
    const data: array<byte>

    constructor ()
      ensures data.Length == PAYLOAD && fresh(data)
    {
      data := new byte[PAYLOAD];
    }

    function Value(): (m: MsgD)
      reads this, data
      ensures |m.data| == data.Length
    {
      MsgD(opcode, param, size, corrupt, source, sink, denied, data[..])
    }
  }

  /** `memcpy(&dst[at], src, |src|)`. */
  method CopyInto(dst: array<byte>, at: nat, src: seq<byte>)
    requires at + |src| <= dst.Length
    modifies dst
    ensures dst[..] == Store(old(dst[..]), at, src)
  {
    forall k | 0 <= k < |src| { dst[at + k] := src[k]; }
  }

  class TLAgent {
    var p: TLBundleParams
    var pSet: bool

    constructor ()
      ensures !pSet
    {
      pSet := false;
    }

    /** The agent is configured, for a beat of `2^lgBeat` bytes. */
    ghost predicate Configured(lgBeat: nat)
      reads this
    {
      pSet && p.dataBits == 8 * Pow2(lgBeat) && lgBeat <= 5
    }

    /** The single-beat overload: the largest transfer is one beat, and the size field's width
        is set to the log of the beat. */
    method SetSingleBeat(dataWidth: nat, addrWidth: nat, srcWidth: nat)
      requires !pSet && 0 < dataWidth <= 256 && dataWidth % 8 == 0
      modifies this
      ensures pSet && p == TLBundleParams(addrWidth, srcWidth, 1, Ctz(dataWidth / 8), dataWidth, dataWidth / 8)
      ensures IsPow2(dataWidth / 8) ==> exists k: nat :: Configured(k) && p.sizeBits == k && p.maxTransferBytes == Pow2(k)
    {
      p := TLBundleParams(addrWidth, srcWidth, 1, Ctz(dataWidth / 8), dataWidth, dataWidth / 8);
      pSet := true;
      if IsPow2(dataWidth / 8) {
        ghost var k: nat :| Pow2(k) == dataWidth / 8;
        CtzOfPow2(k);
        assert Pow2(5) == 32;
        Pow2Order(k, 5);
        assert Configured(k);
      }
    }

    method SetParams(params: TLBundleParams)
      requires !pSet && params.dataBits <= 256 && params.maxTransferBytes <= 4096
      modifies this
      ensures pSet && p == params
    {
      p := params;
      pSet := true;
    }

    method Put(msg: TLMessageA, fromSource: nat, toAddress: nat, lgSize: nat, data: seq<byte>, ghost lgBeat: nat)
      requires Configured(lgBeat) && lgSize <= 12 && Pow2(lgSize) <= p.maxTransferBytes
      requires lgSize < lgBeat ==> Aligned(toAddress, lgSize)
      requires BeatBytes(lgBeat, lgSize) <= |data| && msg.data.Length == PAYLOAD
      modifies msg, msg.data
      ensures msg.Value() == PutMsg(lgBeat, old(msg.Value()), fromSource, toAddress, lgSize, data)
    {
      var beatBytes := p.dataBits / 8;
      Pow2Order(lgSize, lgBeat);
      BeatFits(lgBeat);
      msg.opcode := PUT_FULL_DATA;
      msg.param := 0;
      msg.size := lgSize;
      msg.mask := AlignMask(beatBytes, lgSize, toAddress);
      if Pow2(lgSize) < beatBytes {
        PutLaneIs(lgBeat, lgSize, toAddress);
        var i := FirstBitSet(msg.mask);
        CopyInto(msg.data, i, data[..Pow2(lgSize)]);
      } else {
        CopyInto(msg.data, 0, data[..beatBytes]);
      }
      msg.address := toAddress;
      msg.source := fromSource;
      msg.corrupt := 0;
    }

    /** The code does not check that the copy stays inside the payload array; `CopyFits` is exactly
        when it does. */
    method PutPartial(msg: TLMessageA, fromSource: nat, toAddress: nat, lgSize: nat, mask: nat, data: seq<byte>,
                      ghost lgBeat: nat)
      requires Configured(lgBeat) && lgSize <= 12 && Pow2(lgSize) <= p.maxTransferBytes
      requires mask != 0 && lgSize < lgBeat ==>
        Aligned(toAddress, lgSize) && CopyFits(lgBeat, lgSize, toAddress, mask)
      requires BeatBytes(lgBeat, lgSize) <= |data| && msg.data.Length == PAYLOAD
      modifies msg, msg.data
      ensures msg.Value() == PutPartialMsg(lgBeat, old(msg.Value()), fromSource, toAddress, lgSize, mask, data)
    {
      var beatBytes := p.dataBits / 8;
      Pow2Order(lgSize, lgBeat);
      BeatFits(lgBeat);
      msg.opcode := PUT_PARTIAL_DATA;
      msg.param := 0;
      msg.size := lgSize;
      msg.address := toAddress;
      msg.source := fromSource;
      if mask == 0 {
        msg.mask := 0;
      } else if Pow2(lgSize) >= beatBytes {
        msg.mask := mask;
        CopyInto(msg.data, 0, data[..beatBytes]);
      } else {
        msg.mask := ShiftedMask(beatBytes, mask, lgSize, toAddress);
        var i := FirstBitSet(msg.mask);
        PutPartialInside(lgBeat, lgSize, toAddress, mask);
        ghost var before := msg.data[..];
        CopyInto(msg.data, i, data[..Pow2(lgSize)]);
        assert Store(before, i, data[..Pow2(lgSize)]) == CopyClipped(before, i, data[..Pow2(lgSize)]);
      }
      msg.corrupt := 0;
    }

    method Get(msg: TLMessageA, fromSource: nat, toAddress: nat, lgSize: nat, ghost lgBeat: nat)
      requires Configured(lgBeat) && lgSize <= 12 && Pow2(lgSize) <= p.maxTransferBytes
      requires lgSize < lgBeat ==> Aligned(toAddress, lgSize)
      modifies msg
      ensures msg.Value() == GetMsg(lgBeat, old(msg.Value()), fromSource, toAddress, lgSize)
    {
      msg.opcode := GET;
      msg.param := 0;
      msg.size := lgSize;
      msg.address := toAddress;
      msg.source := fromSource;
      msg.mask := AlignMask(p.dataBits / 8, lgSize, toAddress);
      msg.corrupt := 0;
    }

    method AccessAckData(msg: TLMessageD, toSource: nat, lgSize: nat, data: seq<byte>, denied: nat, ghost lgBeat: nat)
      requires Configured(lgBeat) && lgSize <= 12 && Pow2(lgSize) <= p.maxTransferBytes
      requires Pow2(lgBeat) <= |data| && msg.data.Length == PAYLOAD
      modifies msg, msg.data
      ensures msg.Value() == AccessAckDataMsg(lgBeat, old(msg.Value()), toSource, lgSize, data, denied)
    {
      BeatFits(lgBeat);
      msg.opcode := ACCESS_ACK_DATA;
      msg.param := 0;
      msg.size := lgSize;
      msg.source := toSource;
      msg.sink := 0;
      var beatBytes := p.dataBits / 8;
      CopyInto(msg.data, 0, data[..beatBytes]);
      msg.corrupt := 0;
      msg.denied := denied;
    }

    method AccessAck(msg: TLMessageD, toSource: nat, lgSize: nat, denied: nat)
      requires pSet
      modifies msg
      ensures msg.Value() == AccessAckMsg(old(msg.Value()), toSource, lgSize, denied)
    {
      msg.opcode := ACCESS_ACK;
      msg.param := 0;
      msg.size := lgSize;
      msg.source := toSource;
      msg.sink := 0;
      msg.corrupt := 0;
      msg.denied := denied;
    }
  }
}
