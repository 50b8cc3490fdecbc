/** The meaning of the memory interface's calls on a flat array of bytes. */
module FlatMemory {
  import opened Bits
  import opened Messages
  import opened Protocol

  datatype Call = ReadCall(addr: nat, n: nat) | WriteCall(addr: nat, data: seq<byte>)
  {
    function Len(): nat { if ReadCall? then n else |data| }
    function End(): nat { addr + Len() }
  }

  /** Memory after the call, and what it returns. */
  function After(mem: seq<byte>, call: Call): (r: seq<byte>)
    requires call.End() <= |mem|
    ensures |r| == |mem|
  {
    if call.ReadCall? then mem else Store(mem, call.addr, call.data)
  }

  function Answer(mem: seq<byte>, call: Call): seq<byte>
    requires call.End() <= |mem|
  {
    if call.ReadCall? then mem[call.addr..call.End()] else []
  }

  /** The requests of a caller; a clear is a write of zeros. */
  datatype Op = ReadOp(addr: nat, n: nat) | WriteOp(addr: nat, data: seq<byte>) | ClearOp(addr: nat, n: nat)

  function Meaning(op: Op): Call {
    match op
    case ReadOp(addr, n) => ReadCall(addr, n)
    case WriteOp(addr, data) => WriteCall(addr, data)
    case ClearOp(addr, n) => WriteCall(addr, Zeros(n))
  }

  // ---- what the calls demand ----

  /** What `read_chunk` and `write_chunk` assert of their arguments. */
  ghost predicate CallAsserts(c: Cfg, call: Call) {
    && And(call.addr, c.Beat() - 1) == 0
    && c.Beat() <= call.Len() <= c.maxBytes && call.Len() % c.Beat() == 0
  }

  /** What an operation needs: the assertions of its chunk calls. A clear longer than the largest
      transfer makes calls of that length. */
  ghost predicate OpAsserts(c: Cfg, op: Op) {
    match op
    case ReadOp(addr, n) => CallAsserts(c, ReadCall(addr, n))
    case WriteOp(addr, data) => CallAsserts(c, WriteCall(addr, data))
    case ClearOp(addr, n) =>
      && And(addr, c.Beat() - 1) == 0 && n % c.Beat() == 0
      && (n <= c.maxBytes || c.maxBytes % c.Beat() == 0)
  }

  /** And its range lies within a memory of `size` bytes the link can address. */
  ghost predicate OpOk(c: Cfg, op: Op, size: nat) {
    OpAsserts(c, op) && Meaning(op).End() <= size <= Pow2(c.w.addressBits)
  }

  ghost predicate CallOk(c: Cfg, call: Call, size: nat) {
    CallAsserts(c, call) && call.End() <= size <= Pow2(c.w.addressBits)
  }

  ghost predicate InRange(ops: seq<Op>, size: nat) {
    forall i :: 0 <= i < |ops| ==> Meaning(ops[i]).End() <= size
  }

  function MemAfter(mem: seq<byte>, ops: seq<Op>): (r: seq<byte>)
    requires InRange(ops, |mem|)
    ensures |r| == |mem|
  {
    if ops == [] then mem
    else After(MemAfter(mem, ops[..|ops| - 1]), Meaning(ops[|ops| - 1]))
  }

  function Answers(mem: seq<byte>, ops: seq<Op>): (r: seq<seq<byte>>)
    requires InRange(ops, |mem|)
    ensures |r| == |ops|
  {
    if ops == [] then []
    else
      var before := ops[..|ops| - 1];
      Answers(mem, before) + [Answer(MemAfter(mem, before), Meaning(ops[|ops| - 1]))]
  }
}
