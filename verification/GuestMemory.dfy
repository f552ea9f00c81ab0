/** Guest memory as the emulator's block reads and writes see it: an access to memory
    that is not wholly mapped fails and changes nothing. */
module GuestMemory {
  import opened Bits

  type Memory = map<nat, byte>

  predicate Mapped(m: Memory, at: nat, n: nat) {
    forall a: nat :: at <= a < at + n ==> a in m
  }

  function Written(m: Memory, at: nat, bytes: seq<byte>): (r: Memory)
    ensures r.Keys == m.Keys
  {
    map a <- m :: if at <= a < at + |bytes| then bytes[a - at] else m[a]
  }

  function BytesAt(m: Memory, at: nat, n: nat): (b: seq<byte>)
    requires Mapped(m, at, n)
    ensures |b| == n
  {
    seq(n, i requires 0 <= i < n => m[at + i])
  }

  class AddressSpace {
    var mem: Memory

    constructor (mem: Memory)
      ensures this.mem == mem
    {
      this.mem := mem;
    }

    method MemWrite(at: nat, bytes: seq<byte>) returns (ok: bool)
      modifies this
      ensures ok <==> Mapped(old(mem), at, |bytes|)
      ensures mem == if ok then Written(old(mem), at, bytes) else old(mem)
    {
      ok := Mapped(mem, at, |bytes|);
      if ok {
        mem := Written(mem, at, bytes);
      }
    }

    method MemRead(at: nat, n: nat) returns (bytes: Option<seq<byte>>)
      ensures bytes == if Mapped(mem, at, n) then Some(BytesAt(mem, at, n)) else None
    {
      bytes := if Mapped(mem, at, n) then Some(BytesAt(mem, at, n)) else None;
    }
  }
}
