/** The growable, bounded buffer every encoder writes into. */
module WireBuffer {
  import opened Bytes

  class Buffer {
    var data: seq<byte>
    var capacity: nat
    const maximum: nat

    /** The first allocation is 64 bytes even under a smaller maximum, so that is the bound on capacity. */
    ghost predicate Valid()
      reads this
    {
      && |data| <= capacity
      && |data| <= maximum
      && capacity <= if maximum < 64 then 64 else maximum
    }

    constructor (maximum: nat)
      ensures Valid() && data == [] && this.maximum == maximum
    {
      this.maximum := maximum;
      data, capacity := [], 0;
    }

    method Reserve(extra: nat) returns (ok: bool)
      requires Valid()
      modifies this`capacity
      ensures Valid()
      ensures ok <==> |data| + extra <= maximum
      ensures ok ==> |data| + extra <= capacity
      ensures old(capacity) <= capacity && (!ok ==> capacity == old(capacity))
    {
      if extra > maximum || |data| > maximum - extra {
        return false;
      }
      var needed := |data| + extra;
      if needed <= capacity {
        return true;
      }
      var grown := if capacity == 0 then 64 else capacity;
      while grown < needed
        invariant capacity <= grown && 0 < grown
        invariant grown <= if maximum < 64 then 64 else maximum
      {
        if grown > maximum / 2 {
          grown := maximum;
          break;
        }
        grown := grown * 2;
      }
      capacity := grown;
      ok := true;
    }

    /** All of the bytes or none of them: a refused append leaves the contents alone. */
    method Append(bytes: seq<byte>) returns (ok: bool)
      requires Valid()
      modifies this`data, this`capacity
      ensures Valid()
      ensures ok <==> |old(data)| + |bytes| <= maximum
      ensures data == if ok then old(data) + bytes else old(data)
    {
      ok := Reserve(|bytes|);
      if ok {
        data := data + bytes;
      }
    }
  }
}
