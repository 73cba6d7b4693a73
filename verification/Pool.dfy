/** Pooled byte buffers and the payload copy. */
module Pool {
  import opened Domain

  const MAX_POOLED_BUFFER_CAP := 1_048_576

  /** A growable buffer; its capacity is the length of the array behind it. */
  class Buffer {
    var data: array<byte>
    var len: nat

    ghost predicate Valid()
      reads this
    {
      len <= data.Length
    }

    ghost function Contents(): Bytes
      requires Valid()
      reads this, data
    {
      data[..len]
    }

    constructor ()
      ensures Valid() && len == 0 && data.Length == 0 && fresh(data)
    {
      data := new byte[0];
      len := 0;
    }

    method Reset()
      requires Valid()
      modifies this
      ensures Valid() && len == 0 && data == old(data)
    {
      len := 0;
    }

    /** Makes room for n more bytes. */
    method Grow(n: nat)
      requires Valid()
      modifies this
      ensures Valid() && len == old(len) && data.Length >= len + n
      ensures Contents() == old(Contents())
      ensures data == old(data) || fresh(data)
    {
      if data.Length < len + n {
        var grown := new byte[2 * data.Length + n];
        forall i | 0 <= i < len {
          grown[i] := data[i];
        }
        data := grown;
      }
    }

    method Write(p: array<byte>)
      requires Valid() && p != data
      modifies this, data
      ensures Valid() && Contents() == old(Contents()) + p[..]
      ensures data == old(data) || fresh(data)
      ensures p[..] == old(p[..]) && data.Length >= len
    {
      ghost var before := Contents();
      Grow(p.Length);
      forall i | 0 <= i < p.Length {
        data[len + i] := p[i];
      }
      assert data[..len] == before;
      forall i | 0 <= i < p.Length ensures data[len + i] == p[i] {
      }
      assert data[len..len + p.Length] == p[..];
      len := len + p.Length;
    }

    /** Reset, write, and a fresh array with the buffered bytes. */
    method CopyThrough(raw: array<byte>) returns (out: array<byte>)
      requires Valid() && raw != data
      modifies this, data
      ensures Valid() && (data == old(data) || fresh(data))
      ensures fresh(out) && out != data
      ensures out[..] == raw[..] == old(raw[..]) && data.Length >= raw.Length
    {
      Reset();
      Write(raw);
      out := new byte[len];
      forall i | 0 <= i < len {
        out[i] := data[i];
      }
      assert out[..] == Contents();
    }
  }

  class BufferPool {
    var free: seq<Buffer>
    ghost var Repr: set<object>

    /** Every pooled buffer is empty, at most 1 MiB, and shares nothing. */
    ghost predicate Valid()
      reads this, Repr
      ensures Valid() ==> this in Repr
    {
      && this in Repr
      && (forall b :: b in free ==> b in Repr && b.data in Repr && b.len == 0 && b.data.Length <= MAX_POOLED_BUFFER_CAP)
      && (forall i, j :: 0 <= i < j < |free| ==> free[i] != free[j] && free[i].data != free[j].data)
    }

    constructor ()
      ensures Valid() && fresh(Repr) && free == []
    {
      free := [];
      Repr := {this};
    }

    /** The pool hands out any pooled buffer, or a new one; `pick` decides. From
        then on the caller owns it. */
    method Get(pick: nat) returns (b: Buffer)
      requires Valid()
      modifies this
      ensures Valid() && b.Valid() && b.len == 0
      ensures b !in Repr && b.data !in Repr
      ensures b in old(Repr) || fresh(b)
      ensures b.data in old(Repr) || fresh(b.data)
      ensures Repr <= old(Repr)
      ensures pick < |old(free)| ==> b == old(free)[pick] && free == old(free)[..pick] + old(free)[pick + 1..]
      ensures pick >= |old(free)| ==> fresh(b) && free == old(free)
    {
      if pick < |free| {
        b := free[pick];
        free := free[..pick] + free[pick + 1..];
        Repr := Repr - {b, b.data};
      } else {
        b := new Buffer();
      }
    }

    method Put(b: Buffer?)
      requires Valid()
      requires b != null ==> b.Valid() && b !in Repr && b.data !in Repr
      modifies this, b
      ensures Valid()
      ensures b == null ==> free == old(free) && Repr == old(Repr)
      ensures b != null ==>
                && b.data == old(b.data) && b.len == 0 && Repr <= old(Repr) + {b, b.data}
                && free == if b.data.Length > 1024 * 1024 then old(free) else old(free) + [b]
    {
      if b == null {
        return;
      }
      b.Reset();
      if b.data.Length > MAX_POOLED_BUFFER_CAP {
        return;
      }
      free := free + [b];
      Repr := Repr + {b, b.data};
    }

    /** The copy is new memory: it holds the caller's bytes and shares nothing
        with the caller, with the pool or with any buffer. The buffer it went
        through is back in the pool, unless it has grown too large. */
    method CopyPayload(raw: array<byte>, pick: nat) returns (out: array<byte>, ghost used: Buffer)
      requires Valid() && raw !in Repr
      modifies Repr
      ensures Valid() && fresh(Repr - old(Repr))
      ensures fresh(out) && out !in Repr
      ensures out[..] == old(raw[..])
      ensures used.Valid() && used.data.Length >= raw.Length
      ensures if pick < |old(free)| then used == old(free)[pick] else fresh(used)
      ensures free == (if pick < |old(free)| then old(free)[..pick] + old(free)[pick + 1..] else old(free))
                      + if used.data.Length > 1024 * 1024 then [] else [used]
    {
      var buf := Get(pick);
      out := buf.CopyThrough(raw);
      assert Valid();
      Put(buf);
      used := buf;
    }
  }
}
