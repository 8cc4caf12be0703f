/** Output buffers that keep only the newest bytes: the SSH session's and the shell tool's. */
module TailBuffers {

  type Bytes = seq<bv8>

  /** The last `max` bytes of `s`, or all of it. */
  function Tail(s: Bytes, max: nat): Bytes {
    if |s| <= max then s else s[|s| - max..]
  }

  /** The tail is the end of `s`, as long as the buffer allows. */
  lemma {:induction false} TailIsEnd(s: Bytes, max: nat)
    ensures var t := Tail(s, max);
      && |t| == (if |s| < max then |s| else max)
      && forall i | 0 <= i < |t| :: t[i] == s[|s| - |t| + i]
  {
  }

  /** Cutting before appending loses nothing that the final cut would keep. */
  lemma {:induction false} TailAppend(s: Bytes, p: Bytes, max: nat)
    ensures Tail(Tail(s, max) + p, max) == Tail(s + p, max)
  {
    if |s| > max {
      assert s + p == s[..|s| - max] + (Tail(s, max) + p);
    }
  }

  function Concat(chunks: seq<Bytes>): Bytes {
    if chunks == [] then [] else Concat(chunks[..|chunks| - 1]) + chunks[|chunks| - 1]
  }

  /** The three-way cut both buffers make: what is left of the buffer, and what is left of the chunk. */
  function CutBuffer(buffer: Bytes, p: Bytes, max: nat): Bytes {
    var total := |buffer| + |p|;
    if total <= max then buffer
    else if total - max < |buffer| then buffer[total - max..]
    else []
  }

  function CutChunk(p: Bytes, max: nat): Bytes {
    if |p| <= max then p else p[|p| - max..]
  }

  lemma {:induction false} CutsMakeTail(buffer: Bytes, p: Bytes, max: nat)
    requires |buffer| <= max
    ensures CutBuffer(buffer, p, max) + CutChunk(p, max) == Tail(buffer + p, max)
  {
    var all := buffer + p;
    var cut := |all| - max;
    if cut > 0 {
      if cut < |buffer| {
        DropFromFirst(buffer, p, cut);
      } else {
        DropFromBoth(buffer, p, cut);
      }
    }
  }

  lemma {:induction false} DropFromFirst(a: Bytes, b: Bytes, k: nat)
    requires k <= |a|
    ensures (a + b)[k..] == a[k..] + b
  {
  }

  lemma {:induction false} DropFromBoth(a: Bytes, b: Bytes, k: nat)
    requires |a| <= k <= |a| + |b|
    ensures (a + b)[k..] == [] + b[k - |a|..]
  {
  }

  const SSH_BUFFER_MAX: nat := 16 * 1024

  class SSHRingBuffer {
    var buffer: Bytes
    const max: nat
    ghost var written: Bytes   // everything written since the last Clear

    ghost predicate Valid()
      reads this
    {
      max > 0 && buffer == Tail(written, max)
    }

    constructor (maxSize: int)
      ensures Valid() && written == [] && max == (if maxSize <= 0 then SSH_BUFFER_MAX else maxSize)
    {
      max := if maxSize <= 0 then SSH_BUFFER_MAX else maxSize;
      buffer, written := [], [];
    }

    method Write(chunk: Bytes) returns (n: nat)
      requires Valid()
      modifies this
      ensures Valid() && written == old(written) + chunk
      ensures n == if |chunk| <= max then |chunk| else max
    {
      if |chunk| == 0 {
        written := written + chunk;
        return 0;
      }
      TailAppend(written, chunk, max);
      CutsMakeTail(buffer, chunk, max);
      var p := chunk;
      if |buffer| + |p| > max {
        var overflow := |buffer| + |p| - max;
        if overflow < |buffer| {
          buffer := buffer[overflow..];
        } else {
          buffer := [];
          if |p| > max {
            p := p[|p| - max..];
          }
        }
      }
      buffer := buffer + p;
      n := |p|;
      written := written + chunk;
    }

    method ReadAll() returns (s: Bytes)
      requires Valid()
      ensures s == Tail(written, max)
    {
      s := buffer;
    }

    method Clear()
      requires Valid()
      modifies this
      ensures Valid() && written == []
    {
      buffer, written := [], [];
    }

    /** Any sequence of writes leaves the last bytes of their concatenation. */
    method WriteAll(chunks: seq<Bytes>)
      requires Valid()
      modifies this
      ensures Valid() && buffer == Tail(old(written) + Concat(chunks), max)
    {
      for i := 0 to |chunks|
        invariant Valid() && written == old(written) + Concat(chunks[..i])
      {
        var _ := Write(chunks[i]);
        assert chunks[..i + 1][..i] == chunks[..i];
      }
      assert chunks[..|chunks|] == chunks;
    }
  }

  class ShellRingBuffer {
    var buffer: Bytes
    const max: nat
    var truncated: bool
    ghost var written: Bytes

    ghost predicate Valid()
      reads this
    {
      buffer == Tail(written, max) && (truncated <==> |written| > max)
    }

    constructor (max: nat)
      ensures Valid() && written == [] && this.max == max
    {
      this.max := max;
      buffer, written, truncated := [], [], false;
    }

    method Write(chunk: Bytes) returns (n: nat)
      requires Valid()
      modifies this
      ensures Valid() && written == old(written) + chunk
      ensures n == if |chunk| <= max then |chunk| else max
    {
      TailAppend(written, chunk, max);
      CutsMakeTail(buffer, chunk, max);
      var p := chunk;
      if |buffer| + |p| > max {
        truncated := true;
        var overflow := |buffer| + |p| - max;
        if overflow < |buffer| {
          buffer := buffer[overflow..];
        } else {
          buffer := [];
          p := p[|p| - max..];
        }
      }
      buffer := buffer + p;
      n := |p|;
      written := written + chunk;
    }
  }
}
