/** Array and BitConverter idioms of the C# client, on a little-endian machine. */
module DotNet {
  import opened Bytes

  /** Array.Copy into dst, which throws unless both ranges are inside their arrays. */
  method Copy(src: bytes, from: nat, dst: array<byte>, to: nat, n: nat)
    requires from + n <= |src| && to + n <= dst.Length
    modifies dst
    ensures dst[..] == old(dst[..to]) + src[from..from + n] + old(dst[to + n..])
  {
    for i := 0 to n
      invariant dst[..to] == old(dst[..to]) && dst[to + n..] == old(dst[to + n..])
      invariant dst[to..to + i] == src[from..from + i]
    {
      dst[to + i] := src[from + i];
    }
  }

  /** Copies all of src to offset, the part before it already filled. */
  method Fill(src: bytes, dst: array<byte>, offset: nat) returns (next: nat)
    requires offset + |src| <= dst.Length
    modifies dst
    ensures next == offset + |src| && dst[..next] == old(dst[..offset]) + src
  {
    Copy(src, 0, dst, offset, |src|);
    next := offset + |src|;
  }

  /** A new array holding n octets of src. */
  method CopyOut(src: bytes, from: nat, n: nat) returns (part: array<byte>)
    requires from + n <= |src|
    ensures fresh(part) && part[..] == src[from..from + n]
  {
    part := new byte[n];
    Copy(src, from, part, 0, n);
  }

  lemma Regrouped(start: bytes, a: bytes, b: bytes, c: bytes, d: bytes)
    ensures start + a + b + c + d == start + (a + b + c + d)
  {
  }

  function Reversed(s: bytes): (r: bytes)
    ensures |r| == |s|
  {
    if s == [] then [] else Reversed(s[1..]) + [s[0]]
  }

  /** BitConverter.GetBytes followed by Array.Reverse. */
  lemma {:induction false} ReversedLittleEndian(n: nat, v: nat)
    ensures Reversed(LittleEndian(n, v)) == BigEndian(n, v)
  {
    if n > 0 {
      ReversedLittleEndian(n - 1, v / 256);
      assert LittleEndian(n, v)[1..] == LittleEndian(n - 1, v / 256);
    }
  }

  lemma {:induction false} ReversedPrepends(s: bytes)
    requires s != []
    ensures Reversed(s) == [s[|s| - 1]] + Reversed(s[..|s| - 1])
  {
    if |s| > 1 {
      ReversedPrepends(s[1..]);
      assert s[1..][..|s| - 2] == s[..|s| - 1][1..];
    }
  }

  /** Array.Reverse followed by BitConverter.ToUInt. */
  lemma {:induction false} FromReversed(b: bytes)
    ensures FromLittleEndian(Reversed(b)) == FromBigEndian(b)
  {
    if b != [] {
      ReversedPrepends(b);
      FromReversed(b[..|b| - 1]);
      assert Reversed(b)[1..] == Reversed(b[..|b| - 1]);
    }
  }
}
