/** The list of buffers behind request bodies: a chunked queue that must behave like one flat byte sequence. */
module BufList {
  import opened ByteCopy

  function Flat(bufs: seq<Bytes>): Bytes {
    if bufs == [] then [] else bufs[0] + Flat(bufs[1..])
  }

  predicate NoneEmpty(bufs: seq<Bytes>) {
    forall i :: 0 <= i < |bufs| ==> bufs[i] != []
  }

  lemma {:induction false} FlatAppend(a: seq<Bytes>, b: seq<Bytes>)
    ensures Flat(a + b) == Flat(a) + Flat(b)
  {
    if a == [] {
      assert a + b == b;
    } else {
      assert (a + b)[1..] == a[1..] + b && Flat(a + b) == a[0] + Flat(a[1..] + b);
      assert Flat(a) == a[0] + Flat(a[1..]);
      hide *;
      FlatAppend(a[1..], b);
      Assoc(a[0], Flat(a[1..]), Flat(b));
    }
  }

  lemma FlatLast(bufs: seq<Bytes>)
    requires bufs != []
    ensures Flat(bufs) == Flat(bufs[..|bufs| - 1]) + bufs[|bufs| - 1]
  {
    var last := [bufs[|bufs| - 1]];
    FlatAppend(bufs[..|bufs| - 1], last);
    assert bufs == bufs[..|bufs| - 1] + last && last[1..] == [];
  }

  /** Dropping bytes of the front chunk drops them from the contents. */
  lemma AdvanceFront(bufs: seq<Bytes>, n: nat)
    requires bufs != [] && n <= |bufs[0]|
    ensures n <= |Flat(bufs)| && Flat(bufs)[..n] == bufs[0][..n]
    ensures Flat(bufs[0 := bufs[0][n..]]) == Flat(bufs)[n..]
    ensures n == |bufs[0]| ==> Flat(bufs[1..]) == Flat(bufs)[n..] && bufs[0][..n] == bufs[0]
  {}

  lemma NotEmpty(bufs: seq<Bytes>)
    requires Flat(bufs) != []
    ensures bufs != []
  {}

  lemma DropTwice(s: Bytes, m: nat, n: nat)
    requires m + n <= |s|
    ensures s[m..][n..] == s[m + n..] && s[..m] + s[m..][..n] == s[..m + n]
  {}

  class BufList {
    var bufs: seq<Bytes>

    ghost function Contents(): Bytes
      reads this
    {
      Flat(bufs)
    }

    ghost predicate Valid()
      reads this
    {
      NoneEmpty(bufs)
    }

    constructor ()
      ensures Valid() && Contents() == []
    {
      bufs := [];
    }

    method Push(buf: Bytes)
      requires Valid() && buf != []
      modifies this
      ensures Valid() && Contents() == old(Contents()) + buf
    {
      FlatAppend(bufs, [buf]);
      assert [buf][1..] == [];
      bufs := bufs + [buf];
    }

    method Remaining() returns (n: nat)
      ensures n == |Contents()|
    {
      n := 0;
      for i := 0 to |bufs|
        invariant n == |Flat(bufs[..i])|
      {
        n := n + |bufs[i]|;
        FlatLast(bufs[..i + 1]);
        assert bufs[..i + 1][..i] == bufs[..i];
      }
      assert bufs[..|bufs|] == bufs;
    }

    /** The front chunk: with no empty chunks it is empty only if everything is. */
    method FrontChunk() returns (c: Bytes)
      requires Valid()
      ensures c <= Contents() && (c == [] <==> Contents() == []) && (bufs != [] ==> c == bufs[0])
    {
      c := if bufs == [] then [] else bufs[0];
    }

    /** At most `size` slices of the contents, from the front: all of it if they do not fill the destination. */
    method ChunksVectored(size: nat) returns (slices: seq<Bytes>)
      requires Valid()
      ensures |slices| <= size && Flat(slices) <= Contents()
      ensures |slices| < size ==> Flat(slices) == Contents()
      ensures slices <= bufs
      ensures NoneEmpty(slices)
    {
      slices := [];
      if size == 0 {
        return;
      }
      var i := 0;
      while i < |bufs| && |slices| < size
        invariant 0 <= i <= |bufs| && slices == bufs[..i] && |slices| <= size
      {
        slices := slices + [bufs[i]];
        i := i + 1;
      }
      FlatAppend(bufs[..i], bufs[i..]);
      assert bufs == bufs[..i] + bufs[i..];
    }

    /** Drops the first `count` bytes, whatever the chunk boundaries. */
    method Advance(count: nat)
      requires Valid() && count <= |Contents()|
      modifies this
      ensures Valid() && Contents() == old(Contents())[count..]
    {
      hide Flat;
      var cnt := count;
      while cnt > 0
        invariant Valid() && 0 <= cnt <= count && cnt <= |Contents()|
        invariant Contents() == old(Contents())[count - cnt..]
        decreases cnt
      {
        NotEmpty(bufs);
        var rem := |bufs[0]|;
        if rem > cnt {
          AdvanceFront(bufs, cnt);
          DropTwice(old(Contents()), count - cnt, cnt);
          bufs := bufs[0 := bufs[0][cnt..]];
          return;
        }
        AdvanceFront(bufs, rem);
        DropTwice(old(Contents()), count - cnt, rem);
        cnt := cnt - rem;
        bufs := bufs[1..];
      }
    }

    /** Every branch returns the first `len` bytes and leaves the rest. The last one copies chunk by chunk; it makes
        progress because no chunk is empty. */
    method CopyToBytes(len: nat) returns (b: Bytes)
      requires Valid() && len <= |Contents()|
      modifies this
      ensures Valid() && b == old(Contents())[..len] && Contents() == old(Contents())[len..]
    {
      hide Flat;
      if bufs != [] && |bufs[0]| == len {
        b := bufs[0];
        AdvanceFront(bufs, len);
        bufs := bufs[1..];
      } else if bufs != [] && |bufs[0]| > len {
        b := bufs[0][..len];
        AdvanceFront(bufs, len);
        bufs := bufs[0 := bufs[0][len..]];
      } else {
        b := [];
        while |b| < len
          invariant Valid() && |b| <= len && b == old(Contents())[..|b|] && Contents() == old(Contents())[|b|..]
        {
          var chunk := FrontChunk();
          var take := if |chunk| <= len - |b| then |chunk| else len - |b|;
          DropTwice(old(Contents()), |b|, take);
          b := b + chunk[..take];
          Advance(take);
        }
      }
    }
  }
}
