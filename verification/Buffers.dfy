/** The byte buffer under the codec: a growing byte slice with a read index. */
module Buffers {
  import opened Words

  // ---- byte-wise big-endian ----------------------------------------------------------

  lemma {:induction false} FromBeSnoc(s: bytes, x: byte)
    ensures FromBe(s + [x]) == FromBe(s) * 256 + x
  {
    assert (s + [x])[..|s|] == s;
  }

  lemma {:induction false} Be1(n: nat)
    requires n < 0x100
    ensures n < Pow256(1) && Be(n, 1) == [n]
  {
    Pow256Small();
    FromBeSnoc([], n);
    assert [] + [n] == [n];
    BeUnique(Be(n, 1), [n]);
  }

  /** The low byte of n follows the bytes of n / 256. */
  lemma {:induction false} BeSnoc(n: nat, w: nat)
    requires n < Pow256(w + 1)
    ensures n / 256 < Pow256(w) && Be(n, w + 1) == Be(n / 256, w) + [n % 256]
  {
    FromBeSnoc(Be(n / 256, w), n % 256);
    BeUnique(Be(n, w + 1), Be(n / 256, w) + [n % 256]);
  }

  lemma {:induction false} Be2(n: uint16)
    ensures n < Pow256(2) && Be(n, 2) == [n / 0x100, n % 0x100]
  {
    Pow256Values();
    BeSnoc(n, 1);
    Be1(n / 0x100);
  }

  lemma {:induction false} Be4(n: uint32)
    ensures n < Pow256(4)
    ensures Be(n, 4) == [n / 0x100_0000, n / 0x1_0000 % 0x100, n / 0x100 % 0x100, n % 0x100]
  {
    Pow256Small();
    BeSnoc(n, 3);
    BeSnoc(n / 0x100, 2);
    assert n / 0x100 / 0x100 == n / 0x1_0000;
    Be2(n / 0x1_0000);
  }

  lemma {:induction false} FromBeSnoc4(p: bytes, a: byte, b: byte, c: byte, d: byte)
    ensures FromBe(p + [a, b, c, d]) == FromBe(p) * MOD32 + a * 0x100_0000 + b * 0x1_0000 + c * 0x100 + d
  {
    FromBeSnoc(p, a);
    FromBeSnoc(p + [a], b);
    FromBeSnoc(p + [a] + [b], c);
    FromBeSnoc(p + [a] + [b] + [c], d);
    hide FromBe;
    assert p + [a] + [b] + [c] + [d] == p + [a, b, c, d];
  }

  lemma {:induction false} FromBeJoin4(p: bytes, q: bytes)
    requires |q| == 4
    ensures FromBe(p + q) == FromBe(p) * MOD32 + FromBe(q)
  {
    assert q == [q[0], q[1], q[2], q[3]] == [] + q;
    FromBeSnoc4(p, q[0], q[1], q[2], q[3]);
    FromBeSnoc4([], q[0], q[1], q[2], q[3]);
  }

  lemma {:induction false} Be8(n: uint64)
    ensures n < Pow256(8)
    ensures n / MOD32 < Pow256(4) && n % MOD32 < Pow256(4)
    ensures Be(n, 8) == Be(n / MOD32, 4) + Be(n % MOD32, 4)
  {
    Pow256Values();
    hide FromBe;
    var p, q := Be(n / MOD32, 4), Be(n % MOD32, 4);
    FromBeJoin4(p, q);
    BeUnique(Be(n, 8), p + q);
  }

  // ---- the network -------------------------------------------------------------------

  function Concat(cs: seq<bytes>): (s: bytes) {
    if cs == [] then [] else cs[0] + Concat(cs[1..])
  }

  /** A connection as the reads it will answer; a read takes at most the space offered. */
  class Net {
    var pending: seq<bytes>

    constructor (pending: seq<bytes>)
      ensures this.pending == pending
    {
      this.pending := pending;
    }

    function Measure(): (n: nat)
      reads this
    {
      |Concat(pending)| + |pending|
    }

    /** At the end of the reads the peer has closed: an error. */
    method Read(space: nat) returns (data: bytes, ok: bool)
      requires space > 0
      modifies this
      ensures ok == (old(pending) != []) && |data| <= space
      ensures Concat(old(pending)) == data + Concat(pending)
      ensures ok ==> Measure() < old(Measure())
      ensures !ok ==> data == [] && pending == old(pending)
    {
      if pending == [] { return [], false; }
      var c, rest := pending[0], pending[1..];
      if |c| <= space {
        data, ok, pending := c, true, rest;
      } else {
        data, ok, pending := c[..space], true, [c[space..]] + rest;
        assert c == data + c[space..];
        assert pending[1..] == rest;
        assert data + (c[space..] + Concat(rest)) == c + Concat(rest);
      }
    }
  }

  // ---- the buffer --------------------------------------------------------------------

  const MIN_READ: nat := 512

  class Buffer {
    var b: bytes   // the slice
    var i: nat     // bytes already read
    var cap: nat   // capacity of the slice

    constructor (s: bytes)
      ensures Valid() && b == s && i == 0
    {
      b, i, cap := s, 0, |s|;
    }

    ghost predicate Valid()
      reads this
    {
      i <= |b| <= cap
    }

    /** The unread portion, Go's Bytes(). */
    function Unread(): (s: bytes)
      requires Valid()
      reads this
    {
      b[i..]
    }

    function Len(): (n: nat)
      requires Valid()
      reads this
      ensures n == |Unread()|
    {
      |b| - i
    }

    method Next(n: nat) returns (s: bytes, ok: bool)
      requires Valid()
      modifies this`i
      ensures Valid() && ok == (n <= old(Len()))
      ensures old(Unread()) == s + Unread()
      ensures if ok then |s| == n else Unread() == []
    {
      if i + n > |b| {
        s, ok, i := b[i..], false, |b|;
      } else {
        s, ok, i := b[i..i + n], true, i + n;
      }
    }

    /** Skip does not check: past the end the buffer can be read no more. */
    method Skip(n: nat)
      requires Valid()
      modifies this`i
      ensures i == old(i) + n && (Valid() <==> n <= old(Len()))
      ensures Valid() ==> Unread() == old(Unread())[n..]
    {
      i := i + n;
    }

    method Reset()
      requires Valid()
      modifies this
      ensures Valid() && Unread() == [] && i == 0 && cap == old(cap)
    {
      b, i := [], 0;
    }

    method Reclaim()
      requires Valid()
      modifies this
      ensures Valid() && Unread() == old(Unread()) && i == 0 && cap == old(cap)
    {
      b, i := b[i..], 0;
    }

    /** One read from the network into the free capacity, grown first when it is small. */
    method ReadFromOnce(r: Net) returns (ok: bool)
      requires Valid()
      modifies this, r
      ensures Valid() && i == old(i)
      ensures ok == (old(r.pending) != [])
      ensures Unread() + Concat(r.pending) == old(Unread() + Concat(r.pending))
      ensures if ok then r.Measure() < old(r.Measure()) else r.pending == []
    {
      var l := |b|;
      if cap - l < MIN_READ {
        cap := if l == 0 then MIN_READ else 2 * l;
      }
      var data;
      data, ok := r.Read(cap - l);
      b := b + data;
      assert Unread() == old(Unread()) + data;
    }

    method Append(p: bytes)
      requires Valid()
      modifies this`b, this`cap
      ensures Valid() && b == old(b) + p
    {
      b := b + p;
      if cap < |b| { cap := |b|; }
    }

    method AppendUint16(n: uint16)
      requires Valid()
      modifies this`b, this`cap
      ensures Valid() && n < Pow256(2) && b == old(b) + Be(n, 2)
    {
      Be2(n);
      Append([n / 0x100, n % 0x100]);
    }

    method AppendUint32(n: uint32)
      requires Valid()
      modifies this`b, this`cap
      ensures Valid() && n < Pow256(4) && b == old(b) + Be(n, 4)
    {
      Be4(n);
      Append([n / 0x100_0000, n / 0x1_0000 % 0x100, n / 0x100 % 0x100, n % 0x100]);
    }

    method AppendUint64(n: uint64)
      requires Valid()
      modifies this`b, this`cap
      ensures Valid() && n < Pow256(8) && b == old(b) + Be(n, 8)
    {
      Be8(n);
      AppendUint32(n / MOD32);
      AppendUint32(n % MOD32);
    }

    /** binary.BigEndian.PutUint32 into the unread bytes, at position at. */
    method PutUint32(at: nat, n: uint32)
      requires Valid() && at + 4 <= Len()
      modifies this`b
      ensures Valid() && n < Pow256(4)
      ensures b == old(b[..i + at]) + Be(n, 4) + old(b[i + at + 4..])
    {
      Be4(n);
      var p := i + at;
      b := b[p := n / 0x100_0000][p + 1 := n / 0x1_0000 % 0x100][p + 2 := n / 0x100 % 0x100][p + 3 := n % 0x100];
    }
  }
}
