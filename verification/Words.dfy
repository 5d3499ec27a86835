/** Fixed-width unsigned numbers, their wrap-around arithmetic, and big-endian byte strings. */
module Words {

  type byte = x: int | 0 <= x < 0x100
  type uint16 = x: int | 0 <= x < 0x1_0000
  type uint32 = x: int | 0 <= x < 0x1_0000_0000
  type uint64 = x: int | 0 <= x < 0x1_0000_0000_0000_0000
  type bytes = seq<byte>

  const MOD32: int := 0x1_0000_0000

  datatype Option<+T> = None | Some(value: T)

  /** Go's `a + b` on uint32. */
  function Add32(a: uint32, b: uint32): (r: uint32) {
    (a + b) % MOD32
  }

  /** Go's `a - b` on uint32. */
  function Sub32(a: uint32, b: uint32): (r: uint32) {
    (a - b) % MOD32
  }

  /** The uint32 holding an unbounded counter. */
  function Wrap(n: int): (r: uint32) {
    n % MOD32
  }

  lemma {:induction false} WrapAdd(a: int, b: int)
    ensures Wrap(a + b) == Add32(Wrap(a), Wrap(b))
    ensures Wrap(a - b) == Sub32(Wrap(a), Wrap(b))
  {
    var qa, qb := a / MOD32, b / MOD32;
    assert a == qa * MOD32 + Wrap(a) && b == qb * MOD32 + Wrap(b);
    ModUnique(a + b, Add32(Wrap(a), Wrap(b)), qa + qb + (Wrap(a) + Wrap(b)) / MOD32);
    ModUnique(a - b, Sub32(Wrap(a), Wrap(b)), qa - qb + (Wrap(a) - Wrap(b)) / MOD32);
  }

  /** No wrap-around within range. */
  lemma {:induction false} NoWrap(a: uint32, b: uint32)
    ensures Wrap(a) == a && Wrap(b) == b
    ensures a >= b ==> Sub32(a, b) == a - b
    ensures a + b < MOD32 ==> Add32(a, b) == a + b
  {
  }

  lemma {:induction false} ModUnique(n: int, r: int, q: int)
    requires n == q * MOD32 + r && 0 <= r < MOD32
    ensures n % MOD32 == r
  {
  }

  // ---- big-endian byte strings -------------------------------------------------------

  /** 256 to the power w: how many numbers fit in w bytes. */
  function Pow256(w: nat): (r: nat)
    ensures r >= 1
  {
    if w == 0 then 1 else 256 * Pow256(w - 1)
  }

  lemma {:induction false} Pow256Values()
    ensures Pow256(0) == 1 && Pow256(1) == 0x100 && Pow256(2) == 0x1_0000 && Pow256(4) == MOD32
    ensures Pow256(8) == 0x1_0000_0000_0000_0000
    ensures Pow256(16) == 0x1_0000_0000_0000_0000_0000_0000_0000_0000
  {
    assert Pow256(3) == 0x100_0000;
    assert Pow256(6) == 0x1_0000_0000_0000;
    assert Pow256(10) == 0x1_0000_0000_0000_0000_0000;
    assert Pow256(12) == 0x1_0000_0000_0000_0000_0000_0000;
    assert Pow256(14) == 0x1_0000_0000_0000_0000_0000_0000_0000;
  }

  lemma {:induction false} Pow256Small()
    ensures Pow256(1) == 0x100 && Pow256(4) == MOD32
  {
    assert Pow256(3) == 0x100_0000;
  }

  /** The number a big-endian byte string spells. */
  function FromBe(s: bytes): (n: nat)
    ensures n < Pow256(|s|)
  {
    if s == [] then 0 else FromBe(s[..|s| - 1]) * 256 + s[|s| - 1]
  }

  ghost predicate Spells(s: bytes, w: nat, n: nat) {
    |s| == w && FromBe(s) == n
  }

  lemma {:induction false} BeExists(n: nat, w: nat)
    requires n < Pow256(w)
    ensures exists s: bytes :: Spells(s, w, n)
  {
    if w == 0 {
      assert Spells([], w, n);
    } else {
      BeExists(n / 256, w - 1);
      var t: bytes :| Spells(t, w - 1, n / 256);
      var s := t + [n % 256];
      assert s[..w - 1] == t;
      assert Spells(s, w, n);
    }
  }

  /** The w bytes, most significant first, that spell n. */
  ghost function Be(n: nat, w: nat): (s: bytes)
    requires n < Pow256(w)
    ensures Spells(s, w, n)
  {
    BeExists(n, w);
    var s: bytes :| Spells(s, w, n); s
  }

  lemma {:induction false} BeUnique(s: bytes, t: bytes)
    requires |s| == |t| && FromBe(s) == FromBe(t)
    ensures s == t
  {
    if s != [] {
      BeUnique(s[..|s| - 1], t[..|t| - 1]);
      assert s == s[..|s| - 1] + [s[|s| - 1]];
      assert t == t[..|t| - 1] + [t[|t| - 1]];
    }
  }

  /** Go's uint32 conversion of a length. */
  function Low32(n: nat): (r: uint32)
    ensures r <= n && (n < MOD32 ==> r == n)
  {
    n % MOD32
  }

  // ---- byte strings inside byte strings ----------------------------------------------

  /** The byte string p stands in bs at position i. */
  ghost predicate At(bs: bytes, i: nat, p: bytes) {
    i + |p| <= |bs| && bs[i..i + |p|] == p
  }

  lemma {:induction false} AtSplit(bs: bytes, i: nat, p: bytes, q: bytes)
    requires At(bs, i, p + q)
    ensures At(bs, i, p) && At(bs, i + |p|, q)
  {
    var s := bs[i..i + |p + q|];
    assert bs[i..i + |p|] == s[..|p|] == p;
    assert bs[i + |p|..i + |p| + |q|] == s[|p|..] == q;
  }

  lemma {:induction false} AtHead(bs: bytes, i: nat, p: bytes)
    requires At(bs, i, p) && |p| > 0
    ensures bs[i] == p[0]
  {
    assert bs[i] == bs[i..i + |p|][0];
  }
}
