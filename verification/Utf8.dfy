/** UTF-8 by the characters it spells, as in table 3-6 of the Unicode standard. */
module Utf8 {
  import opened Words
  import opened Values

  /** A Unicode scalar value: a code point that is not a surrogate. */
  predicate Scalar(r: int) {
    0 <= r < 0xd800 || 0xe000 <= r < 0x11_0000
  }

  /** The bytes of one character, six bits in each continuation byte. */
  function Spelled(r: int): (s: bytes)
    requires Scalar(r)
    ensures 1 <= |s| <= 4
  {
    if r < 0x80 then [r]
    else if r < 0x800 then [0xc0 + r / 64, 0x80 + r % 64]
    else if r < 0x1_0000 then [0xe0 + r / 4096, 0x80 + r / 64 % 64, 0x80 + r % 64]
    else [0xf0 + r / 0x4_0000, 0x80 + r / 4096 % 64, 0x80 + r / 64 % 64, 0x80 + r % 64]
  }

  predicate AllScalar(rs: seq<int>) {
    forall k | 0 <= k < |rs| :: Scalar(rs[k])
  }

  function Text(rs: seq<int>): (s: bytes)
    requires AllScalar(rs)
  {
    if rs == [] then [] else Spelled(rs[0]) + Text(rs[1..])
  }

  /** The ranges of table 3-7 of the standard, of two, three and four bytes. */
  predicate Two(a: byte, b: byte) {
    0xc2 <= a <= 0xdf && 0x80 <= b <= 0xbf
  }

  predicate Three(a: byte, b: byte, c: byte) {
    && 0xe0 <= a <= 0xef && 0x80 <= b <= 0xbf && 0x80 <= c <= 0xbf
    && (a == 0xe0 ==> b >= 0xa0) && (a == 0xed ==> b <= 0x9f)
  }

  predicate Four(a: byte, b: byte, c: byte, d: byte) {
    && 0xf0 <= a <= 0xf4 && 0x80 <= b <= 0xbf && 0x80 <= c <= 0xbf && 0x80 <= d <= 0xbf
    && (a == 0xf0 ==> b >= 0x90) && (a == 0xf4 ==> b <= 0x8f)
  }

  lemma {:induction false} InThree(r: int)
    requires Scalar(r) && 0x800 <= r < 0x1_0000
    ensures var s := Spelled(r); |s| == 3 && Three(s[0], s[1], s[2])
  {
    var q := r / 64;
    assert r / 4096 == q / 64;
    assert 0x20 <= q < 0x400 && !(0x360 <= q < 0x380);
  }

  lemma {:induction false} SpelledInFour(r: int)
    requires 0x1_0000 <= r < 0x11_0000
    ensures Scalar(r)
    ensures Spelled(r) == [0xf0 + r / 0x4_0000, 0x80 + r / 4096 % 64, 0x80 + r / 64 % 64, 0x80 + r % 64]
  {
  }

  lemma {:induction false} InFour(r: int)
    requires 0x1_0000 <= r < 0x11_0000
    ensures var s := Spelled(r); |s| == 4 && Four(s[0], s[1], s[2], s[3])
  {
    hide Spelled;
    SpelledInFour(r);
    var q := r / 4096;
    assert r / 0x4_0000 == q / 64;
    assert 0x10 <= q < 0x110;
  }

  lemma {:induction false} LengthTold(s: bytes, i: nat)
    requires i < |s|
    ensures s[i] < 0x80 ==> Utf8Len(s, i) == 1
    ensures i + 1 < |s| && Two(s[i], s[i + 1]) ==> Utf8Len(s, i) == 2
    ensures i + 2 < |s| && Three(s[i], s[i + 1], s[i + 2]) ==> Utf8Len(s, i) == 3
    ensures i + 3 < |s| && Four(s[i], s[i + 1], s[i + 2], s[i + 3]) ==> Utf8Len(s, i) == 4
  {
  }

  /** A character is recognised by its own length. */
  lemma {:induction false} CharacterRead(r: int, s: bytes, i: nat)
    requires Scalar(r) && i + |Spelled(r)| <= |s| && s[i..i + |Spelled(r)|] == Spelled(r)
    ensures Utf8Len(s, i) == |Spelled(r)|
  {
    hide Utf8Len, Three, Four;
    var c := Spelled(r);
    forall k | 0 <= k < |c| ensures s[i + k] == c[k] {
      assert s[i..i + |c|][k] == s[i + k];
    }
    LengthTold(s, i);
    if r < 0x80 {
      assert s[i + 0] == c[0];
    } else if r < 0x800 {
      assert s[i + 0] == c[0] && s[i + 1] == c[1];
    } else if r < 0x1_0000 {
      hide Spelled;
      InThree(r);
      assert s[i + 0] == c[0] && s[i + 1] == c[1] && s[i + 2] == c[2];
    } else {
      hide Spelled;
      InFour(r);
      assert s[i + 0] == c[0] && s[i + 1] == c[1] && s[i + 2] == c[2] && s[i + 3] == c[3];
    }
  }

  /** And what is recognised is one. */
  lemma {:induction false} CharacterFound(s: bytes, i: nat) returns (r: int)
    requires i < |s| && Utf8Len(s, i) > 0
    ensures Scalar(r) && s[i..i + Utf8Len(s, i)] == Spelled(r)
  {
    var n := Utf8Len(s, i);
    if n == 1 {
      r := s[i];
      assert s[i..i + 1] == [s[i]];
    } else if n == 2 {
      r := TwoBytes(s[i], s[i + 1]);
      assert s[i..i + 2] == [s[i], s[i + 1]];
    } else if n == 3 {
      r := ThreeBytes(s[i], s[i + 1], s[i + 2]);
      assert s[i..i + 3] == [s[i], s[i + 1], s[i + 2]];
    } else {
      r := FourBytes(s[i], s[i + 1], s[i + 2], s[i + 3]);
      assert s[i..i + 4] == [s[i], s[i + 1], s[i + 2], s[i + 3]];
    }
  }

  lemma {:induction false} TwoBytes(a: byte, b: byte) returns (r: int)
    requires Two(a, b)
    ensures Scalar(r) && Spelled(r) == [a, b]
  {
    r := (a - 0xc0) * 64 + (b - 0x80);
  }

  lemma {:induction false} ThreeBytes(a: byte, b: byte, c: byte) returns (r: int)
    requires Three(a, b, c)
    ensures Scalar(r) && Spelled(r) == [a, b, c]
  {
    hide Spelled;
    r := (a - 0xe0) * 4096 + (b - 0x80) * 64 + (c - 0x80);
    ThreeDigits(a - 0xe0, b - 0x80, c - 0x80);
    SpelledInThree(r);
  }

  lemma {:induction false} FourBytes(a: byte, b: byte, c: byte, d: byte) returns (r: int)
    requires Four(a, b, c, d)
    ensures Scalar(r) && Spelled(r) == [a, b, c, d]
  {
    hide Spelled, Scalar;
    r := (a - 0xf0) * 0x4_0000 + (b - 0x80) * 4096 + (c - 0x80) * 64 + (d - 0x80);
    FourDigits(a - 0xf0, b - 0x80, c - 0x80, d - 0x80);
    SpelledInFour(r);
  }

  lemma {:induction false} ThreeDigits(a: nat, b: nat, c: nat)
    requires b < 64 && c < 64
    ensures var r := a * 4096 + b * 64 + c; r / 4096 == a && r / 64 % 64 == b && r % 64 == c
  {
    var r := a * 4096 + b * 64 + c;
    assert r / 64 == a * 64 + b;
  }

  lemma {:induction false} SpelledInThree(r: int)
    requires Scalar(r) && 0x800 <= r < 0x1_0000
    ensures Spelled(r) == [0xe0 + r / 4096, 0x80 + r / 64 % 64, 0x80 + r % 64]
  {
  }

  /** The digits of a number to the base 64. */
  lemma {:induction false} FourDigits(a: nat, b: nat, c: nat, d: nat)
    requires b < 64 && c < 64 && d < 64
    ensures var r := a * 0x4_0000 + b * 4096 + c * 64 + d;
            r / 0x4_0000 == a && r / 4096 % 64 == b && r / 64 % 64 == c && r % 64 == d
  {
    var r := a * 0x4_0000 + b * 4096 + c * 64 + d;
    assert r / 64 == a * 4096 + b * 64 + c;
    assert r / 4096 == a * 64 + b;
  }

  lemma {:induction false} TextValid(rs: seq<int>, s: bytes, i: nat)
    requires AllScalar(rs) && i <= |s| && s[i..] == Text(rs)
    ensures ValidUtf8(s, i)
    decreases |rs|
  {
    hide Utf8Len, Spelled, Scalar;
    if rs != [] {
      var c := Spelled(rs[0]);
      assert s[i..i + |c|] == s[i..][..|c|] == c;
      CharacterRead(rs[0], s, i);
      assert s[i + |c|..] == s[i..][|c|..] == Text(rs[1..]);
      TextValid(rs[1..], s, i + |c|);
    }
  }

  lemma {:induction false} ValidText(s: bytes, i: nat) returns (rs: seq<int>)
    requires i <= |s| && ValidUtf8(s, i)
    ensures AllScalar(rs) && s[i..] == Text(rs)
    decreases |s| - i
  {
    hide Utf8Len, Spelled, Scalar;
    if i == |s| {
      rs := [];
    } else {
      var n := Utf8Len(s, i);
      var r := CharacterFound(s, i);
      var rest := ValidText(s, i + n);
      rs := [r] + rest;
      assert rs[1..] == rest;
      assert s[i..] == s[i..i + n] + s[i + n..];
    }
  }

  /** The strings Marshal accepts are exactly the encodings of sequences of characters. */
  lemma {:induction false} ValidExact(s: bytes)
    ensures ValidUtf8(s) <==> exists rs :: AllScalar(rs) && Text(rs) == s
  {
    hide AllScalar, Text, ValidUtf8;
    assert s[0..] == s;
    if ValidUtf8(s) {
      var rs := ValidText(s, 0);
      assert AllScalar(rs) && Text(rs) == s;
    }
    if rs :| AllScalar(rs) && Text(rs) == s {
      TextValid(rs, s, 0);
    }
  }

  /** Only strings are asked to be text: symbols and binaries are any bytes. All must leave room for the largest length. */
  lemma {:induction false} AcceptedExact(k: VarKind, s: bytes)
    ensures Encodable(Var(k, s)) <==>
              |s| < 0xffff_ffff && (k == Str ==> exists rs :: AllScalar(rs) && Text(rs) == s)
  {
    hide AllScalar, Text, ValidUtf8;
    ValidExact(s);
  }
}
