/** The bitmap: 64-bit words in a slice that grows, refining a set of numbers up to a maximum. */
module Bitmap {
  import opened Words

  // ---- one word ----------------------------------------------------------------------

  type word = bv64

  const ALL_ONES: word := 0xFFFF_FFFF_FFFF_FFFF

  predicate Bit(w: word, k: bv6) {
    (w >> k) & 1 == 1
  }

  lemma {:induction false} FlipBit(w: word, k: bv6)
    ensures Bit(!w, k) <==> !Bit(w, k)
  {
  }

  lemma {:induction false} ClearByte(w: word)
    requires !Bit(w, 0) && !Bit(w, 1) && !Bit(w, 2) && !Bit(w, 3)
    requires !Bit(w, 4) && !Bit(w, 5) && !Bit(w, 6) && !Bit(w, 7)
    ensures w & 0xFF == 0
  {
  }

  lemma {:induction false} ShiftBit(w: word, o: bv6, k: bv6)
    requires k < 8 && o <= 56
    ensures Bit(w >> o, k) == Bit(w, o + k)
  {
  }

  lemma {:induction false} ClearByteAt(w: word, o: bv6)
    requires o <= 56 && forall k: bv6 :: !Bit(w, k)
    ensures (w >> o) & 0xFF == 0
  {
    var v := w >> o;
    forall k: bv6 | k < 8 ensures !Bit(v, k) { ShiftBit(w, o, k); }
    ClearByte(v);
  }

  lemma {:induction false} ClearBytes(w: word)
    requires w & 0xFF == 0 && (w >> 8) & 0xFF == 0 && (w >> 16) & 0xFF == 0 && (w >> 24) & 0xFF == 0
    requires (w >> 32) & 0xFF == 0 && (w >> 40) & 0xFF == 0 && (w >> 48) & 0xFF == 0 && (w >> 56) & 0xFF == 0
    ensures w == 0
  {
  }

  /** A word without a bit is zero. */
  lemma {:induction false} AllClear(w: word)
    requires forall k: bv6 :: !Bit(w, k)
    ensures w == 0
  {
    hide Bit;
    ClearByteAt(w, 0);
    ClearByteAt(w, 8);
    ClearByteAt(w, 16);
    ClearByteAt(w, 24);
    ClearByteAt(w, 32);
    ClearByteAt(w, 40);
    ClearByteAt(w, 48);
    ClearByteAt(w, 56);
    ClearBytes(w);
  }

  ghost predicate Lowest(w: word, k: bv6) {
    Bit(w, k) && forall j: bv6 | j < k :: !Bit(w, j)
  }

  lemma {:induction false} Order(j: bv6, k: bv6)
    ensures 0 <= j as int && (j as int < k as int <==> j < k)
  {
  }

  lemma {:induction false} LowestExists(w: word, k: bv6)
    requires Bit(w, k)
    ensures exists m: bv6 :: Lowest(w, m)
    decreases k as int
  {
    hide Bit;
    if !Lowest(w, k) {
      var j: bv6 :| j < k && Bit(w, j);
      Order(j, k);
      LowestExists(w, j);
    }
  }

  lemma {:induction false} NonZero(w: word)
    requires w != 0
    ensures exists k: bv6 :: Lowest(w, k)
  {
    hide Bit, Lowest;
    if k: bv6 :| Bit(w, k) {
      LowestExists(w, k);
    } else {
      AllClear(w);
    }
  }

  /** Past a bit that is not set there is room up to the lowest. */
  lemma {:induction false} Onward(w: word, k: bv6)
    requires w != 0 && !Bit(w, k) && forall j: bv6 | j < k :: !Bit(w, j)
    ensures k < 63 && (k + 1) as int == k as int + 1 && forall j: bv6 | j < k + 1 :: !Bit(w, j)
  {
    hide Bit;
    NonZero(w);
    var m: bv6 :| Lowest(w, m);
    assert k < m;
    forall j: bv6 | j < k + 1 ensures !Bit(w, j) { assert j <= k; }
  }

  /** bits.TrailingZeros64 of a word that is not zero: the lowest bit set. */
  method TrailingZeros64(w: word) returns (k: bv6)
    requires w != 0
    ensures Lowest(w, k)
  {
    hide Bit;
    k := 0;
    while !Bit(w, k)
      invariant forall j: bv6 | j < k :: !Bit(w, j)
      decreases 63 - k as int
    {
      Onward(w, k);
      k := k + 1;
    }
  }

  lemma {:induction false} LowestFree(w: word, k: bv6)
    requires Lowest(!w, k)
    ensures !Bit(w, k) && forall j: bv6 | j < k :: Bit(w, j)
  {
    hide Bit;
    var v := !w;
    FlipBit(w, k);
    forall j: bv6 | j < k ensures Bit(w, j) {
      FlipBit(w, j);
      assert !Bit(v, j);
    }
  }

  lemma {:induction false} NotOnes(w: word)
    requires w != ALL_ONES
    ensures !w != 0
  {
  }

  /** w | 1 << o, w & ^(1 << o) */
  function WithBit(w: word, o: bv6): (r: word) {
    w | (1 << o)
  }

  function WithoutBit(w: word, o: bv6): (r: word) {
    w & !(1 << o)
  }

  lemma {:induction false} WithBitSet(w: word, o: bv6, k: bv6)
    ensures Bit(WithBit(w, o), k) <==> k == o || Bit(w, k)
  {
    hide Bit, WithBit, WithoutBit;
    if k != o { OtherBitSet(w, o, k); }
    OwnBit(w, o);
  }

  lemma {:induction false} WithoutBitSet(w: word, o: bv6, k: bv6)
    ensures Bit(WithoutBit(w, o), k) <==> k != o && Bit(w, k)
  {
    hide Bit, WithBit, WithoutBit;
    if k != o { OtherBitCleared(w, o, k); }
    OwnBit(w, o);
  }

  lemma {:induction false} OwnBit(w: word, o: bv6)
    ensures Bit(WithBit(w, o), o) && !Bit(WithoutBit(w, o), o)
  {
  }

  lemma {:induction false} OtherBitSet(w: word, o: bv6, k: bv6)
    requires k != o
    ensures Bit(WithBit(w, o), k) == Bit(w, k)
  {
  }

  lemma {:induction false} OtherBitCleared(w: word, o: bv6, k: bv6)
    requires k != o
    ensures Bit(WithoutBit(w, o), k) == Bit(w, k)
  {
  }

  lemma {:induction false} ZeroBit(k: bv6)
    ensures !Bit(0, k) && Bit(ALL_ONES, k) && WithBit(0, 0) == 1
  {
  }

  // ---- the slice ---------------------------------------------------------------------

  /** Where a number's bit is. */
  function Idx(n: nat): (i: nat) { n / 64 }
  function Off(n: nat): (o: bv6) { (n % 64) as bv6 }

  lemma {:induction false} Cast(k: nat)
    requires k < 64
    ensures (k as bv6) as int == k
  {
  }

  lemma {:induction false} CastBack(k: bv6)
    ensures 0 <= k as int < 64 && (k as int) as bv6 == k
  {
  }

  lemma {:induction false} Place(n: nat)
    ensures n == 64 * Idx(n) + Off(n) as int && 0 <= Off(n) as int < 64
  {
    Cast(n % 64);
  }

  lemma {:induction false} PlaceOf(i: nat, o: bv6)
    ensures 0 <= o as int < 64 && Idx(64 * i + o as int) == i && Off(64 * i + o as int) == o
  {
    CastBack(o);
  }

  /** Number n is set. */
  predicate Has(bits: seq<word>, n: nat) {
    Idx(n) < |bits| && Bit(bits[Idx(n)], Off(n))
  }

  ghost function Numbers(bits: seq<word>): (s: set<nat>) {
    set n: nat | n < 64 * |bits| && Has(bits, n)
  }

  lemma {:induction false} InNumbers(bits: seq<word>, n: nat)
    ensures n in Numbers(bits) <==> Has(bits, n)
  {
    hide Bit, Off;
    Place(n);
  }

  function Zeros(n: nat): (r: seq<word>)
    ensures |r| == n && forall k | 0 <= k < n :: r[k] == 0
  {
    if n == 0 then [] else [0 as word] + Zeros(n - 1)
  }

  lemma {:induction false} GrowKeeps(bits: seq<word>, more: nat)
    ensures Numbers(bits + Zeros(more)) == Numbers(bits)
  {
    hide Bit, Idx, Off, Numbers;
    var r := bits + Zeros(more);
    forall n: nat ensures n in Numbers(r) <==> n in Numbers(bits) {
      ZeroBit(Off(n));
      InNumbers(r, n);
      InNumbers(bits, n);
    }
  }

  lemma {:induction false} AddOne(bits: seq<word>, n: nat)
    requires Idx(n) < |bits|
    ensures Numbers(bits[Idx(n) := WithBit(bits[Idx(n)], Off(n))]) == Numbers(bits) + {n}
  {
    hide Bit, Idx, Off, WithBit, Numbers;
    var r := bits[Idx(n) := WithBit(bits[Idx(n)], Off(n))];
    forall m: nat ensures m in Numbers(r) <==> m == n || m in Numbers(bits) {
      Place(m);
      Place(n);
      WithBitSet(bits[Idx(n)], Off(n), Off(m));
      InNumbers(r, m);
      InNumbers(bits, m);
    }
  }

  lemma {:induction false} DropOne(bits: seq<word>, n: nat)
    requires Idx(n) < |bits|
    ensures Numbers(bits[Idx(n) := WithoutBit(bits[Idx(n)], Off(n))]) == Numbers(bits) - {n}
  {
    hide Bit, Idx, Off, WithoutBit, Numbers;
    var r := bits[Idx(n) := WithoutBit(bits[Idx(n)], Off(n))];
    forall m: nat ensures m in Numbers(r) <==> m != n && m in Numbers(bits) {
      Place(m);
      Place(n);
      WithoutBitSet(bits[Idx(n)], Off(n), Off(m));
      InNumbers(r, m);
      InNumbers(bits, m);
    }
  }

  lemma {:induction false} WordFull(bits: seq<word>, i: nat)
    requires i < |bits| && bits[i] == ALL_ONES
    ensures forall n: nat | 64 * i <= n < 64 * i + 64 :: n in Numbers(bits)
  {
    hide Bit, Idx, Off, Numbers;
    forall n: nat | 64 * i <= n < 64 * i + 64 ensures n in Numbers(bits) {
      Place(n);
      ZeroBit(Off(n));
      InNumbers(bits, n);
    }
  }

  lemma {:induction false} LeastFree(bits: seq<word>, i: nat, o: bv6)
    requires i < |bits| && Lowest(!bits[i], o)
    ensures var n := 64 * i + o as int;
            && n >= 64 * i && n !in Numbers(bits) && Idx(n) == i && Off(n) == o
            && forall m: nat | 64 * i <= m < n :: m in Numbers(bits)
  {
    LowestFree(bits[i], o);
    hide Bit, Idx, Off, Numbers, Lowest;
    PlaceOf(i, o);
    InNumbers(bits, 64 * i + o as int);
    forall m: nat | 64 * i <= m < 64 * i + o as int ensures m in Numbers(bits) {
      Place(m);
      Order(Off(m), o);
      InNumbers(bits, m);
    }
  }

  lemma {:induction false} AppendFirst(bits: seq<word>)
    ensures Numbers(bits + [1]) == Numbers(bits) + {64 * |bits|} && 64 * |bits| !in Numbers(bits)
  {
    hide Bit, Idx, Off, Numbers, WithBit;
    GrowKeeps(bits, 1);
    assert Zeros(1) == [0];
    var g := bits + [0];
    PlaceOf(|bits|, 0);
    AddOne(g, 64 * |bits|);
    ZeroBit(0);
    assert g[|bits| := 1] == bits + [1];
    InNumbers(bits, 64 * |bits|);
  }

  class BitmapState {
    const max: uint32
    var bits: seq<word>

    constructor (max: uint32)
      ensures Valid() && this.max == max && Set() == {}
    {
      this.max, bits := max, [];
    }

    /** The numbers in the bitmap. */
    ghost function Set(): (s: set<nat>)
      reads this
    {
      Numbers(bits)
    }

    ghost predicate Valid()
      reads this
    {
      (forall n | n in Set() :: n <= max) && 64 * |bits| <= max + 64
    }

    method Add(n: uint32)
      requires Valid()
      modifies this
      ensures Valid() && Set() == if n <= max then old(Set()) + {n} else old(Set())
    {
      hide Numbers, WithBit, Idx, Off, Bit;
      if n > max { return; }
      var idx, offset := Idx(n), Off(n);
      Place(n);
      if idx >= |bits| {
        GrowKeeps(bits, idx - |bits| + 1);
        bits := bits + Zeros(idx - |bits| + 1);
      }
      AddOne(bits, n);
      bits := bits[idx := WithBit(bits[idx], offset)];
      assert Set() == old(Set()) + {n};
      assert 64 * |bits| <= max + 64;
    }

    method Remove(n: uint32)
      requires Valid()
      modifies this
      ensures Valid() && Set() == old(Set()) - {n}
    {
      hide Numbers, WithoutBit, Idx, Off, Bit;
      var idx, offset := Idx(n), Off(n);
      Place(n);
      InNumbers(bits, n);
      if idx >= |bits| { return; }
      DropOne(bits, n);
      bits := bits[idx := WithoutBit(bits[idx], offset)];
    }

    /** The least number not in the set is returned and added; it fails exactly when 0..max are all taken. */
    method Next() returns (next: nat, ok: bool)
      requires Valid()
      modifies this
      ensures Valid()
      ensures ok <==> exists n: nat :: n <= max && n !in old(Set())
      ensures ok ==> next <= max && next !in old(Set()) && Set() == old(Set()) + {next}
      ensures ok ==> forall n: nat | n < next :: n in old(Set())
      ensures !ok ==> Set() == old(Set())
    {
      hide Numbers, WithBit, Lowest, Idx, Off, Bit;
      ghost var taken := Set();
      var i := 0;
      while i < |bits|
        invariant 0 <= i <= |bits| && bits == old(bits)
        invariant forall n: nat | n < 64 * i :: n in taken
      {
        var v := bits[i];
        if v == ALL_ONES {
          WordFull(bits, i);
          i := i + 1;
          continue;
        }
        NotOnes(v);
        var offset := TrailingZeros64(!v);
        LeastFree(bits, i, offset);
        next := 64 * i + offset as int;
        assert forall n: nat | n < next :: n in taken;
        if next > max { return next, false; }
        AddOne(bits, next);
        bits := bits[i := WithBit(bits[i], offset)];
        assert Set() == taken + {next};
        return next, true;
      }
      next := 64 * |bits|;
      assert forall n: nat | n < next :: n in taken;
      if next > max {
        assert Set() == taken;
        return 0, false;
      }
      AppendFirst(bits);
      bits := bits + [1];
      assert Set() == taken + {next};
      return next, true;
    }
  }

  // ---- handles and channels ----------------------------------------------------------

  datatype Allocation = Taken | Exhausted | Handle(n: uint32)

  /** A link with the key and the number it was given, or a session, whose key is its channel. */
  datatype Holding = Holding(key: nat, n: uint32)

  /** A link attaches, or the j-th that did detaches; a session begins, or the j-th that did ends. */
  datatype LinkCall = Attach(key: nat) | Detach(j: nat)
  datatype SessionCall = Begin | End(j: nat)

  /**
   The live links of a session by key, or the sessions of a connection, with the numbers they were
   given: session.go's linksByKey and outputHandles, conn.go's sessionsByChannel and channels.
   */
  class Handles {
    const numbers: BitmapState
    var live: map<nat, uint32>

    constructor (max: uint32)
      ensures Valid() && fresh(numbers) && live == map[] && numbers.max == max
    {
      numbers := new BitmapState(max);
      live := map[];
    }

    ghost predicate Valid()
      reads this, numbers
    {
      numbers.Valid() && Exactly(live, numbers.Set())
    }

    method Allocate(key: nat) returns (r: Allocation)
      requires Valid()
      modifies this, numbers
      ensures Valid()
      ensures r.Taken? <==> key in old(live)
      ensures r.Exhausted? ==> forall n: nat | n <= numbers.max :: Used(old(live), n)
      ensures r.Handle? ==> r.n <= numbers.max && !Used(old(live), r.n) && live == old(live)[key := r.n]
      ensures r.Handle? ==> forall n: nat | n < r.n :: Used(old(live), n)
      ensures !r.Handle? ==> live == old(live)
    {
      hide Exactly, Numbers;
      if key in live { return Taken; }
      ghost var taken, before := numbers.Set(), live;
      UsedAre(before, taken);
      var next, ok := numbers.Next();
      if !ok { return Exhausted; }
      live := live[key := next];
      OneMore(before, key, next, taken);
      return Handle(next);
    }

    /**
     Both are given by the link or session that goes. The books stay right exactly when it is live
     under that number, or neither is in use any more.
     */
    method Deallocate(key: nat, n: uint32)
      requires Valid()
      modifies this, numbers
      ensures numbers.Valid() && live == old(live) - {key} && numbers.Set() == old(numbers.Set()) - {n}
      ensures Valid() <==> if key in old(live) then old(live)[key] == n else !Used(old(live), n)
    {
      hide Exactly, Numbers, Used;
      UsedAre(live, numbers.Set());
      OneLess(live, key, n, numbers.Set());
      live := live - {key};
      numbers.Remove(n);
    }

    /** newSession: the channel is the key, and no key is looked up. */
    method AllocateChannel() returns (r: Allocation)
      requires Valid() && OwnKeys(live)
      modifies this, numbers
      ensures Valid() && OwnKeys(live) && !r.Taken?
      ensures r.Exhausted? ==> live == old(live) && forall n: nat | n <= numbers.max :: n in live
      ensures r.Handle? ==> r.n <= numbers.max && r.n !in old(live) && live == old(live)[r.n := r.n]
      ensures r.Handle? ==> forall n: nat | n < r.n :: n in old(live)
    {
      hide Exactly, Numbers;
      ghost var taken, before := numbers.Set(), live;
      UsedAre(before, taken);
      KeysUsed(before);
      var next, ok := numbers.Next();
      if !ok { return Exhausted; }
      live := live[next := next];
      OneMore(before, next, next, taken);
      return Handle(next);
    }

    /**
     Any links attaching, and each detaching once with the number it was given: those attached have
     numbers of their own, and no other number is in use.
     */
    method Drive(cs: seq<LinkCall>) returns (links: seq<Holding>, gone: set<nat>)
      requires Valid() && live == map[]
      modifies this, numbers
      ensures Valid() && Registered(live, links, gone)
      ensures Apart(links, gone, numbers.max) && numbers.Set() == InUse(links, gone)
    {
      hide Exactly, Numbers, Registered;
      links, gone := [], {};
      NoneRegistered();
      var k := 0;
      while k < |cs|
        invariant 0 <= k <= |cs| && Valid() && Registered(live, links, gone)
      {
        match cs[k] {
          case Attach(key) =>
            ghost var before := live;
            var r := Allocate(key);
            if r.Handle? {
              OneRegistered(before, links, gone, key, r.n);
              links := links + [Holding(key, r.n)];
            }
          case Detach(j) =>
            if j < |links| && j !in gone {
              OneGone(live, links, gone, j);
              Deallocate(links[j].key, links[j].n);
              gone := gone + {j};
            }
        }
        k := k + 1;
      }
      RegisteredApart(live, links, gone, numbers.Set(), numbers.max);
    }

    /** The same for sessions and their channels. */
    method DriveSessions(cs: seq<SessionCall>) returns (sessions: seq<Holding>, gone: set<nat>)
      requires Valid() && live == map[]
      modifies this, numbers
      ensures Valid() && Registered(live, sessions, gone) && OwnKeys(live)
      ensures Apart(sessions, gone, numbers.max) && numbers.Set() == InUse(sessions, gone)
    {
      hide Exactly, Numbers, Registered;
      sessions, gone := [], {};
      NoneRegistered();
      var k := 0;
      while k < |cs|
        invariant 0 <= k <= |cs| && Valid() && Registered(live, sessions, gone) && OwnKeys(live)
      {
        match cs[k] {
          case Begin =>
            ghost var before := live;
            var r := AllocateChannel();
            if r.Handle? {
              OneRegistered(before, sessions, gone, r.n, r.n);
              sessions := sessions + [Holding(r.n, r.n)];
            }
          case End(j) =>
            if j < |sessions| && j !in gone {
              OneGone(live, sessions, gone, j);
              Deallocate(sessions[j].key, sessions[j].n);
              gone := gone + {j};
            }
        }
        k := k + 1;
      }
      RegisteredApart(live, sessions, gone, numbers.Set(), numbers.max);
    }
  }

  /** Sessions are found by their channels. */
  predicate OwnKeys(live: map<nat, uint32>) {
    forall k | k in live :: live[k] == k
  }

  lemma {:induction false} KeysUsed(live: map<nat, uint32>)
    requires OwnKeys(live)
    ensures forall n: nat :: Used(live, n) <==> n in live
  {
    forall n: nat | n in live ensures Used(live, n) {
      assert live[n] == n;
    }
  }

  /** The table holds exactly those not gone, each under its key with its number. */
  ghost predicate Registered(live: map<nat, uint32>, hs: seq<Holding>, gone: set<nat>) {
    && (forall j | j in gone :: j < |hs|)
    && (forall j | 0 <= j < |hs| && j !in gone :: hs[j].key in live && live[hs[j].key] == hs[j].n)
    && (forall j, k | 0 <= j < k < |hs| && j !in gone && k !in gone :: hs[j].key != hs[k].key)
    && (forall key | key in live :: exists j :: 0 <= j < |hs| && j !in gone && hs[j].key == key)
  }

  /** Those not gone have different numbers in range. */
  ghost predicate Apart(hs: seq<Holding>, gone: set<nat>, max: uint32) {
    && (forall j | 0 <= j < |hs| && j !in gone :: hs[j].n <= max)
    && (forall j, k | 0 <= j < k < |hs| && j !in gone && k !in gone :: hs[j].n != hs[k].n)
  }

  ghost function InUse(hs: seq<Holding>, gone: set<nat>): (s: set<nat>) {
    set j | 0 <= j < |hs| && j !in gone :: hs[j].n
  }

  lemma {:induction false} NoneRegistered()
    ensures Registered(map[], [], {})
  {
  }

  lemma {:induction false} OneRegistered(live: map<nat, uint32>, hs: seq<Holding>, gone: set<nat>, key: nat, n: uint32)
    requires Registered(live, hs, gone) && key !in live
    ensures Registered(live[key := n], hs + [Holding(key, n)], gone)
  {
    var r, gs := live[key := n], hs + [Holding(key, n)];
    forall x | x in r ensures exists j :: 0 <= j < |gs| && j !in gone && gs[j].key == x {
      if x == key {
        assert gs[|hs|].key == x;
      } else {
        var j :| 0 <= j < |hs| && j !in gone && hs[j].key == x;
        assert gs[j].key == x;
      }
    }
  }

  lemma {:induction false} OneGone(live: map<nat, uint32>, hs: seq<Holding>, gone: set<nat>, j: nat)
    requires Registered(live, hs, gone) && j < |hs| && j !in gone
    ensures hs[j].key in live && live[hs[j].key] == hs[j].n
    ensures Registered(live - {hs[j].key}, hs, gone + {j})
  {
    var r := live - {hs[j].key};
    forall key | key in r ensures exists k :: 0 <= k < |hs| && k !in gone + {j} && hs[k].key == key {
      var k :| 0 <= k < |hs| && k !in gone && hs[k].key == key;
      assert k != j;
    }
  }

  lemma {:induction false} RegisteredApart(live: map<nat, uint32>, hs: seq<Holding>, gone: set<nat>, s: set<nat>, max: uint32)
    requires Registered(live, hs, gone) && Exactly(live, s) && forall n | n in s :: n <= max
    ensures Apart(hs, gone, max) && s == InUse(hs, gone)
  {
    forall n: nat | n in s ensures n in InUse(hs, gone) {
      assert Used(live, n);
      var key :| key in live && live[key] == n;
      var j :| 0 <= j < |hs| && j !in gone && hs[j].key == key;
      assert hs[j].n == n;
    }
  }

  predicate Used(live: map<nat, uint32>, n: nat) {
    exists k :: k in live && live[k] == n
  }

  /** Numbers in use are pairwise distinct and exactly those in the set. */
  ghost predicate Exactly(live: map<nat, uint32>, s: set<nat>) {
    && (forall k | k in live :: live[k] in s)
    && (forall n | n in s :: Used(live, n))
    && (forall j, k | j in live && k in live && live[j] == live[k] :: j == k)
  }

  lemma {:induction false} UsedAre(live: map<nat, uint32>, s: set<nat>)
    requires Exactly(live, s)
    ensures forall n: nat :: Used(live, n) <==> n in s
  {
  }

  lemma {:induction false} OneMore(live: map<nat, uint32>, key: nat, next: uint32, s: set<nat>)
    requires Exactly(live, s) && key !in live && next !in s
    ensures Exactly(live[key := next], s + {next})
  {
    var r := live[key := next];
    forall n: nat | n in s + {next} ensures Used(r, n) {
      if n in s {
        assert Used(live, n);
        var k :| k in live && live[k] == n;
        assert k in r && r[k] == n;
      } else {
        assert key in r && r[key] == n;
      }
    }
  }

  lemma {:induction false} OneLess(live: map<nat, uint32>, key: nat, n: uint32, s: set<nat>)
    requires Exactly(live, s)
    ensures Exactly(live - {key}, s - {n}) <==> if key in live then live[key] == n else n !in s
  {
    var r := live - {key};
    if key in live && live[key] != n {
      assert live[key] in s - {n};
      assert !Used(r, live[key]);
    } else if key !in live && n in s {
      var k :| k in live && live[k] == n;
      assert k in r && r[k] !in s - {n};
    } else {
      forall m: nat | m in s - {n} ensures Used(r, m) {
        assert Used(live, m);
        var k :| k in live && live[k] == m;
        assert k in r && r[k] == m;
      }
    }
  }
}
