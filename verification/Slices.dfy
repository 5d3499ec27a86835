/**
 The buffer's slice as the array it shares: growth copies it, appending writes behind it in place,
 and reclaiming moves the unread bytes down within it.
 */
module Slices {
  import opened Words
  import opened Buffers

  /** What Next hands out: a stretch of the buffer's own array. */
  datatype Stretch = Stretch(base: array<byte>, from: nat, to: nat)

  ghost predicate Within(t: Stretch) {
    t.from <= t.to <= t.base.Length
  }

  ghost function Bytes(t: Stretch): (s: bytes)
    requires Within(t)
    reads t.base
  {
    t.base[t.from..t.to]
  }

  class SliceBuffer {
    var store: array<byte>
    var len: nat
    var i: nat

    constructor (s: bytes)
      ensures Valid() && fresh(store) && Contents() == s && i == 0
    {
      store := new byte[|s|](k requires 0 <= k < |s| => s[k]);
      len, i := |s|, 0;
    }

    ghost predicate Valid()
      reads this
    {
      i <= len <= store.Length
    }

    ghost function Contents(): (s: bytes)
      requires Valid()
      reads this, store
    {
      store[..len]
    }

    ghost function Unread(): (s: bytes)
      requires Valid()
      reads this, store
    {
      store[i..len]
    }

    /** Next: the stretch shares the array, so it holds the next bytes as long as nothing writes there. */
    method Next(n: nat) returns (t: Stretch, ok: bool)
      requires Valid()
      modifies this`i
      ensures Valid() && Within(t) && t.base == store && t.to == i && ok == (n <= old(len - i))
      ensures old(Unread()) == Bytes(t) + Unread() && if ok then |Bytes(t)| == n else Unread() == []
    {
      var end := if i + n > len then len else i + n;
      t, ok, i := Stretch(store, i, end), i + n <= len, end;
    }

    /** Reclaim: the copy overlaps, and runs upwards. */
    method Reclaim()
      requires Valid()
      modifies this`len, this`i, store
      ensures Valid() && Unread() == Contents() == old(Unread()) && i == 0
      ensures forall k | old(len - i) <= k < store.Length :: store[k] == old(store[k])
    {
      var l := len - i;
      var k := 0;
      while k < l
        modifies store
        invariant 0 <= k <= l
        invariant forall j | 0 <= j < k :: store[j] == old(store[i + j])
        invariant forall j | k <= j < store.Length :: store[j] == old(store[j])
      {
        store[k] := store[i + k];
        k := k + 1;
      }
      len, i := l, 0;
    }

    /** A new array with the same contents; what was handed out stays on the old one. */
    method Grow(capacity: nat)
      requires Valid() && len <= capacity
      modifies this`store
      ensures Valid() && fresh(store) && store.Length == capacity && Contents() == old(Contents())
    {
      var bigger := new byte[capacity](_ => 0);
      var k := 0;
      while k < len
        modifies bigger
        invariant 0 <= k <= len && bigger.Length == capacity
        invariant forall j | 0 <= j < k :: bigger[j] == store[j]
      {
        bigger[k] := store[k];
        k := k + 1;
      }
      store := bigger;
    }

    /** Writes behind the slice, within the capacity. */
    method Extend(p: bytes)
      requires Valid() && len + |p| <= store.Length
      modifies this`len, store
      ensures Valid() && Contents() == old(Contents()) + p
      ensures forall k | 0 <= k < old(len) :: store[k] == old(store[k])
    {
      var k := 0;
      while k < |p|
        modifies store
        invariant 0 <= k <= |p|
        invariant forall j | 0 <= j < k :: store[len + j] == p[j]
        invariant forall j | 0 <= j < len :: store[j] == old(store[j])
      {
        store[len + k] := p[k];
        k := k + 1;
      }
      len := len + |p|;
    }

    /** append: in place while there is room, else on a larger array of a size left to the runtime. */
    method Append(p: bytes, spare: nat)
      requires Valid()
      modifies this`len, this`store, store
      ensures Valid() && i == old(i) && (store == old(store) || fresh(store))
      ensures Contents() == old(Contents()) + p && Unread() == old(Unread()) + p
      ensures forall k | 0 <= k < old(len) :: old(store)[k] == old(store[k])
    {
      if len + |p| > store.Length { Grow(len + |p| + spare); }
      Extend(p);
      assert store[i..len] == Contents()[i..];
    }

    /** ReadFromOnce: the same contract as on the value, with the growth it makes. */
    method ReadFromOnce(r: Net) returns (ok: bool)
      requires Valid()
      modifies this`len, this`store, store, r
      ensures Valid() && i == old(i) && (store == old(store) || fresh(store))
      ensures ok == (old(r.pending) != [])
      ensures Unread() + Concat(r.pending) == old(Unread() + Concat(r.pending))
      ensures if ok then r.Measure() < old(r.Measure()) else r.pending == []
      ensures forall k | 0 <= k < old(len) :: old(store)[k] == old(store[k])
    {
      ghost var before := Unread();
      if store.Length - len < MIN_READ {
        Grow(if len == 0 then MIN_READ else 2 * len);
        assert Unread() == Contents()[i..] == before;
      }
      var data;
      data, ok := r.Read(store.Length - len);
      Extend(data);
      assert Unread() == Contents()[i..] == before + data;
    }
  }
}
