/** The segmented queue: a ring of fixed-size segments refining a FIFO sequence. */
module Queue {
  import opened Words

  // ---- segments as values ------------------------------------------------------------

  datatype Seg<T> = Seg(items: seq<Option<T>>, head: nat, tail: nat)

  /** The items of a segment, and only they, are kept: slots outside hold nothing. */
  predicate SegOk<T>(s: Seg<T>, size: nat) {
    && |s.items| == size && s.head <= s.tail <= size
    && forall k | 0 <= k < size :: s.items[k].Some? <==> s.head <= k < s.tail
  }

  predicate Blank<T>(s: Seg<T>) {
    s.head == 0 && s.tail == 0
  }

  function Values<T>(os: seq<Option<T>>): (r: seq<T>) {
    if os == [] then [] else (if os[0].Some? then [os[0].value] else []) + Values(os[1..])
  }

  lemma {:induction false} ValuesCons<T>(o: Option<T>, rest: seq<Option<T>>)
    ensures Values([o] + rest) == (if o.Some? then [o.value] else []) + Values(rest)
  {
    assert ([o] + rest)[1..] == rest;
  }

  lemma {:induction false} ValuesNil<T>()
    ensures Values<T>([]) == []
  {
  }

  lemma {:induction false} ValuesConcat<T>(a: seq<Option<T>>, b: seq<Option<T>>)
    ensures Values(a + b) == Values(a) + Values(b)
  {
    hide Values;
    if a == [] {
      assert a + b == b;
      ValuesNil<T>();
    } else {
      var rest := a[1..];
      assert a == [a[0]] + rest && a + b == [a[0]] + (rest + b);
      ValuesCons(a[0], rest);
      ValuesCons(a[0], rest + b);
      ValuesConcat(rest, b);
    }
  }

  lemma {:induction false} ValuesAll<T>(a: seq<Option<T>>)
    requires forall k | 0 <= k < |a| :: a[k].Some?
    ensures |Values(a)| == |a|
  {
    if a != [] { ValuesAll(a[1..]); }
  }

  function Items<T>(s: Seg<T>): (r: seq<T>) {
    if s.head <= s.tail <= |s.items| then Values(s.items[s.head..s.tail]) else []
  }

  function Contents<T>(ss: seq<Seg<T>>): (r: seq<T>) {
    if ss == [] then [] else Items(ss[0]) + Contents(ss[1..])
  }

  lemma {:induction false} ContentsCons<T>(s: Seg<T>, rest: seq<Seg<T>>)
    ensures Contents([s] + rest) == Items(s) + Contents(rest)
  {
    hide Items;
    assert ([s] + rest)[1..] == rest;
  }

  lemma {:induction false} ContentsConcat<T>(a: seq<Seg<T>>, b: seq<Seg<T>>)
    ensures Contents(a + b) == Contents(a) + Contents(b)
  {
    hide Contents, Items;
    if a == [] {
      assert a + b == b;
      BlankContents<T>([]);
    } else {
      var rest := a[1..];
      assert a == [a[0]] + rest && a + b == [a[0]] + (rest + b);
      ContentsCons(a[0], rest);
      ContentsCons(a[0], rest + b);
      ContentsConcat(rest, b);
    }
  }

  lemma {:induction false} Single<T>(s: Seg<T>)
    ensures Contents([s]) == Items(s)
  {
    assert [s][1..] == [];
  }

  lemma {:induction false} BlankContents<T>(ss: seq<Seg<T>>)
    requires forall k | 0 <= k < |ss| :: Blank(ss[k])
    ensures Contents(ss) == []
  {
    if ss != [] { BlankContents(ss[1..]); }
  }

  // ---- the shape of the ring ---------------------------------------------------------

  /**
   The ring read from the head: segments up to t in use, full but for the ends; the others blank.
   The segment at t may be blank while an enqueue is under way.
   */
  predicate Loose<T>(ss: seq<Seg<T>>, t: nat, size: nat) {
    && size > 0 && t < |ss|
    && (forall k | 0 <= k < |ss| :: SegOk(ss[k], size))
    && (ss[0].head < ss[0].tail || (t == 0 && Blank(ss[0])))
    && (forall k | 0 <= k < t :: ss[k].tail == size)
    && (forall k | 0 < k <= t :: ss[k].head == 0)
    && (forall k | t < k < |ss| :: Blank(ss[k]))
  }

  predicate Shape<T>(ss: seq<Seg<T>>, t: nat, size: nat) {
    Loose(ss, t, size) && (t > 0 ==> ss[t].tail > 0)
  }

  /** The count kept is the number of items; a ring of many segments has once held many items. */
  predicate Counted<T>(ss: seq<Seg<T>>, size: nat, n: int, peak: nat) {
    n == |Contents(ss)| && n <= peak && Enough(|ss|, size) <= peak
  }

  /** How many items there must once have been for a ring of that many segments. */
  function Enough(segments: nat, size: nat): (n: nat) {
    if segments <= 1 then 0 else (segments - 2) * size + 1
  }

  // ---- enqueue -----------------------------------------------------------------------

  /** The item put into the next free slot. */
  function Put<T>(s: Seg<T>, x: T): (r: Seg<T>)
    requires s.tail < |s.items|
  {
    Seg(s.items[s.tail := Some(x)], s.head, s.tail + 1)
  }

  lemma {:induction false} PutItems<T>(s: Seg<T>, x: T, size: nat)
    requires SegOk(s, size) && s.tail < size
    ensures SegOk(Put(s, x), size) && Items(Put(s, x)) == Items(s) + [x]
  {
    var r := Put(s, x);
    assert r.items[r.head..r.tail] == s.items[s.head..s.tail] + [Some(x)];
    ValuesConcat(s.items[s.head..s.tail], [Some(x)]);
    assert Values([Some(x)]) == [x] by { assert [Some(x)][1..] == []; }
  }

  lemma {:induction false} Replaced<T>(ss: seq<Seg<T>>, t: nat, s: Seg<T>)
    requires t < |ss|
    ensures Contents(ss) == Contents(ss[..t]) + Items(ss[t]) + Contents(ss[t + 1..])
    ensures Contents(ss[t := s]) == Contents(ss[..t]) + Items(s) + Contents(ss[t + 1..])
  {
    hide Contents, Items;
    var rs, a, c := ss[t := s], ss[..t], ss[t + 1..];
    assert ss == a + [ss[t]] + c && rs == a + [s] + c;
    Single(ss[t]);
    Single(s);
    ContentsConcat(a, [ss[t]]);
    ContentsConcat(a + [ss[t]], c);
    ContentsConcat(a, [s]);
    ContentsConcat(a + [s], c);
  }

  lemma {:induction false} PutShape<T>(ss: seq<Seg<T>>, t: nat, x: T, size: nat)
    requires Loose(ss, t, size) && ss[t].tail < size
    ensures |ss[t].items| == size && SegOk(Put(ss[t], x), size)
    ensures Items(Put(ss[t], x)) == Items(ss[t]) + [x]
    ensures Shape(ss[t := Put(ss[t], x)], t, size)
  {
    PutItems(ss[t], x, size);
    hide SegOk, Items;
  }

  lemma {:induction false} PutContents<T>(ss: seq<Seg<T>>, t: nat, x: T, size: nat)
    requires Loose(ss, t, size) && ss[t].tail < size
    ensures |ss[t].items| == size && Shape(ss[t := Put(ss[t], x)], t, size)
    ensures Contents(ss[t := Put(ss[t], x)]) == Contents(ss) + [x]
  {
    PutShape(ss, t, x, size);
    hide Contents, Items, SegOk, Put, Shape;
    Replaced(ss, t, Put(ss[t], x));
    BlankContents(ss[t + 1..]);
  }

  lemma {:induction false} PutCounted<T>(ss: seq<Seg<T>>, t: nat, x: T, size: nat, n: int, peak: nat)
    requires Loose(ss, t, size) && ss[t].tail < size && Counted(ss, size, n, peak)
    ensures |ss[t].items| == size
    ensures var rs := ss[t := Put(ss[t], x)];
            && Shape(rs, t, size) && Contents(rs) == Contents(ss) + [x]
            && Counted(rs, size, n + 1, if peak < n + 1 then n + 1 else peak)
  {
    hide Contents, SegOk, Shape, Enough;
    PutContents(ss, t, x, size);
  }

  lemma {:induction false} AdvanceLoose<T>(ss: seq<Seg<T>>, t: nat, size: nat)
    requires Loose(ss, t, size) && t + 1 < |ss| && ss[t].tail == size
    ensures Loose(ss, t + 1, size) && Blank(ss[t + 1])
  {
    hide SegOk;
  }

  lemma {:induction false} FullContents<T>(ss: seq<Seg<T>>, size: nat)
    requires forall k | 0 <= k < |ss| :: SegOk(ss[k], size) && ss[k].head == 0 && ss[k].tail == size
    ensures |Contents(ss)| == |ss| * size
  {
    if ss != [] {
      var s := ss[0];
      assert s.items[0..size] == s.items;
      ValuesAll(s.items);
      FullContents(ss[1..], size);
      assert |ss| * size == (|ss| - 1) * size + size;
    }
  }

  /** A ring without a free slot behind its head holds nearly all that fits into it. */
  lemma {:induction false} FullRing<T>(ss: seq<Seg<T>>, size: nat)
    requires |ss| > 0 && Loose(ss, |ss| - 1, size) && ss[|ss| - 1].tail == size
    ensures |Contents(ss)| >= Enough(|ss| + 1, size)
  {
    var s := ss[0];
    assert SegOk(s, size);
    ValuesAll(s.items[s.head..s.tail]);
    hide SegOk;
    FullContents(ss[1..], size);
  }

  lemma {:induction false} GrowCounted<T>(ss: seq<Seg<T>>, s: Seg<T>, size: nat, n: int, peak: nat)
    requires |ss| > 0 && Loose(ss, |ss| - 1, size) && ss[|ss| - 1].tail == size && Counted(ss, size, n, peak)
    requires Blank(s) && |s.items| == size && forall k | 0 <= k < size :: s.items[k].None?
    ensures Loose(ss + [s], |ss|, size) && Contents(ss + [s]) == Contents(ss) && Counted(ss + [s], size, n, peak)
  {
    assert SegOk(s, size);
    FullRing(ss, size);
    hide SegOk, Contents, Enough;
    ContentsConcat(ss, [s]);
    BlankContents([s]);
  }

  // ---- dequeue -----------------------------------------------------------------------

  /** The first item taken out; an empty segment starts over. */
  function Take<T>(s: Seg<T>): (r: Seg<T>)
    requires s.head < s.tail <= |s.items|
  {
    var items := s.items[s.head := None];
    if s.head + 1 == s.tail then Seg(items, 0, 0) else Seg(items, s.head + 1, s.tail)
  }

  lemma {:induction false} TakeItems<T>(s: Seg<T>, size: nat)
    requires SegOk(s, size) && s.head < s.tail
    ensures SegOk(Take(s), size)
    ensures s.items[s.head].Some? && Items(s) == [s.items[s.head].value] + Items(Take(s))
  {
    var r, x := Take(s), s.items[s.head];
    assert s.items[s.head..s.tail] == [x] + s.items[s.head + 1..s.tail];
    assert Items(r) == Values(s.items[s.head + 1..s.tail]) by {
      assert r.items[r.head..r.tail] == s.items[s.head + 1..s.tail];
    }
  }

  /** Whether the dequeue uses up the head segment and there is another. */
  predicate UsedUp<T>(ss: seq<Seg<T>>, t: nat)
    requires |ss| > 0 && ss[0].head < ss[0].tail <= |ss[0].items|
  {
    Blank(Take(ss[0])) && t > 0
  }

  /** The used-up segment goes to the end of the ring. */
  function Dequeued<T>(ss: seq<Seg<T>>, t: nat): (r: seq<Seg<T>>)
    requires |ss| > 0 && ss[0].head < ss[0].tail <= |ss[0].items|
  {
    if UsedUp(ss, t) then ss[1..] + [Take(ss[0])] else [Take(ss[0])] + ss[1..]
  }

  lemma {:induction false} TakeShape<T>(ss: seq<Seg<T>>, t: nat, size: nat)
    requires Shape(ss, t, size) && ss[0].tail != 0
    ensures ss[0].head < ss[0].tail && ss[0].items[ss[0].head].Some?
    ensures Items(ss[0]) == [ss[0].items[ss[0].head].value] + Items(Take(ss[0]))
    ensures Shape(Dequeued(ss, t), if UsedUp(ss, t) then t - 1 else t, size)
  {
    TakeItems(ss[0], size);
    hide SegOk;
    if UsedUp(ss, t) {
      assert Dequeued(ss, t)[0] == ss[1];
    }
  }

  lemma {:induction false} TakeContents<T>(ss: seq<Seg<T>>, t: nat)
    requires |ss| > 0 && ss[0].head < ss[0].tail <= |ss[0].items| && ss[0].items[ss[0].head].Some?
    requires Items(ss[0]) == [ss[0].items[ss[0].head].value] + Items(Take(ss[0]))
    ensures Contents(ss) == [ss[0].items[ss[0].head].value] + Contents(Dequeued(ss, t))
  {
    hide Contents, Items, Take;
    var s, rest := Take(ss[0]), ss[1..];
    assert ss == [ss[0]] + rest;
    ContentsConcat([ss[0]], rest);
    Single(ss[0]);
    Single(s);
    if UsedUp(ss, t) {
      ContentsConcat(rest, [s]);
      BlankItems(s);
    } else {
      ContentsConcat([s], rest);
    }
  }

  lemma {:induction false} TakeCounted<T>(ss: seq<Seg<T>>, t: nat, size: nat, n: int, peak: nat)
    requires Shape(ss, t, size) && ss[0].tail != 0 && Counted(ss, size, n, peak)
    ensures ss[0].head < ss[0].tail && ss[0].items[ss[0].head].Some?
    ensures var rs := Dequeued(ss, t);
            && Shape(rs, if UsedUp(ss, t) then t - 1 else t, size) && Counted(rs, size, n - 1, peak)
            && Contents(ss) == [ss[0].items[ss[0].head].value] + Contents(rs)
  {
    TakeShape(ss, t, size);
    hide Contents, Items, Shape, Take, Enough, UsedUp;
    TakeContents(ss, t);
  }

  lemma {:induction false} BlankItems<T>(s: Seg<T>)
    requires Blank(s)
    ensures Items(s) == []
  {
  }

  lemma {:induction false} EmptyContents<T>(ss: seq<Seg<T>>, t: nat, size: nat)
    requires Shape(ss, t, size) && ss[0].tail == 0
    ensures Contents(ss) == []
  {
    hide SegOk;
    BlankContents(ss);
  }

  // ---- the queue in place ------------------------------------------------------------

  class Node<T> {
    var items: seq<Option<T>>
    var head: nat
    var tail: nat
    var next: Node<T>

    constructor (size: nat)
      ensures |items| == size && (forall k | 0 <= k < size :: items[k] == None) && head == 0 && tail == 0 && next == this
    {
      items, head, tail, next := seq(size, _ => None), 0, 0, this;
    }

    ghost function Now(): (s: Seg<T>)
      reads this`items, this`head, this`tail
    {
      Seg(items, head, tail)
    }

    method PutLast(x: T)
      requires tail < |items|
      modifies this`items, this`tail
      ensures Now() == Put(old(Now()), x)
    {
      items := items[tail := Some(x)];
      tail := tail + 1;
    }

    method TakeFirst() returns (x: Option<T>)
      requires head < tail <= |items|
      modifies this`items, this`head, this`tail
      ensures x == old(items[head]) && Now() == Take(old(Now()))
    {
      x := items[head];
      items := items[head := None];
      head := head + 1;
      if head == tail { head, tail := 0, 0; }
    }
  }

  ghost function SegsOf<T>(ring: seq<Node<T>>): (ss: seq<Seg<T>>)
    reads ring
    ensures |ss| == |ring| && forall k | 0 <= k < |ss| :: ss[k] == ring[k].Now()
  {
    if ring == [] then [] else [ring[0].Now()] + SegsOf(ring[1..])
  }

  class SegmentQueue<T> {
    const segmentSize: nat
    var head: Node<T>
    var tail: Node<T>
    var size: int
    ghost var ring: seq<Node<T>>   // from the head on
    ghost var t: nat               // where the tail is in it
    ghost var peak: nat            // the most items ever held

    ghost predicate Linked()
      reads this`head, this`tail, this`ring, this`t, ring
    {
      && |ring| > 0 && t < |ring| && ring[0] == head && ring[t] == tail
      && (forall i, j | 0 <= i < j < |ring| :: ring[i] != ring[j])
      && (forall i | 0 <= i < |ring| - 1 :: ring[i].next == ring[i + 1])
      && ring[|ring| - 1].next == ring[0]
    }

    ghost function Segs(): (ss: seq<Seg<T>>)
      reads this`ring, ring
    {
      SegsOf(ring)
    }

    /** The items in the order they will leave. */
    ghost function Abstract(): (s: seq<T>)
      reads this`ring, ring
    {
      Contents(Segs())
    }

    ghost predicate Valid()
      reads this, ring
    {
      Linked() && Shape(Segs(), t, segmentSize) && Counted(Segs(), segmentSize, size, peak)
    }

    constructor (segmentSize: nat)
      requires segmentSize > 0
      ensures Valid() && Abstract() == [] && fresh(ring) && this.segmentSize == segmentSize && peak == 0
    {
      this.segmentSize := segmentSize;
      var r := new Node(segmentSize);
      head, tail, size := r, r, 0;
      ring, t, peak := [r], 0, 0;
      new;
      assert Segs() == [r.Now()];
      Single(r.Now());
    }

    function Len(): (n: int)
      requires Valid()
      reads this, ring
      ensures n == |Abstract()|
    {
      size
    }

    // ---- the ring itself -------------------------------------------------------------

    lemma {:induction false} Ends()
      requires Linked()
      ensures tail in ring && head in ring && |Segs()| == |ring| && t < |ring|
      ensures Segs()[t] == tail.Now() && Segs()[0] == head.Now()
      ensures tail.next == head <==> t == |ring| - 1
    {
      if t < |ring| - 1 { assert ring[t].next == ring[t + 1] != ring[0]; }
    }

    method PutAtTail(x: T)
      requires Linked() && tail.tail < |tail.items|
      modifies tail`items, tail`tail
      ensures Linked() && Segs() == old(Segs())[t := Put(old(Segs()[t]), x)]
    {
      hide Put;
      ghost var ss := Segs();
      tail.PutLast(x);
      forall k | 0 <= k < |ring| ensures Segs()[k] == ss[t := Put(ss[t], x)][k] {
        if k != t { assert ring[k] != tail; }
      }
    }

    method AdvanceTail()
      requires Linked() && tail.next != head
      modifies this`tail, this`t
      ensures Linked() && t == old(t) + 1 && Segs() == old(Segs())
    {
      hide SegsOf;
      assert t < |ring| - 1;
      tail := tail.next;
      t := t + 1;
    }

    /** A new segment goes in behind the tail. */
    method LinkSegment()
      requires Linked() && tail.next == head
      modifies this`tail, this`t, this`ring, tail`next
      ensures Linked() && t == old(t) + 1 && fresh(tail) && ring == old(ring) + [tail]
      ensures Segs() == old(Segs()) + [tail.Now()]
      ensures Blank(tail.Now()) && |tail.items| == |old(tail).items|
      ensures forall k | 0 <= k < |tail.items| :: tail.items[k].None?
    {
      Ends();
      ghost var ss := Segs();
      var r := new Node(|tail.items|);
      r.next := tail.next;
      tail.next := r;
      ring := ring + [r];
      tail := tail.next;
      t := t + 1;
      forall k | 0 <= k < |ring| ensures Segs()[k] == (ss + [r.Now()])[k] {}
    }

    method TakeItem() returns (x: Option<T>)
      requires Linked() && head.head < head.tail <= |head.items|
      modifies head`items, head`head, head`tail
      ensures Linked() && x == old(head.items[head.head]) && head.Now() == Take(old(head.Now()))
      ensures Segs() == old(Segs())[0 := head.Now()]
    {
      hide Take;
      ghost var ss := Segs();
      x := head.TakeFirst();
      forall k | 0 <= k < |ring| ensures Segs()[k] == ss[0 := head.Now()][k] {
        if k != 0 { assert ring[k] != head; }
      }
    }

    method AdvanceHead()
      requires Linked() && t > 0
      modifies this`head, this`t, this`ring
      ensures Linked() && t == old(t) - 1 && ring == old(ring[1..] + [ring[0]])
      ensures Segs() == old(Segs()[1..] + [Segs()[0]])
    {
      ghost var ss := Segs();
      head := head.next;
      ring := ring[1..] + [ring[0]];
      t := t - 1;
      forall k | 0 <= k < |ring| ensures Segs()[k] == (ss[1..] + [ss[0]])[k] {}
    }

    // ---- the operations --------------------------------------------------------------

    /** Valid, but for a tail segment that may still be blank. */
    ghost predicate Ready()
      reads this, ring
    {
      Linked() && Loose(Segs(), t, segmentSize) && Counted(Segs(), segmentSize, size, peak)
    }

    method Enqueue(x: T)
      requires Valid()
      modifies this, ring
      ensures Valid() && Abstract() == old(Abstract()) + [x]
      ensures peak == if old(peak) < size then size else old(peak)
      ensures forall n | n in ring :: n in old(ring) || fresh(n)
    {
      hide Contents, Linked, Loose, Counted, SegsOf;
      Ends();
      while true
        invariant Ready() && tail in ring
        invariant Abstract() == old(Abstract()) && size == old(size) && peak == old(peak)
        invariant forall n | n in ring :: n in old(ring) || fresh(n)
        decreases tail.tail == segmentSize
      {
        TailNow();
        if tail.tail < |tail.items| {
          Finish(x);
          return;
        }
        if tail.next != head {
          NextSegment();
        } else {
          NewSegment();
        }
      }
    }

    method Finish(x: T)
      requires Ready() && tail.tail < |tail.items|
      modifies this`size, this`peak, tail`items, tail`tail
      ensures Valid() && Abstract() == old(Abstract()) + [x]
      ensures peak == if old(peak) < size then size else old(peak)
    {
      hide Contents, SegOk, Linked, Counted, Put, Loose, Shape, SegsOf;
      TailNow();
      ghost var ss := Segs();
      PutCounted(ss, t, x, segmentSize, size, peak);
      PutAtTail(x);
      size := size + 1;
      if peak < size { peak := size; }
    }

    method NextSegment()
      requires Ready() && tail.tail == segmentSize && tail.next != head
      modifies this`tail, this`t
      ensures Ready() && Abstract() == old(Abstract()) && tail.tail == 0 && tail in ring
    {
      hide Contents, SegOk, Linked, Counted, Loose, SegsOf;
      Ends();
      ghost var ss := Segs();
      AdvanceTail();
      AdvanceLoose(ss, t - 1, segmentSize);
      Ends();
    }

    method NewSegment()
      requires Ready() && tail.tail == segmentSize && tail.next == head
      modifies this`tail, this`t, this`ring, tail`next
      ensures Ready() && Abstract() == old(Abstract()) && tail.tail == 0 && tail in ring
      ensures forall n | n in ring :: n in old(ring) || fresh(n)
    {
      hide Contents, SegOk, Linked, Counted, Loose, SegsOf;
      Ends();
      TailNow();
      ghost var ss := Segs();
      LinkSegment();
      GrowCounted(ss, tail.Now(), segmentSize, size, peak);
      Ends();
    }

    lemma {:induction false} TailNow()
      requires Linked() && Loose(Segs(), t, segmentSize)
      ensures 0 < segmentSize == |tail.items| && tail.tail <= segmentSize && Segs()[t] == tail.Now()
    {
      assert SegOk(Segs()[t], segmentSize);
    }

    method Dequeue() returns (x: Option<T>)
      requires Valid()
      modifies this, ring
      ensures Valid() && peak == old(peak) && |ring| == |old(ring)| && forall n | n in ring :: n in old(ring)
      ensures if old(Abstract()) == [] then x == None && Abstract() == []
              else x == Some(old(Abstract()[0])) && Abstract() == old(Abstract()[1..])
    {
      hide Contents, SegOk, Linked, Counted, Take, Shape, SegsOf, Dequeued, UsedUp;
      Ends();
      HeadNow();
      ghost var ss := Segs();
      if head.tail == 0 {
        EmptyContents(ss, t, segmentSize);
        return None;
      }
      TakeCounted(ss, t, segmentSize, size, peak);
      x := TakeAtHead();
      size := size - 1;
    }

    method TakeAtHead() returns (x: Option<T>)
      requires Linked() && head.head < head.tail <= |head.items|
      modifies this`head, this`t, this`ring, head`items, head`head, head`tail
      ensures Linked() && x == old(head.items[head.head])
      ensures |Segs()| > 0 && old(Segs()[0]) == old(head.Now()) && Segs() == Dequeued(old(Segs()), old(t))
      ensures t == if UsedUp(old(Segs()), old(t)) then old(t) - 1 else old(t)
      ensures |ring| == |old(ring)| && forall n | n in ring :: n in old(ring)
    {
      hide Linked, Take, SegsOf, Dequeued, UsedUp;
      Ends();
      ghost var ss := Segs();
      x := TakeItem();
      TakenFirst(ss, t);
      TailElsewhere();
      if head.tail == 0 && head != tail { AdvanceHead(); }
    }

    lemma {:induction false} TailElsewhere()
      requires Linked()
      ensures head != tail <==> t > 0
    {
    }

    lemma {:induction false} HeadNow()
      requires Valid()
      ensures |head.items| == segmentSize && (head.tail == 0 || head.head < head.tail <= segmentSize)
    {
      assert SegOk(Segs()[0], segmentSize);
    }
  }

  lemma {:induction false} TakenFirst<T>(ss: seq<Seg<T>>, t: nat)
    requires |ss| > 0 && ss[0].head < ss[0].tail <= |ss[0].items|
    ensures var rs := ss[0 := Take(ss[0])];
            Dequeued(ss, t) == if UsedUp(ss, t) then rs[1..] + [rs[0]] else rs
    ensures UsedUp(ss, t) <==> Take(ss[0]).tail == 0 && t > 0
  {
  }
}
