/**
 How an event group keeps its sets of bits and its waiters in 32-bit words (event_groups.c):
 24 event bits, and control bits above them in the event list items of waiting tasks.
 */
module EventWords {
  import opened EventBits

  type Word = bv32

  const CLEAR_EVENTS_ON_EXIT_BIT: Word := 0x0100_0000
  const UNBLOCKED_DUE_TO_BIT_SET: Word := 0x0200_0000
  const WAIT_FOR_ALL_BITS: Word := 0x0400_0000
  const CONTROL_BYTES: Word := 0xFF00_0000

  /** The word with event bit b alone. */
  function Mask(b: nat): Word {
    if b == 0 then 1 else Mask(b - 1) << (1 as bv6)
  }

  /** The words have a bit in common. */
  predicate Meets(v: Word, m: Word) {
    v & m != 0
  }

  predicate Has(v: Word, b: nat)
    requires b < 24
  {
    Meets(v, Mask(b))
  }

  /** The event bits of a word. */
  function BitsIn(v: Word): Bits {
    set b: nat | b < 24 && Has(v, b)
  }

  predicate IsEvents(v: Word) {
    v & CONTROL_BYTES == 0
  }

  // ---------- Sets of bits as words ----------

  lemma NextMask(b: nat)
    requires b > 0
    ensures Mask(b) == Mask(b - 1) << (1 as bv6)
  {
  }

  lemma Masks()
    ensures Mask(0) == 0x1
    ensures Mask(1) == 0x2 && Mask(2) == 0x4 && Mask(3) == 0x8 && Mask(4) == 0x10
    ensures Mask(5) == 0x20 && Mask(6) == 0x40 && Mask(7) == 0x80 && Mask(8) == 0x100
    ensures Mask(9) == 0x200 && Mask(10) == 0x400 && Mask(11) == 0x800 && Mask(12) == 0x1000
    ensures Mask(13) == 0x2000 && Mask(14) == 0x4000 && Mask(15) == 0x8000 && Mask(16) == 0x10000
    ensures Mask(17) == 0x20000 && Mask(18) == 0x40000 && Mask(19) == 0x80000 && Mask(20) == 0x100000
    ensures Mask(21) == 0x200000 && Mask(22) == 0x400000 && Mask(23) == 0x800000
  {
    assert Mask(0) == 1;
    hide Mask;
    NextMask(1);
    NextMask(2);
    NextMask(3);
    NextMask(4);
    NextMask(5);
    NextMask(6);
    NextMask(7);
    NextMask(8);
    NextMask(9);
    NextMask(10);
    NextMask(11);
    NextMask(12);
    NextMask(13);
    NextMask(14);
    NextMask(15);
    NextMask(16);
    NextMask(17);
    NextMask(18);
    NextMask(19);
    NextMask(20);
    NextMask(21);
    NextMask(22);
    NextMask(23);
  }

  /** A word none of whose event bits is set. */
  lemma NoBits(x: Word)
    requires IsEvents(x) && forall b: nat :: b < 24 ==> !Has(x, b)
    ensures x == 0
  {
    hide Mask;
    Masks();
    assert !Has(x, 0) && !Has(x, 1) && !Has(x, 2) && !Has(x, 3) && !Has(x, 4) && !Has(x, 5);
    assert !Has(x, 6) && !Has(x, 7) && !Has(x, 8) && !Has(x, 9) && !Has(x, 10) && !Has(x, 11);
    assert !Has(x, 12) && !Has(x, 13) && !Has(x, 14) && !Has(x, 15) && !Has(x, 16) && !Has(x, 17);
    assert !Has(x, 18) && !Has(x, 19) && !Has(x, 20) && !Has(x, 21) && !Has(x, 22) && !Has(x, 23);
    NoBit(x);
  }

  lemma NoBit(x: Word)
    requires IsEvents(x)
    requires x & 0x1 == 0 && x & 0x2 == 0 && x & 0x4 == 0 && x & 0x8 == 0
    requires x & 0x10 == 0 && x & 0x20 == 0 && x & 0x40 == 0 && x & 0x80 == 0
    requires x & 0x100 == 0 && x & 0x200 == 0 && x & 0x400 == 0 && x & 0x800 == 0
    requires x & 0x1000 == 0 && x & 0x2000 == 0 && x & 0x4000 == 0 && x & 0x8000 == 0
    requires x & 0x10000 == 0 && x & 0x20000 == 0 && x & 0x40000 == 0 && x & 0x80000 == 0
    requires x & 0x100000 == 0 && x & 0x200000 == 0 && x & 0x400000 == 0 && x & 0x800000 == 0
    ensures x == 0
  {
  }

  /** A word with one bit. */
  predicate Single(m: Word) {
    m != 0 && m & (m - 1) == 0
  }

  lemma MaskIsSingle(b: nat)
    requires b < 24
    ensures Single(Mask(b))
  {
    hide Mask;
    Masks();
  }

  lemma HasAnd(v: Word, w: Word, b: nat)
    requires b < 24
    ensures Has(v & w, b) <==> Has(v, b) && Has(w, b)
  {
    hide Mask, Meets, Single;
    MaskIsSingle(b);
    AndMasked(v, w, Mask(b));
  }

  lemma AndMasked(v: Word, w: Word, m: Word)
    requires Single(m)
    ensures Meets(v & w, m) <==> Meets(v, m) && Meets(w, m)
  {
  }

  lemma HasOr(v: Word, w: Word, b: nat)
    requires b < 24
    ensures Has(v | w, b) <==> Has(v, b) || Has(w, b)
  {
    hide Mask, Meets;
    OrMasked(v, w, Mask(b));
  }

  lemma OrMasked(v: Word, w: Word, m: Word)
    ensures Meets(v | w, m) <==> Meets(v, m) || Meets(w, m)
  {
    var x, y := v & m, w & m;
    OrDistributes(v, w, m);
    OrZero(x, y);
  }

  lemma OrDistributes(v: Word, w: Word, m: Word)
    ensures (v | w) & m == (v & m) | (w & m)
  {
  }

  lemma OrZero(x: Word, y: Word)
    ensures x | y == 0 ==> x == 0 && y == 0
  {
  }

  lemma HasMinus(v: Word, w: Word, b: nat)
    requires b < 24
    ensures Has(v & !w, b) <==> Has(v, b) && !Has(w, b)
  {
    hide Mask, Meets, Single;
    MaskIsSingle(b);
    MinusMasked(v, w, Mask(b));
  }

  lemma MinusMasked(v: Word, w: Word, m: Word)
    requires Single(m)
    ensures Meets(v & !w, m) <==> Meets(v, m) && !Meets(w, m)
  {
    if v & m == 0 {
      Without(v, w, m);
    } else if w & m == 0 {
      StillWith(v, w, m);
    } else {
      AllOfIt(w, m);
      Taken(v, w, m);
    }
  }

  lemma AllOfIt(w: Word, m: Word)
    requires Single(m) && w & m != 0
    ensures w & m == m
  {
  }

  lemma Without(v: Word, w: Word, m: Word)
    requires v & m == 0
    ensures (v & !w) & m == 0
  {
  }

  lemma StillWith(v: Word, w: Word, m: Word)
    requires w & m == 0
    ensures (v & !w) & m == v & m
  {
  }

  lemma Taken(v: Word, w: Word, m: Word)
    requires w & m == m
    ensures (v & !w) & m == 0
  {
  }

  /** The operations of the code on words are those of the model on sets. */
  lemma WordUnion(v: Word, w: Word)
    ensures BitsIn(v | w) == BitsIn(v) + BitsIn(w)
  {
    hide Has;
    forall b: nat | b < 24 ensures Has(v | w, b) <==> Has(v, b) || Has(w, b) {
      HasOr(v, w, b);
    }
  }

  lemma WordIntersection(v: Word, w: Word)
    ensures BitsIn(v & w) == BitsIn(v) * BitsIn(w)
  {
    hide Has;
    forall b: nat | b < 24 ensures Has(v & w, b) <==> Has(v, b) && Has(w, b) {
      HasAnd(v, w, b);
    }
  }

  lemma WordDifference(v: Word, w: Word)
    ensures BitsIn(v & !w) == BitsIn(v) - BitsIn(w)
  {
    hide Has;
    forall b: nat | b < 24 ensures Has(v & !w, b) <==> Has(v, b) && !Has(w, b) {
      HasMinus(v, w, b);
    }
  }

  /** A word of event bits is zero exactly when it stands for no bits. */
  lemma ZeroIsEmpty(v: Word)
    requires IsEvents(v)
    ensures v == 0 <==> BitsIn(v) == {}
  {
    hide Mask;
    if BitsIn(v) == {} {
      forall b: nat | b < 24 ensures !Has(v, b) {
        assert b !in BitsIn(v);
      }
      NoBits(v);
    }
  }

  lemma AndIsSame(v: Word, w: Word)
    requires v & w == w
    ensures w & !v == 0
  {
  }

  lemma SameIsAnd(v: Word, w: Word)
    requires w & !v == 0
    ensures v & w == w
  {
  }

  lemma AndIsEvents(v: Word, w: Word)
    requires IsEvents(w)
    ensures IsEvents(v & w)
  {
  }

  lemma MinusIsEvents(v: Word, w: Word)
    requires IsEvents(w)
    ensures IsEvents(w & !v)
  {
  }

  lemma AllWanted(current: Word, bits: Word)
    requires IsEvents(bits)
    ensures current & bits == bits <==> BitsIn(bits) <= BitsIn(current)
  {
    hide BitsIn, IsEvents;
    var missing := bits & !current;
    MinusIsEvents(current, bits);
    WordDifference(bits, current);
    ZeroIsEmpty(missing);
    if missing == 0 {
      SameIsAnd(current, bits);
    } else if current & bits == bits {
      AndIsSame(current, bits);
    }
    NothingMissing(BitsIn(bits), BitsIn(current));
  }

  lemma NothingMissing(wanted: Bits, there: Bits)
    ensures wanted - there == {} <==> wanted <= there
  {
    if wanted - there == {} {
      forall b | b in wanted ensures b in there {
        assert b !in wanted - there;
      }
    }
  }

  lemma AnyWanted(current: Word, bits: Word)
    requires IsEvents(bits)
    ensures current & bits != 0 <==> BitsIn(current) * BitsIn(bits) != {}
  {
    hide BitsIn, IsEvents;
    var common := current & bits;
    AndIsEvents(current, bits);
    WordIntersection(current, bits);
    ZeroIsEmpty(common);
  }

  /** prvTestWaitCondition as it is written, on words: the condition of the model. */
  lemma WordCondition(current: Word, bits: Word, all: bool)
    requires IsEvents(bits)
    ensures (if all then current & bits == bits else current & bits != 0) <==> Met(BitsIn(current), BitsIn(bits), all)
  {
    hide BitsIn, IsEvents;
    if all {
      AllWanted(current, bits);
    } else {
      AnyWanted(current, bits);
    }
  }

  // ---------- Event list item values ----------

  /** The value stored for a waiting task. */
  function Packed(bits: Word, all: bool, clear: bool): Word {
    bits | (if clear then CLEAR_EVENTS_ON_EXIT_BIT else 0) | (if all then WAIT_FOR_ALL_BITS else 0)
  }

  /** What xEventGroupSetBits takes a stored value for. */
  function Unpacked(task: Task, value: Word): Waiter {
    var control := value & CONTROL_BYTES;
    Waiter(task, BitsIn(value & !CONTROL_BYTES), control & WAIT_FOR_ALL_BITS != 0,
        control & CLEAR_EVENTS_ON_EXIT_BIT != 0)
  }

  lemma PackedSplits(bits: Word, all: bool, clear: bool)
    requires IsEvents(bits)
    ensures var control := Packed(bits, all, clear) & CONTROL_BYTES;
            && Packed(bits, all, clear) & !CONTROL_BYTES == bits
            && (control & WAIT_FOR_ALL_BITS == 0 <==> !all) && (control & CLEAR_EVENTS_ON_EXIT_BIT == 0 <==> !clear)
            && Packed(bits, all, clear) & UNBLOCKED_DUE_TO_BIT_SET == 0
  {
  }

  /** The stored value is the waiter of the model, and is not taken for a release. */
  lemma StoredWaiter(task: Task, bits: Word, all: bool, clear: bool)
    requires IsEvents(bits)
    ensures Unpacked(task, Packed(bits, all, clear)) == Waiter(task, BitsIn(bits), all, clear)
    ensures Packed(bits, all, clear) & UNBLOCKED_DUE_TO_BIT_SET == 0
  {
    hide BitsIn, Packed;
    PackedSplits(bits, all, clear);
  }

  /** The value stored at a release is told from a waiting one, and gives back the event bits. */
  lemma StoredRelease(bits: Word)
    requires IsEvents(bits)
    ensures (bits | UNBLOCKED_DUE_TO_BIT_SET) & UNBLOCKED_DUE_TO_BIT_SET != 0
    ensures (bits | UNBLOCKED_DUE_TO_BIT_SET) & !CONTROL_BYTES == bits
  {
  }
}
