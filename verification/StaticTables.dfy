/** The tables of the static `TABLES`, back to back as its declaration lays them out, are placed as
    everything else assumes. */
module StaticTables {
  import opened Descriptors
  import opened TableTree
  import opened TableBuilder

  const NUMBERS: seq<bv64> := [0, 1, 2, 3, 4, 5, 6, 7, 8, 9, 10, 11, 12, 13]

  /** The n-th granule from base. */
  function Slot(base: bv64, n: bv64): bv64 { base + (n << 14) }

  function Slots(base: bv64, ns: seq<bv64>): (s: seq<bv64>)
    ensures |s| == |ns|
  {
    if ns == [] then [] else [Slot(base, ns[0])] + Slots(base, ns[1..])
  }

  function TablesAt(base: bv64): Tables {
    var s := Slots(base, NUMBERS);
    Tables(s[0], s[1], s[2], s[3], s[4], s[5], s[6..14], base, Slot(base, 14))
  }

  lemma {:induction false} SlotsAt(base: bv64, ns: seq<bv64>, j: nat)
    requires j < |ns|
    ensures Slots(base, ns)[j] == Slot(base, ns[j])
  {
    hide Slot;
    if j > 0 { SlotsAt(base, ns[1..], j - 1); }
  }

  lemma SlotInside(base: bv64, n: bv64)
    requires base & 0x3FFF == 0 && base <= 0x0000_FFFF_FFFC_0000 && n < 14
    ensures base <= base + (n << 14) < base + (14 << 14)
    ensures (base + (n << 14)) & 0x3FFF == 0 && (base + (n << 14)) & 0x0000_FFFF_FFFF_FFFF == base + (n << 14)
  {
  }

  lemma SlotsApart(base: bv64, n: bv64, m: bv64)
    requires n < 14 && m < 14 && n != m
    ensures base + (n << 14) != base + (m << 14)
  {
  }

  lemma Apart(base: bv64, n: bv64, m: bv64)
    requires n < 14 && m < 14 && n != m
    ensures Slot(base, n) != Slot(base, m)
  {
    SlotsApart(base, n, m);
  }

  lemma SlotIs(base: bv64, n: bv64)
    ensures Slot(base, n) == base + (n << 14)
  {
  }

  lemma RawBounds(base: bv64, n: bv64)
    requires base & 0x3FFF == 0 && base <= 0x0000_FFFF_FFFC_0000 && n < 14
    ensures Le(base, base + (n << 14)) && Lt(base + (n << 14), base + (14 << 14))
  {
    SlotInside(base, n);
  }

  lemma SlotBounds(base: bv64, n: bv64)
    requires base & 0x3FFF == 0 && base <= 0x0000_FFFF_FFFC_0000 && n < 14
    ensures Le(base, Slot(base, n)) && Lt(Slot(base, n), Slot(base, 14))
  {
    hide Slot, Lt, Le;
    RawBounds(base, n);
    SlotIs(base, n);
    SlotIs(base, 14);
  }

  lemma SlotAligned(base: bv64, n: bv64)
    requires base & 0x3FFF == 0 && base <= 0x0000_FFFF_FFFC_0000 && n < 14
    ensures PageAligned(Slot(base, n))
  {
    SlotInside(base, n);
  }

  lemma SmallLiterals()
    ensures Lt(0, 14) && Lt(1, 14) && Lt(2, 14) && Lt(3, 14) && Lt(4, 14) && Lt(5, 14) && Lt(6, 14) && Lt(7, 14)
    ensures Lt(8, 14) && Lt(9, 14) && Lt(10, 14) && Lt(11, 14) && Lt(12, 14) && Lt(13, 14)
  {
  }

  lemma SmallNumber(j: nat)
    requires j < 14
    ensures Lt(NUMBERS[j], 14)
  {
    hide Lt;
    SmallLiterals();
  }

  lemma Small(j: nat)
    requires j < 14
    ensures NUMBERS[j] < 14
  {
    SmallNumber(j);
  }

  lemma Different(j: nat, k: nat)
    requires j < k < 14
    ensures NUMBERS[j] != NUMBERS[k]
  {
  }

  lemma {:induction false} InsideAt(base: bv64, j: nat)
    requires Aligned(base) && base <= 0x0000_FFFF_FFFC_0000 && j < 14
    ensures Inside(TablesAt(base), Slots(base, NUMBERS)[j])
  {
    hide Slot, PageAligned, Slots, TablesAt, Lt, Le;
    AllSlots(base);
    SlotsAt(base, NUMBERS, j);
    Small(j);
    SlotBounds(base, NUMBERS[j]);
    SlotAligned(base, NUMBERS[j]);
  }

  lemma {:induction false} ApartAt(base: bv64, j: nat, k: nat)
    requires j < k < 14
    ensures Slots(base, NUMBERS)[j] != Slots(base, NUMBERS)[k]
  {
    hide Slot;
    SlotsAt(base, NUMBERS, j);
    SlotsAt(base, NUMBERS, k);
    Small(j);
    Small(k);
    Different(j, k);
    Apart(base, NUMBERS[j], NUMBERS[k]);
  }

  lemma {:induction false} AllSlots(base: bv64)
    ensures Fixed(TablesAt(base)) + TablesAt(base).runtime == Slots(base, NUMBERS)
    ensures |TablesAt(base).runtime| == 8 && TablesAt(base).start == base && TablesAt(base).end == Slot(base, 14)
  {
    hide Slot, Slots;
    assert |NUMBERS| == 14;
  }

  /** Any granule-aligned place below 2^48 will do for the static. */
  lemma StaticIsPlaced(base: bv64)
    requires Aligned(base) && base <= 0x0000_FFFF_FFFC_0000
    ensures Placed(TablesAt(base))
  {
    hide Slot, Slots, TablesAt, Aligned, PageAligned, Fixed, Inside;
    var t, s := TablesAt(base), Slots(base, NUMBERS);
    AllSlots(base);
    assert |s| == 14 by { CountSlots(base); }
    forall j | 0 <= j < 14 ensures Inside(t, s[j]) {
      InsideAt(base, j);
    }
    forall j, k | 0 <= j < k < 14 ensures s[j] != s[k] {
      ApartAt(base, j, k);
    }
  }

  lemma {:induction false} CountSlots(base: bv64)
    ensures |Slots(base, NUMBERS)| == 14
  {
  }
}
