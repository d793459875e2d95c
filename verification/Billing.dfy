/** The bill of a performance: every slot is charged, a vacant one at the default fee of its kind. */
module Billing {
  import opened Positions
  import opened Tables
  import opened CastDiff
  import opened CastSave
  import opened SetupChange
  import opened SelfService
  import opened FormData
  import opened Store
  import opened Invariant
  import opened Preservation
  import opened Regulars
  import opened Runs

  datatype Prices = Prices(instrument: int, voice: int, choirjob: int, extracost: Option<int>)
  {
    function Default(kind: PositionType): int {
      match kind
      case Instruments => instrument
      case Voices => voice
      case Choirjobs => choirjob
    }

    function Extra(): int {
      if extracost.Some? then extracost.value else 0
    }
  }

  // ---- the bill as it is computed -----------------------------------------------------------

  /** What slot number i of a position costs. */
  function PriceAt(cast: seq<CastEntry>, i: nat, defaultFee: int): int {
    if i < |cast| then cast[i].fee else defaultFee
  }

  function ItemBill(quantity: nat, cast: seq<CastEntry>, defaultFee: int): int {
    if quantity == 0 then 0 else ItemBill(quantity - 1, cast, defaultFee) + PriceAt(cast, quantity - 1, defaultFee)
  }

  function TypeBill(rows: seq<Booking>, p: PerfId, items: seq<SetupItem>, defaultFee: int): int {
    if items == [] then 0
    else
      var item := items[|items| - 1];
      TypeBill(rows, p, items[..|items| - 1], defaultFee)
        + ItemBill(item.quantity, CastOf(rows, Slot(p, item.key)), defaultFee)
  }

  function Capacity(items: seq<SetupItem>): nat {
    if items == [] then 0 else Capacity(items[..|items| - 1]) + items[|items| - 1].quantity
  }

  function ElementsOf(catalog: Catalog, kind: PositionType): seq<ElementId> {
    match kind
    case Instruments => catalog.instruments
    case Voices => catalog.voices
    case Choirjobs => catalog.choirjobs
  }

  /** One bucket of the setup. */
  function SetupOf(st: State, p: PerfId, kind: PositionType): seq<SetupItem> {
    ItemsAmong(KeysOfKind(kind, ElementsOf(st.catalog, kind)), st.quantities, p)
  }

  /** The tiers replace, not add to, each other. */
  function OrgFee(instrumentCount: nat, choirjobCount: nat): (fee: nat)
    ensures fee == (if instrumentCount == 0 then 0 else if instrumentCount <= 12 then 30 else 55)
                   + (if choirjobCount == 0 then 0 else 15)
  {
    var instruments := if instrumentCount > 12 then 55 else if instrumentCount > 0 then 30 else 0;
    var choirjobs := if choirjobCount > 0 then 15 else 0;
    instruments + choirjobs
  }

  function KindBill(st: State, p: PerfId, prices: Prices, kind: PositionType): int {
    TypeBill(st.tables.bookings, p, SetupOf(st, p, kind), prices.Default(kind))
  }

  function Bill(st: State, p: PerfId, prices: Prices): int {
    KindBill(st, p, prices, Instruments) + KindBill(st, p, prices, Voices) + KindBill(st, p, prices, Choirjobs)
    + OrgFee(Capacity(SetupOf(st, p, Instruments)), Capacity(SetupOf(st, p, Choirjobs))) + prices.Extra()
  }

  /** The cast arrives cut off at the quantity; that makes no difference. */
  lemma {:induction false} TruncatedBill(quantity: nat, cast: seq<CastEntry>, n: nat, defaultFee: int)
    requires quantity <= n
    ensures ItemBill(quantity, cast[..Min(|cast|, n)], defaultFee) == ItemBill(quantity, cast, defaultFee)
  {
    if quantity > 0 {
      TruncatedBill(quantity - 1, cast, n, defaultFee);
    }
  }

  method BillingByItem(quantity: nat, cast: seq<CastEntry>, defaultFee: int)
    returns (positions: seq<(Option<UserId>, int)>, total: int)
    ensures |positions| == quantity && total == ItemBill(quantity, cast, defaultFee)
    ensures forall i :: 0 <= i < quantity ==>
              positions[i] == if i < |cast| then (Some(cast[i].user), cast[i].fee as int) else (None, defaultFee)
  {
    positions, total := [], 0;
    for index := 0 to quantity
      invariant |positions| == index && total == ItemBill(index, cast, defaultFee)
      invariant forall i :: 0 <= i < index ==>
                  positions[i] == if i < |cast| then (Some(cast[i].user), cast[i].fee as int) else (None, defaultFee)
    {
      if index < |cast| {
        positions := positions + [(Some(cast[index].user), cast[index].fee as int)];
        total := total + cast[index].fee;
      } else {
        positions := positions + [(None, defaultFee)];
        total := total + defaultFee;
      }
    }
  }

  /** The cast lists of the positions, each cut off at its quantity. */
  ghost predicate Truncated(rows: seq<Booking>, p: PerfId, items: seq<SetupItem>,
                            casts: map<PositionKey, seq<CastEntry>>) {
    forall i :: 0 <= i < |items| ==>
      var full := CastOf(rows, Slot(p, items[i].key));
      items[i].key in casts && casts[items[i].key] == full[..Min(|full|, items[i].quantity)]
  }

  method TruncateCast(rows: seq<Booking>, p: PerfId, items: seq<SetupItem>, buckets: map<PositionKey, seq<Booking>>)
    returns (casts: map<PositionKey, seq<CastEntry>>)
    requires NoDup(Keys(items))
    requires forall key :: Bucket(buckets, key) == SortByOrder(At(rows, Slot(p, key)))
    ensures Truncated(rows, p, items, casts)
  {
    casts := map[];
    for i := 0 to |items|
      invariant Truncated(rows, p, items[..i], casts)
    {
      var full := Entries(Bucket(buckets, items[i].key));
      assert full == CastOf(rows, Slot(p, items[i].key));
      TruncatedStep(rows, p, items, i, casts);
      casts := casts[items[i].key := full[..Min(|full|, items[i].quantity)]];
    }
    assert items[..|items|] == items;
  }

  lemma {:induction false} TruncatedStep(rows: seq<Booking>, p: PerfId, items: seq<SetupItem>, i: nat,
                                         casts: map<PositionKey, seq<CastEntry>>)
    requires i < |items| && NoDup(Keys(items)) && Truncated(rows, p, items[..i], casts)
    ensures var full := CastOf(rows, Slot(p, items[i].key));
            Truncated(rows, p, items[..i + 1], casts[items[i].key := full[..Min(|full|, items[i].quantity)]])
  {
    forall j | 0 <= j < i ensures items[j].key != items[i].key && items[..i][j] == items[j] {
      NoDupPair(Keys(items), j, i);
    }
  }

  method BillingByType(ghost rows: seq<Booking>, ghost p: PerfId, items: seq<SetupItem>,
                       casts: map<PositionKey, seq<CastEntry>>, defaultFee: int)
    returns (sum: int, count: nat)
    requires Truncated(rows, p, items, casts)
    ensures sum == TypeBill(rows, p, items, defaultFee) && count == Capacity(items)
  {
    sum, count := 0, 0;
    for i := 0 to |items|
      invariant sum == TypeBill(rows, p, items[..i], defaultFee) && count == Capacity(items[..i])
    {
      var item := items[i];
      assert items[..i + 1][..i] == items[..i];
      var positions, billed := BillingByItem(item.quantity, casts[item.key], defaultFee);
      TruncatedBill(item.quantity, CastOf(rows, Slot(p, item.key)), item.quantity, defaultFee);
      sum, count := sum + billed, count + item.quantity;
    }
    assert items[..|items|] == items;
  }

  method BillKind(st: State, p: PerfId, prices: Prices, kind: PositionType) returns (sum: int, count: nat)
    requires References(st)
    ensures sum == KindBill(st, p, prices, kind) && count == Capacity(SetupOf(st, p, kind))
  {
    var items := SetupOf(st, p, kind);
    KindKeys(st, kind);
    ItemsAmongOk(KeysOfKind(kind, ElementsOf(st.catalog, kind)), st.quantities, p);
    var buckets := BucketByPosition(st.tables.bookings, p);
    var casts := TruncateCast(st.tables.bookings, p, items, buckets);
    sum, count := BillingByType(st.tables.bookings, p, items, casts, prices.Default(kind));
  }

  method GetBilling(st: State, p: PerfId, prices: Prices) returns (total: int)
    requires References(st)
    ensures total == Bill(st, p, prices)
  {
    var instruments, instrumentCount := BillKind(st, p, prices, Instruments);
    var voices, voiceCount := BillKind(st, p, prices, Voices);
    var choirjobs, choirjobCount := BillKind(st, p, prices, Choirjobs);
    total := instruments + voices + choirjobs + OrgFee(instrumentCount, choirjobCount) + prices.Extra();
  }

  // ---- what it amounts to -------------------------------------------------------------------

  /** Fees and number of regular bookings of one kind, counted straight from the rows. */
  datatype Tally = Tally(fees: int, regulars: int)
  {
    function Plus(t: Tally): Tally {
      Tally(fees + t.fees, regulars + t.regulars)
    }
  }

  function Contribution(b: Booking, qs: Quantities): Tally {
    if b.order < QuantityAt(qs, b.slot) then Tally(b.fee, 1) else Tally(0, 0)
  }

  function RegularTally(rows: seq<Booking>, qs: Quantities, p: PerfId, kind: PositionType): Tally {
    if rows == [] then Tally(0, 0)
    else
      var b := rows[|rows| - 1];
      RegularTally(rows[..|rows| - 1], qs, p, kind).Plus(
        if b.slot.perf == p && b.slot.key.kind == kind then Contribution(b, qs) else Tally(0, 0))
  }

  function SlotTally(rows: seq<Booking>, qs: Quantities, slot: Slot): Tally {
    if rows == [] then Tally(0, 0)
    else
      var b := rows[|rows| - 1];
      SlotTally(rows[..|rows| - 1], qs, slot).Plus(if b.slot == slot then Contribution(b, qs) else Tally(0, 0))
  }

  function ItemsTally(rows: seq<Booking>, qs: Quantities, p: PerfId, items: seq<SetupItem>): Tally {
    if items == [] then Tally(0, 0)
    else ItemsTally(rows, qs, p, items[..|items| - 1]).Plus(SlotTally(rows, qs, Slot(p, items[|items| - 1].key)))
  }

  lemma {:induction false} ItemsTallyNone(qs: Quantities, p: PerfId, items: seq<SetupItem>)
    ensures ItemsTally([], qs, p, items) == Tally(0, 0)
  {
    if items != [] {
      ItemsTallyNone(qs, p, items[..|items| - 1]);
    }
  }

  /** One row counts towards exactly one position. */
  lemma {:induction false} ItemsTallySnoc(rows: seq<Booking>, qs: Quantities, p: PerfId, items: seq<SetupItem>)
    requires rows != [] && NoDup(Keys(items))
    ensures var b := rows[|rows| - 1];
            ItemsTally(rows, qs, p, items)
            == ItemsTally(rows[..|rows| - 1], qs, p, items).Plus(
                 if b.slot.perf == p && b.slot.key in Keys(items) then Contribution(b, qs) else Tally(0, 0))
  {
    if items != [] {
      var init, last := items[..|items| - 1], items[|items| - 1];
      assert Keys(items) == Keys(init) + [last.key] && Keys(items)[..|init|] == Keys(init);
      ItemsTallySnoc(rows, qs, p, init);
      assert rows[|rows| - 1].slot.perf == p ==> rows[|rows| - 1].slot == Slot(p, rows[|rows| - 1].slot.key);
    }
  }

  /** Position by position or row by row: the same bookings are counted. */
  lemma {:induction false} TalliesAgree(rows: seq<Booking>, qs: Quantities, p: PerfId, kind: PositionType,
                                        items: seq<SetupItem>)
    requires NoDup(Keys(items))
    requires forall b :: b in rows && b.slot.perf == p ==> (b.slot.key.kind == kind <==> b.slot.key in Keys(items))
    ensures ItemsTally(rows, qs, p, items) == RegularTally(rows, qs, p, kind)
  {
    if rows == [] {
      ItemsTallyNone(qs, p, items);
    } else {
      ItemsTallySnoc(rows, qs, p, items);
      assert rows[|rows| - 1] in rows;
      TalliesAgree(rows[..|rows| - 1], qs, p, kind, items);
    }
  }

  lemma {:induction false} SlotTallyAt(rows: seq<Booking>, qs: Quantities, slot: Slot)
    ensures SlotTally(rows, qs, slot) == SlotTally(At(rows, slot), qs, slot)
  {
    if rows != [] {
      var init, last := rows[..|rows| - 1], rows[|rows| - 1];
      SlotTallyAt(init, qs, slot);
      if last.slot == slot {
        assert At(rows, slot)[..|At(init, slot)|] == At(init, slot);
      } else {
        assert At(rows, slot) == At(init, slot);
      }
    }
  }

  lemma {:induction false} ItemBillPrefix(quantity: nat, cast: seq<CastEntry>, longer: seq<CastEntry>, defaultFee: int)
    requires quantity <= |cast| <= |longer| && forall i :: 0 <= i < |cast| ==> longer[i] == cast[i]
    ensures ItemBill(quantity, longer, defaultFee) == ItemBill(quantity, cast, defaultFee)
  {
    if quantity > 0 {
      ItemBillPrefix(quantity - 1, cast, longer, defaultFee);
    }
  }

  /** The slots no regular booking takes cost the default fee each. */
  function Vacancies(slots: int, regulars: int, defaultFee: int): int {
    (slots - regulars) * defaultFee
  }

  lemma {:induction false} Distribute(a: int, b: int, c: int)
    ensures (a + b) * c == a * c + b * c
  {
  }

  lemma {:induction false} VacanciesAdd(slots: int, regulars: int, moreSlots: int, moreRegulars: int, allSlots: int,
                                        allRegulars: int, fee: int)
    requires allSlots == slots + moreSlots && allRegulars == regulars + moreRegulars
    ensures Vacancies(slots, regulars, fee) + Vacancies(moreSlots, moreRegulars, fee)
            == Vacancies(allSlots, allRegulars, fee)
  {
    Distribute(slots - regulars, moreSlots - moreRegulars, fee);
  }

  lemma {:induction false} VacantSlots(quantity: nat, cast: seq<CastEntry>, defaultFee: int)
    ensures var taken := Min(|cast|, quantity);
            ItemBill(quantity, cast, defaultFee)
            == ItemBill(taken, cast, defaultFee) + Vacancies(quantity, taken, defaultFee)
  {
    if |cast| < quantity {
      VacantSlots(quantity - 1, cast, defaultFee);
      Distribute(quantity - 1 - |cast|, 1, defaultFee);
    }
  }

  /** If no row from the one at k on is regular, at most k are. */
  lemma {:induction false} SlotCountBelow(rows: seq<Booking>, qs: Quantities, slot: Slot, k: nat)
    requires k <= |rows| && forall i :: 0 <= i < |rows| ==> rows[i].slot == slot
    requires forall i :: k <= i < |rows| ==> rows[i].order >= QuantityAt(qs, slot)
    ensures SlotTally(rows, qs, slot).regulars <= k
  {
    if rows != [] {
      SlotCountBelow(rows[..|rows| - 1], qs, slot, if k < |rows| then k else |rows| - 1);
    }
  }

  /** If the regular rows are exactly the first ones, their fees are what the bill charges for as many slots. */
  lemma {:induction false} SlotBill(rows: seq<Booking>, qs: Quantities, slot: Slot, defaultFee: int)
    requires forall i :: 0 <= i < |rows| ==>
               rows[i].slot == slot && (rows[i].order < QuantityAt(qs, slot) <==> i < QuantityAt(qs, slot))
    ensures SlotTally(rows, qs, slot).regulars == Min(|rows|, QuantityAt(qs, slot))
    ensures SlotTally(rows, qs, slot).fees == ItemBill(Min(|rows|, QuantityAt(qs, slot)), Entries(rows), defaultFee)
  {
    if rows != [] {
      var n, quantity := |rows| - 1, QuantityAt(qs, slot);
      SlotBill(rows[..n], qs, slot, defaultFee);
      ItemBillPrefix(Min(n, quantity), Entries(rows[..n]), Entries(rows), defaultFee);
      if n < quantity {
        assert ItemBill(n + 1, Entries(rows), defaultFee) == ItemBill(n, Entries(rows), defaultFee) + rows[n].fee;
      }
    }
  }

  /** What the bill of a position exceeds its regular bookings and its vacancies by. */
  function ItemExcess(rows: seq<Booking>, qs: Quantities, slot: Slot, defaultFee: int): int {
    var (t, quantity) := (SlotTally(rows, qs, slot), QuantityAt(qs, slot));
    ItemBill(quantity, CastOf(rows, slot), defaultFee) - t.fees - Vacancies(quantity, t.regulars, defaultFee)
  }

  /** The slots of a position that are charged to a booking. */
  function Charged(rows: seq<Booking>, qs: Quantities, slot: Slot): nat {
    Min(|CastOf(rows, slot)|, QuantityAt(qs, slot))
  }

  /** One more in the default fee is one more for every vacant slot. */
  lemma {:induction false} ItemSlope(quantity: nat, cast: seq<CastEntry>, defaultFee: int)
    ensures ItemBill(quantity, cast, defaultFee + 1)
            == ItemBill(quantity, cast, defaultFee) + quantity - Min(|cast|, quantity)
  {
    if quantity > 0 {
      ItemSlope(quantity - 1, cast, defaultFee);
    }
  }

  /** The slots of a position that are charged to a booking although its order is not below the quantity. */
  function Overcharged(rows: seq<Booking>, qs: Quantities, slot: Slot): int {
    Charged(rows, qs, slot) - SlotTally(rows, qs, slot).regulars
  }

  /** Where the list cut off at the quantity ends with a regular row, as many rows are regular. */
  lemma {:induction false} SlotFull(rows: seq<Booking>, qs: Quantities, slot: Slot)
    requires Ordered(rows) && Aligned(rows, qs, slot)
    ensures SlotTally(At(rows, slot), qs, slot).regulars == Min(|At(rows, slot)|, QuantityAt(qs, slot))
  {
    AlignedRows(At(rows, slot), QuantityAt(qs, slot));
    SlotBill(At(rows, slot), qs, slot, 0);
  }

  lemma {:induction false} NoneBehind(rows: seq<Booking>, slot: Slot, quantity: nat, k: nat)
    requires Ordered(rows) && k < |At(rows, slot)| && At(rows, slot)[k].order >= quantity
    ensures forall i :: k <= i < |At(rows, slot)| ==> At(rows, slot)[i].order >= quantity
  {
    forall i | k < i < |At(rows, slot)| ensures At(rows, slot)[i].order >= quantity {
      AscendingPair(At(rows, slot), k, i);
    }
  }

  /** Where it does not, fewer are. */
  lemma {:induction false} SlotShort(rows: seq<Booking>, qs: Quantities, slot: Slot)
    requires Ordered(rows) && !Aligned(rows, qs, slot)
    ensures SlotTally(At(rows, slot), qs, slot).regulars < Min(|At(rows, slot)|, QuantityAt(qs, slot))
  {
    var n := Min(|At(rows, slot)|, QuantityAt(qs, slot));
    NoneBehind(rows, slot, QuantityAt(qs, slot), n - 1);
    SlotCountBelow(At(rows, slot), qs, slot, n - 1);
  }

  lemma {:induction false} ChargedHere(rows: seq<Booking>, qs: Quantities, slot: Slot)
    requires Ordered(rows)
    ensures Charged(rows, qs, slot) == Min(|At(rows, slot)|, QuantityAt(qs, slot))
    ensures Overcharged(rows, qs, slot) == Charged(rows, qs, slot) - SlotTally(At(rows, slot), qs, slot).regulars
  {
    CastOfOrdered(rows, slot);
    SlotTallyAt(rows, qs, slot);
  }

  lemma {:induction false} OverchargedExact(rows: seq<Booking>, qs: Quantities, slot: Slot)
    requires Ordered(rows)
    ensures if Aligned(rows, qs, slot) then Overcharged(rows, qs, slot) == 0 else Overcharged(rows, qs, slot) > 0
  {
    ChargedHere(rows, qs, slot);
    if Aligned(rows, qs, slot) {
      SlotFull(rows, qs, slot);
    } else {
      SlotShort(rows, qs, slot);
    }
  }

  /** An aligned position is settled. */
  lemma {:induction false} ItemSettled(rows: seq<Booking>, qs: Quantities, slot: Slot, defaultFee: int)
    requires Ordered(rows) && Aligned(rows, qs, slot)
    ensures ItemExcess(rows, qs, slot, defaultFee) == 0
  {
    CastOfOrdered(rows, slot);
    SlotTallyAt(rows, qs, slot);
    AlignedRows(At(rows, slot), QuantityAt(qs, slot));
    SlotBill(At(rows, slot), qs, slot, defaultFee);
    VacantSlots(QuantityAt(qs, slot), CastOf(rows, slot), defaultFee);
  }

  /** If a position is not aligned, its excess depends on the default fee. */
  lemma {:induction false} ItemStep(rows: seq<Booking>, qs: Quantities, slot: Slot, defaultFee: int)
    ensures ItemExcess(rows, qs, slot, defaultFee + 1)
            == ItemExcess(rows, qs, slot, defaultFee) - Overcharged(rows, qs, slot)
  {
    ItemSlope(QuantityAt(qs, slot), CastOf(rows, slot), defaultFee);
    VacanciesSlope(QuantityAt(qs, slot), SlotTally(rows, qs, slot).regulars, defaultFee);
  }

  lemma {:induction false} VacanciesSlope(slots: int, regulars: int, defaultFee: int)
    ensures Vacancies(slots, regulars, defaultFee + 1) == Vacancies(slots, regulars, defaultFee) + slots - regulars
  {
  }

  /** The excess of several positions of one performance. */
  function TypeExcess(rows: seq<Booking>, qs: Quantities, p: PerfId, items: seq<SetupItem>, defaultFee: int): int {
    var t := ItemsTally(rows, qs, p, items);
    TypeBill(rows, p, items, defaultFee) - t.fees - Vacancies(Capacity(items), t.regulars, defaultFee)
  }

  lemma {:induction false} TypeExcessSnoc(rows: seq<Booking>, qs: Quantities, p: PerfId, items: seq<SetupItem>,
                                          defaultFee: int)
    requires items != [] && items[|items| - 1].quantity == QuantityAt(qs, Slot(p, items[|items| - 1].key))
    ensures TypeExcess(rows, qs, p, items, defaultFee)
            == TypeExcess(rows, qs, p, items[..|items| - 1], defaultFee)
               + ItemExcess(rows, qs, Slot(p, items[|items| - 1].key), defaultFee)
  {
    var init, last := items[..|items| - 1], items[|items| - 1];
    var before, here := ItemsTally(rows, qs, p, init), SlotTally(rows, qs, Slot(p, last.key));
    assert ItemsTally(rows, qs, p, items) == before.Plus(here) && Capacity(items) == Capacity(init) + last.quantity;
    VacanciesAdd(Capacity(init), before.regulars, last.quantity, here.regulars, Capacity(items),
                 before.Plus(here).regulars, defaultFee);
  }

  predicate ItemsAligned(rows: seq<Booking>, qs: Quantities, p: PerfId, items: seq<SetupItem>) {
    forall i :: 0 <= i < |items| ==> Aligned(rows, qs, Slot(p, items[i].key))
  }

  function AllOvercharged(rows: seq<Booking>, qs: Quantities, p: PerfId, items: seq<SetupItem>): int {
    if items == [] then 0
    else AllOvercharged(rows, qs, p, items[..|items| - 1]) + Overcharged(rows, qs, Slot(p, items[|items| - 1].key))
  }

  lemma {:induction false} OverchargedNone(rows: seq<Booking>, qs: Quantities, p: PerfId, items: seq<SetupItem>)
    requires Ordered(rows)
    ensures var over := AllOvercharged(rows, qs, p, items);
            over >= 0 && (over == 0 <==> ItemsAligned(rows, qs, p, items))
  {
    if items != [] {
      OverchargedNone(rows, qs, p, items[..|items| - 1]);
      OverchargedExact(rows, qs, Slot(p, items[|items| - 1].key));
      ItemsAlignedSnoc(rows, qs, p, items);
    }
  }

  lemma {:induction false} ItemsAlignedSnoc(rows: seq<Booking>, qs: Quantities, p: PerfId, items: seq<SetupItem>)
    requires items != []
    ensures var init, last := items[..|items| - 1], items[|items| - 1];
            ItemsAligned(rows, qs, p, items)
            <==> ItemsAligned(rows, qs, p, init) && Aligned(rows, qs, Slot(p, last.key))
  {
    var init := items[..|items| - 1];
    assert forall i :: 0 <= i < |init| ==> init[i] == items[i];
  }

  lemma {:induction false} TypeSettled(rows: seq<Booking>, qs: Quantities, p: PerfId, items: seq<SetupItem>,
                                       defaultFee: int)
    requires Ordered(rows) && ItemsAligned(rows, qs, p, items)
    requires forall i :: 0 <= i < |items| ==> items[i].quantity == QuantityAt(qs, Slot(p, items[i].key))
    ensures TypeExcess(rows, qs, p, items, defaultFee) == 0
  {
    if items != [] {
      TypeSettled(rows, qs, p, items[..|items| - 1], defaultFee);
      ItemSettled(rows, qs, Slot(p, items[|items| - 1].key), defaultFee);
      TypeExcessSnoc(rows, qs, p, items, defaultFee);
    }
  }

  lemma {:induction false} TypeStep(rows: seq<Booking>, qs: Quantities, p: PerfId, items: seq<SetupItem>,
                                    defaultFee: int)
    requires forall i :: 0 <= i < |items| ==> items[i].quantity == QuantityAt(qs, Slot(p, items[i].key))
    ensures TypeExcess(rows, qs, p, items, defaultFee + 1)
            == TypeExcess(rows, qs, p, items, defaultFee) - AllOvercharged(rows, qs, p, items)
  {
    if items != [] {
      TypeStep(rows, qs, p, items[..|items| - 1], defaultFee);
      ItemStep(rows, qs, Slot(p, items[|items| - 1].key), defaultFee);
      TypeExcessSnoc(rows, qs, p, items, defaultFee);
      TypeExcessSnoc(rows, qs, p, items, defaultFee + 1);
    }
  }

  // ---- the setup, kind by kind --------------------------------------------------------------

  /** The positions of one kind are a stretch of the processing order. */
  lemma {:induction false} KindKeys(st: State, kind: PositionType)
    requires References(st)
    ensures NoDup(KeysOfKind(kind, ElementsOf(st.catalog, kind)))
  {
    var a := KeysOfKind(Instruments, st.catalog.instruments);
    var b := KeysOfKind(Voices, st.catalog.voices);
    var c := KeysOfKind(Choirjobs, st.catalog.choirjobs);
    assert Order(st.catalog) == a + b + c;
    NoDupParts(a + b, c);
    NoDupParts(a, b);
  }

  lemma {:induction false} NoDupParts<T>(a: seq<T>, b: seq<T>)
    requires NoDup(a + b)
    ensures NoDup(a) && NoDup(b)
  {
    assert (a + b)[..|a|] == a;
    NoDupPrefix(a + b, |a|);
    NoDupSuffix(a, b);
  }

  lemma {:induction false} KindMember(st: State, kind: PositionType, k: PositionKey)
    requires k in Order(st.catalog)
    ensures k.kind == kind <==> k in KeysOfKind(kind, ElementsOf(st.catalog, kind))
  {
  }

  lemma {:induction false} KindItems(st: State, p: PerfId, kind: PositionType)
    requires References(st) && OnSetup(st.tables.bookings, st.quantities)
    ensures var items := SetupOf(st, p, kind);
            && NoDup(Keys(items))
            && (forall i :: 0 <= i < |items| ==> items[i].quantity == QuantityAt(st.quantities, Slot(p, items[i].key)))
            && forall b :: b in st.tables.bookings && b.slot.perf == p ==>
                 (b.slot.key.kind == kind <==> b.slot.key in Keys(items))
  {
    var keys := KeysOfKind(kind, ElementsOf(st.catalog, kind));
    KindKeys(st, kind);
    ItemsAmongOk(keys, st.quantities, p);
    forall b | b in st.tables.bookings && b.slot.perf == p
      ensures b.slot.key.kind == kind <==> b.slot.key in Keys(SetupOf(st, p, kind))
    {
      ItemsAmongKeys(keys, st.quantities, p, b.slot.key);
      KindMember(st, kind, b.slot.key);
    }
  }

  /** The default fee for every slot of a kind no regular booking takes. */
  function VacancyCost(st: State, p: PerfId, prices: Prices, kind: PositionType): int {
    Vacancies(Capacity(SetupOf(st, p, kind)), RegularTally(st.tables.bookings, st.quantities, p, kind).regulars,
              prices.Default(kind))
  }

  /** Every position of the performance is aligned. */
  ghost predicate PerformanceAligned(st: State, p: PerfId) {
    forall slot: Slot :: slot.perf == p ==> Aligned(st.tables.bookings, st.quantities, slot)
  }

  ghost predicate KindAligned(st: State, p: PerfId, kind: PositionType) {
    forall slot: Slot :: slot.perf == p && slot.key.kind == kind ==> Aligned(st.tables.bookings, st.quantities, slot)
  }

  /** What the bill of one kind exceeds its regular bookings and its vacancies by. */
  function KindExcess(st: State, p: PerfId, prices: Prices, kind: PositionType): int {
    TypeExcess(st.tables.bookings, st.quantities, p, SetupOf(st, p, kind), prices.Default(kind))
  }

  lemma {:induction false} KindAlignedItems(st: State, p: PerfId, kind: PositionType)
    requires References(st) && KindAligned(st, p, kind)
    ensures ItemsAligned(st.tables.bookings, st.quantities, p, SetupOf(st, p, kind))
  {
    var items := SetupOf(st, p, kind);
    forall i | 0 <= i < |items| ensures Aligned(st.tables.bookings, st.quantities, Slot(p, items[i].key)) {
      ItemsAmongKind(kind, ElementsOf(st.catalog, kind), st.quantities, p, i);
    }
  }

  lemma {:induction false} ItemsAlignedKind(st: State, p: PerfId, kind: PositionType)
    requires References(st) && ItemsAligned(st.tables.bookings, st.quantities, p, SetupOf(st, p, kind))
    ensures KindAligned(st, p, kind)
  {
    var items, keys := SetupOf(st, p, kind), KeysOfKind(kind, ElementsOf(st.catalog, kind));
    forall slot: Slot | slot.perf == p && slot.key.kind == kind
      ensures Aligned(st.tables.bookings, st.quantities, slot)
    {
      if slot in st.quantities {
        KindMember(st, kind, slot.key);
        ItemsAmongKeys(keys, st.quantities, p, slot.key);
        var i :| 0 <= i < |items| && Keys(items)[i] == slot.key;
        assert Slot(p, items[i].key) == slot;
      }
    }
  }

  lemma {:induction false} KindIsType(st: State, p: PerfId, prices: Prices, kind: PositionType)
    requires Sound(st)
    ensures KindExcess(st, p, prices, kind)
            == KindBill(st, p, prices, kind) - RegularTally(st.tables.bookings, st.quantities, p, kind).fees
               - VacancyCost(st, p, prices, kind)
  {
    KindItems(st, p, kind);
    TalliesAgree(st.tables.bookings, st.quantities, p, kind, SetupOf(st, p, kind));
  }

  lemma {:induction false} KindSettled(st: State, p: PerfId, prices: Prices, kind: PositionType)
    requires Sound(st) && KindAligned(st, p, kind)
    ensures KindExcess(st, p, prices, kind) == 0
  {
    KindItems(st, p, kind);
    KindAlignedItems(st, p, kind);
    TypeSettled(st.tables.bookings, st.quantities, p, SetupOf(st, p, kind), prices.Default(kind));
  }

  lemma {:induction false} KindStep(st: State, p: PerfId, prices: Prices, higher: Prices, kind: PositionType)
    requires Sound(st) && higher.Default(kind) == prices.Default(kind) + 1
    ensures KindExcess(st, p, higher, kind)
            == KindExcess(st, p, prices, kind)
               - AllOvercharged(st.tables.bookings, st.quantities, p, SetupOf(st, p, kind))
  {
    KindItems(st, p, kind);
    TypeStep(st.tables.bookings, st.quantities, p, SetupOf(st, p, kind), prices.Default(kind));
  }

  lemma {:induction false} KindOvercharged(st: State, p: PerfId, kind: PositionType)
    requires Sound(st) && AllOvercharged(st.tables.bookings, st.quantities, p, SetupOf(st, p, kind)) == 0
    ensures KindAligned(st, p, kind)
  {
    OverchargedNone(st.tables.bookings, st.quantities, p, SetupOf(st, p, kind));
    ItemsAlignedKind(st, p, kind);
  }

  /** The fees of exactly the regular bookings of a performance, of any kind. */
  function RegularFees(rows: seq<Booking>, qs: Quantities, p: PerfId): int {
    if rows == [] then 0
    else
      var b := rows[|rows| - 1];
      RegularFees(rows[..|rows| - 1], qs, p)
        + (if b.slot.perf == p && b.order < QuantityAt(qs, b.slot) then b.fee else 0)
  }

  lemma {:induction false} FeesByKind(rows: seq<Booking>, qs: Quantities, p: PerfId)
    ensures RegularFees(rows, qs, p)
            == RegularTally(rows, qs, p, Instruments).fees + RegularTally(rows, qs, p, Voices).fees
              + RegularTally(rows, qs, p, Choirjobs).fees
  {
    if rows != [] {
      FeesByKind(rows[..|rows| - 1], qs, p);
    }
  }

  /**
    Nothing is billed twice and nothing is lost: the total is the fees of exactly the regular bookings, the default
    fee for every vacant slot, the organisation fee and the extra cost.
  */
  predicate AddsUp(st: State, p: PerfId, prices: Prices) {
    Bill(st, p, prices)
    == RegularFees(st.tables.bookings, st.quantities, p)
       + VacancyCost(st, p, prices, Instruments) + VacancyCost(st, p, prices, Voices)
         + VacancyCost(st, p, prices, Choirjobs)
       + OrgFee(Capacity(SetupOf(st, p, Instruments)), Capacity(SetupOf(st, p, Choirjobs))) + prices.Extra()
  }

  lemma {:induction false} AddsUpByKind(st: State, p: PerfId, prices: Prices)
    requires Sound(st)
    ensures AddsUp(st, p, prices)
            <==> KindExcess(st, p, prices, Instruments) + KindExcess(st, p, prices, Voices)
                 + KindExcess(st, p, prices, Choirjobs) == 0
  {
    KindIsType(st, p, prices, Instruments);
    KindIsType(st, p, prices, Voices);
    KindIsType(st, p, prices, Choirjobs);
    FeesByKind(st.tables.bookings, st.quantities, p);
  }

  /** The bill adds up if every position is aligned. */
  lemma {:induction false} BillConserves(st: State, p: PerfId, prices: Prices)
    requires Sound(st) && PerformanceAligned(st, p)
    ensures AddsUp(st, p, prices)
  {
    AddsUpByKind(st, p, prices);
    assert forall kind: PositionType :: KindAligned(st, p, kind);
    KindSettled(st, p, prices, Instruments);
    KindSettled(st, p, prices, Voices);
    KindSettled(st, p, prices, Choirjobs);
  }

  /** The same prices with a higher default fee for one kind. */
  function Raised(prices: Prices, kind: PositionType): (r: Prices)
    ensures forall k :: r.Default(k) == prices.Default(k) + if k == kind then 1 else 0
  {
    match kind
    case Instruments => prices.(instrument := prices.instrument + 1)
    case Voices => prices.(voice := prices.voice + 1)
    case Choirjobs => prices.(choirjob := prices.choirjob + 1)
  }

  /** If the bill adds up under two prices that differ in the default fee of one kind, that kind is aligned. */
  lemma {:induction false} AddsUpAligned(st: State, p: PerfId, prices: Prices, kind: PositionType)
    requires Sound(st) && AddsUp(st, p, prices) && AddsUp(st, p, Raised(prices, kind))
    ensures KindAligned(st, p, kind)
  {
    var higher := Raised(prices, kind);
    AddsUpByKind(st, p, prices);
    AddsUpByKind(st, p, higher);
    assert forall k :: k != kind ==> KindExcess(st, p, higher, k) == KindExcess(st, p, prices, k);
    KindStep(st, p, prices, higher, kind);
    KindOvercharged(st, p, kind);
  }

  /** The exact condition: the bill adds up whatever the default fees are, if and only if every position is aligned. */
  lemma {:induction false} BillExact(st: State, p: PerfId)
    requires Sound(st)
    ensures (forall prices :: AddsUp(st, p, prices)) <==> PerformanceAligned(st, p)
  {
    if PerformanceAligned(st, p) {
      forall prices ensures AddsUp(st, p, prices) {
        BillConserves(st, p, prices);
      }
    }
    if forall prices :: AddsUp(st, p, prices) {
      forall slot: Slot | slot.perf == p ensures Aligned(st.tables.bookings, st.quantities, slot) {
        AddsUpAligned(st, p, Prices(0, 0, 0, None), slot.key.kind);
        assert KindAligned(st, p, slot.key.kind);
      }
    }
  }

  /** After every history without a save that leaves a gap, every bill adds up. */
  lemma {:induction false} BillAlways(trace: Trace, p: PerfId, prices: Prices)
    requires Possible(INITIAL, trace) && AllTidy(INITIAL, trace)
    ensures AddsUp(After(INITIAL, trace), p, prices)
  {
    var st := After(INITIAL, trace);
    InitialInv();
    RunGapFree(INITIAL, trace);
    forall slot: Slot | slot.perf == p ensures Aligned(st.tables.bookings, st.quantities, slot) {
      GapFreeAligned(st.tables.bookings, st.quantities, slot);
    }
    BillConserves(st, p, prices);
  }

  /** The regular bookings of one kind. */
  function RegularCount(rows: seq<Booking>, qs: Quantities, p: PerfId, kind: PositionType): int {
    if rows == [] then 0
    else
      var b := rows[|rows| - 1];
      var regular := b.slot in qs && b.order < qs[b.slot];
      RegularCount(rows[..|rows| - 1], qs, p, kind)
        + (if b.slot.perf == p && b.slot.key.kind == kind && regular then 1 else 0)
  }

  lemma {:induction false} RegularCounts(rows: seq<Booking>, qs: Quantities, p: PerfId, kind: PositionType)
    ensures RegularTally(rows, qs, p, kind).regulars == RegularCount(rows, qs, p, kind)
  {
    if rows != [] {
      RegularCounts(rows[..|rows| - 1], qs, p, kind);
    }
  }

  /** A slot is vacant if no regular booking takes it, and costs the default fee of its own kind. */
  lemma {:induction false} VacancyMeans(st: State, p: PerfId, prices: Prices, kind: PositionType)
    ensures var vacant := Capacity(SetupOf(st, p, kind))
                          - RegularCount(st.tables.bookings, st.quantities, p, kind);
            VacancyCost(st, p, prices, kind)
            == if kind == Instruments then vacant * prices.instrument
               else if kind == Voices then vacant * prices.voice
               else vacant * prices.choirjob
  {
    RegularCounts(st.tables.bookings, st.quantities, p, kind);
  }

  /** The bill in full: regular fees, vacancies, the organisation fee by the number of slots, the extra cost if any. */
  lemma {:induction false} BillInFull(st: State, p: PerfId, prices: Prices)
    requires Sound(st) && PerformanceAligned(st, p)
    ensures var (instruments, choirjobs) := (Capacity(SetupOf(st, p, Instruments)),
                                             Capacity(SetupOf(st, p, Choirjobs)));
            Bill(st, p, prices)
            == RegularFees(st.tables.bookings, st.quantities, p)
               + VacancyCost(st, p, prices, Instruments) + VacancyCost(st, p, prices, Voices)
                 + VacancyCost(st, p, prices, Choirjobs)
               + (if instruments == 0 then 0 else if instruments <= 12 then 30 else 55)
               + (if choirjobs == 0 then 0 else 15)
               + (if prices.extracost.Some? then prices.extracost.value else 0)
  {
    BillConserves(st, p, prices);
  }

  // ---- cancellations ------------------------------------------------------------------------

  /** Taking out a regular entry moves everyone behind it up by one slot. */
  lemma {:induction false} RemovedBill(cast: seq<CastEntry>, k: nat, quantity: nat, defaultFee: int)
    requires k < |cast|
    ensures ItemBill(quantity, RemoveAt(cast, k), defaultFee)
            == ItemBill(quantity, cast, defaultFee)
              + (if k < quantity then PriceAt(cast, quantity, defaultFee) - cast[k].fee else 0)
  {
    if quantity > 0 {
      RemovedBill(cast, k, quantity - 1, defaultFee);
    }
  }

  /**
    What a cancellation changes about the bill: nothing, unless the canceller stands among the first entries of the
    list. Where orders have gaps, that need not be the same as being regular by the stored order.
  */
  function CancelDelta(st: State, b: Booking, prices: Prices): int {
    var (cast, quantity) := (CastOf(st.tables.bookings, b.slot), QuantityAt(st.quantities, b.slot));
    if !RegularIn(Ids(cast), quantity, b.user) then 0
    else (if quantity < |cast| then cast[quantity].fee else prices.Default(b.slot.key.kind)) - b.fee
  }

  lemma {:induction false} CancelledCast(st: State, b: Booking, now: int, slot: Slot)
    requires Sound(st) && b in st.tables.bookings
    ensures b.user in Ids(CastOf(st.tables.bookings, b.slot))
    ensures var cast := CastOf(st.tables.bookings, b.slot);
            var k := IndexOf(Ids(cast), b.user);
            && cast[k].fee == b.fee
            && CastOf(Cancelled(st, b.slot.perf, b.user, now).tables.bookings, slot)
               == if slot == b.slot then RemoveAt(cast, k) else CastOf(st.tables.bookings, slot)
  {
    var rows := st.tables.bookings;
    BookingOfUnique(rows, b);
    CancelRows(st.tables, st.quantities, b, now, slot);
    BookingFee(rows, b.slot, b.user);
    if slot == b.slot {
      RenumberedCast(Cancelled(st, b.slot.perf, b.user, now).tables.bookings, slot,
                     RemoveAt(CastOf(rows, slot), IndexOf(Ids(CastOf(rows, slot)), b.user)));
    }
  }

  /** Rows numbered from 0 are read as the list they store. */
  lemma {:induction false} RenumberedCast(rows: seq<Booking>, slot: Slot, cast: seq<CastEntry>)
    requires At(rows, slot) == NewRows(slot, cast)
    ensures CastOf(rows, slot) == cast
  {
    NewRowsContiguous(slot, cast);
    ContiguousAscending(NewRows(slot, cast));
    CastOfOrdered(rows, slot);
    assert Entries(NewRows(slot, cast)) == cast;
  }

  lemma {:induction false} DeltaIsRemoval(st: State, b: Booking, now: int, prices: Prices)
    requires Sound(st) && b in st.tables.bookings
    ensures b.user in Ids(CastOf(st.tables.bookings, b.slot))
    ensures var (cast, quantity) := (CastOf(st.tables.bookings, b.slot), QuantityAt(st.quantities, b.slot));
            var defaultFee := prices.Default(b.slot.key.kind);
            ItemBill(quantity, RemoveAt(cast, IndexOf(Ids(cast), b.user)), defaultFee)
            == ItemBill(quantity, cast, defaultFee) + CancelDelta(st, b, prices)
  {
    var cast := CastOf(st.tables.bookings, b.slot);
    CancelledCast(st, b, now, b.slot);
    RemovedBill(cast, IndexOf(Ids(cast), b.user), QuantityAt(st.quantities, b.slot), prices.Default(b.slot.key.kind));
  }

  lemma {:induction false} CancelledItem(st: State, b: Booking, now: int, prices: Prices, p: PerfId, item: SetupItem)
    requires Sound(st) && b in st.tables.bookings && item.quantity == QuantityAt(st.quantities, Slot(p, item.key))
    ensures var (slot, defaultFee) := (Slot(p, item.key), prices.Default(item.key.kind));
            ItemBill(item.quantity, CastOf(Cancelled(st, b.slot.perf, b.user, now).tables.bookings, slot), defaultFee)
            == ItemBill(item.quantity, CastOf(st.tables.bookings, slot), defaultFee)
               + (if slot == b.slot then CancelDelta(st, b, prices) else 0)
  {
    CancelledCast(st, b, now, Slot(p, item.key));
    if Slot(p, item.key) == b.slot {
      DeltaIsRemoval(st, b, now, prices);
    }
  }

  lemma {:induction false} CancelledType(st: State, b: Booking, now: int, prices: Prices, p: PerfId,
                                         items: seq<SetupItem>, kind: PositionType)
    requires Sound(st) && b in st.tables.bookings && NoDup(Keys(items))
    requires forall i :: 0 <= i < |items| ==>
               items[i].key.kind == kind && items[i].quantity == QuantityAt(st.quantities, Slot(p, items[i].key))
    ensures TypeBill(Cancelled(st, b.slot.perf, b.user, now).tables.bookings, p, items, prices.Default(kind))
            == TypeBill(st.tables.bookings, p, items, prices.Default(kind))
               + (if b.slot.perf == p && b.slot.key in Keys(items) then CancelDelta(st, b, prices) else 0)
  {
    if items != [] {
      var init, last := items[..|items| - 1], items[|items| - 1];
      assert Keys(items) == Keys(init) + [last.key] && Keys(items)[..|init|] == Keys(init);
      CancelledType(st, b, now, prices, p, init, kind);
      CancelledItem(st, b, now, prices, p, last);
      assert Slot(p, last.key) == b.slot <==> b.slot.perf == p && last.key == b.slot.key;
    }
  }

  lemma {:induction false} ItemsAmongKind(kind: PositionType, ids: seq<ElementId>, qs: Quantities, p: PerfId, i: nat)
    requires i < |ItemsAmong(KeysOfKind(kind, ids), qs, p)|
    ensures ItemsAmong(KeysOfKind(kind, ids), qs, p)[i].key.kind == kind
  {
    var items := ItemsAmong(KeysOfKind(kind, ids), qs, p);
    assert Keys(items)[i] == items[i].key;
    ItemsAmongKeys(KeysOfKind(kind, ids), qs, p, items[i].key);
  }

  lemma {:induction false} CancelledKind(st: State, b: Booking, now: int, prices: Prices, p: PerfId, kind: PositionType)
    requires Sound(st) && b in st.tables.bookings
    ensures KindBill(Cancelled(st, b.slot.perf, b.user, now), p, prices, kind)
            == KindBill(st, p, prices, kind)
              + (if b.slot.perf == p && b.slot.key.kind == kind then CancelDelta(st, b, prices) else 0)
  {
    var items := SetupOf(st, p, kind);
    KindItems(st, p, kind);
    forall i | 0 <= i < |items| ensures items[i].key.kind == kind {
      ItemsAmongKind(kind, ElementsOf(st.catalog, kind), st.quantities, p, i);
    }
    CancelledType(st, b, now, prices, p, items, kind);
  }

  /**
    The cancellation of a user who is charged replaces its fee by that of the first who was not, or by the default fee
    if there is none; any other cancellation costs nothing, and no other bill is affected.
  */
  lemma {:induction false} CancelBill(st: State, b: Booking, now: int, prices: Prices, p: PerfId)
    requires Sound(st) && b in st.tables.bookings
    ensures Bill(Cancelled(st, b.slot.perf, b.user, now), p, prices)
            == Bill(st, p, prices) + (if p == b.slot.perf then CancelDelta(st, b, prices) else 0)
  {
    CancelledKind(st, b, now, prices, p, Instruments);
    CancelledKind(st, b, now, prices, p, Voices);
    CancelledKind(st, b, now, prices, p, Choirjobs);
  }
}
