/**
  Whether a user qualifies for a performance: is_bookable intersects the ids of each position type. What the
  dictionaries of ids hold is stated against the tables they are read from.
*/
module Bookability {
  import opened Positions
  import opened Tables
  import opened Store

  /** dict[PositionType, set[UUID]] */
  type PositionIds = map<PositionType, set<ElementId>>

  const NO_POSITIONS: PositionIds := map[Instruments := {}, Voices := {}, Choirjobs := {}]

  /** The quantities of one performance. */
  type KeyQuantities = map<PositionKey, nat>

  predicate Total(ids: PositionIds) {
    forall kind: PositionType :: kind in ids
  }

  /** The position is one of those held. */
  predicate HoldsKey(ids: PositionIds, key: PositionKey) {
    key.kind in ids && key.id in ids[key.kind]
  }

  function WithPosition(ids: PositionIds, key: PositionKey): (r: PositionIds)
    requires Total(ids)
    ensures Total(r) && forall k :: HoldsKey(r, k) <==> HoldsKey(ids, k) || k == key
  {
    ids[key.kind := ids[key.kind] + {key.id}]
  }

  lemma {:induction false} AllKinds(ids: PositionIds)
    requires Instruments in ids && Voices in ids && Choirjobs in ids
    ensures Total(ids)
  {
    forall kind: PositionType ensures kind in ids {
      match kind
      case Instruments =>
      case Voices =>
      case Choirjobs =>
    }
  }

  lemma {:induction false} NoPositions()
    ensures Total(NO_POSITIONS) && forall k :: !HoldsKey(NO_POSITIONS, k)
  {
    AllKinds(NO_POSITIONS);
    forall k: PositionKey ensures !HoldsKey(NO_POSITIONS, k) {
      assert k.kind == Instruments || k.kind == Voices || k.kind == Choirjobs;
    }
  }

  /** Per position type, one intersection. */
  predicate IsBookable(userIds: PositionIds, performanceIds: PositionIds)
    requires Total(userIds) && Total(performanceIds)
  {
    || userIds[Instruments] * performanceIds[Instruments] != {}
    || userIds[Voices] * performanceIds[Voices] != {}
    || userIds[Choirjobs] * performanceIds[Choirjobs] != {}
  }

  lemma {:induction false} KindIntersects(a: PositionIds, b: PositionIds, kind: PositionType)
    requires Total(a) && Total(b)
    ensures a[kind] * b[kind] != {}
            <==> exists id :: HoldsKey(a, PositionKey(kind, id)) && HoldsKey(b, PositionKey(kind, id))
  {
    if a[kind] * b[kind] != {} {
      var id :| id in a[kind] * b[kind];
      assert HoldsKey(a, PositionKey(kind, id)) && HoldsKey(b, PositionKey(kind, id));
    }
    if id :| HoldsKey(a, PositionKey(kind, id)) && HoldsKey(b, PositionKey(kind, id)) {
      assert id in a[kind] * b[kind];
    }
  }

  /** Comparing type by type asks exactly whether the user holds a position the performance needs. */
  lemma {:induction false} IsBookableMeans(a: PositionIds, b: PositionIds)
    requires Total(a) && Total(b)
    ensures IsBookable(a, b) <==> exists k :: HoldsKey(a, k) && HoldsKey(b, k)
  {
    KindIntersects(a, b, Instruments);
    KindIntersects(a, b, Voices);
    KindIntersects(a, b, Choirjobs);
    if k :| HoldsKey(a, k) && HoldsKey(b, k) {
      assert k == PositionKey(k.kind, k.id);
      assert k.kind == Instruments || k.kind == Voices || k.kind == Choirjobs;
    }
  }

  /** The sets are those of the user and of the performance. */
  ghost predicate OfUser(ids: PositionIds, qualified: set<(UserId, PositionKey)>, u: UserId) {
    Total(ids) && forall k :: HoldsKey(ids, k) <==> (u, k) in qualified
  }

  ghost predicate OfPerformance(ids: PositionIds, qs: Quantities, p: PerfId) {
    Total(ids) && forall k :: HoldsKey(ids, k) <==> Slot(p, k) in qs
  }

  lemma {:induction false} BookableMeansQualified(st: State, p: PerfId, u: UserId, userIds: PositionIds,
                                                  setupIds: PositionIds)
    requires OfUser(userIds, st.qualified, u) && OfPerformance(setupIds, st.quantities, p)
    ensures IsBookable(userIds, setupIds) <==> Qualified(st, p, u)
  {
    IsBookableMeans(userIds, setupIds);
    if k :| HoldsKey(userIds, k) && HoldsKey(setupIds, k) {
      assert Slot(p, k) in st.quantities && (u, Slot(p, k).key) in st.qualified;
    }
    if slot :| slot in st.quantities && slot.perf == p && (u, slot.key) in st.qualified {
      assert slot == Slot(p, slot.key);
      assert HoldsKey(userIds, slot.key) && HoldsKey(setupIds, slot.key);
    }
  }

  function Lookup<K, T>(m: map<K, T>, k: K): Option<T> {
    if k in m then Some(m[k]) else None
  }
}
