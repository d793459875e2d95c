/** The decision logic of the book/unbook log: what is written when one position's cast list changes. */
module CastDiff {
  import opened Positions
  import opened Tables

  datatype LogType = Book | Unbook

  datatype Transition = Transition(user: UserId, kind: LogType, fee: nat)

  // ---- the list the diff produces -----------------------------------------------------------

  /** Entries of the old cast that are not in the new one: one Unbook each, in old order. */
  function Dropped(prior: seq<CastEntry>, newIds: seq<UserId>): seq<Transition> {
    if prior == [] then []
    else
      var e := prior[|prior| - 1];
      Dropped(prior[..|prior| - 1], newIds) + (if e.user in newIds then [] else [Transition(e.user, Unbook, e.fee)])
  }

  /** What the entry at one index of the new cast contributes. */
  function Judged(oldIds: seq<UserId>, e: CastEntry, index: nat, quantity: nat, reference: nat): (ts: seq<Transition>)
    ensures |ts| <= 1
  {
    if e.user !in oldIds then [Transition(e.user, if index < quantity then Book else Unbook, e.fee)]
    else
      var wasRegular := IndexOf(oldIds, e.user) < reference;
      if wasRegular && index >= quantity then [Transition(e.user, Unbook, e.fee)]
      else if !wasRegular && index < quantity then [Transition(e.user, Book, e.fee)]
      else []
  }

  /** The contributions of all entries of the new cast, index by index. */
  function Judgments(oldIds: seq<UserId>, cast: seq<CastEntry>, quantity: nat,
                     reference: nat): (parts: seq<seq<Transition>>)
    ensures |parts| == |cast|
    ensures forall i :: 0 <= i < |cast| ==> parts[i] == Judged(oldIds, cast[i], i, quantity, reference)
  {
    seq(|cast|, i requires 0 <= i < |cast| => Judged(oldIds, cast[i], i, quantity, reference))
  }

  function Flatten<T>(parts: seq<seq<T>>): seq<T> {
    if parts == [] then [] else Flatten(parts[..|parts| - 1]) + parts[|parts| - 1]
  }

  function Reference(quantity: nat, oldQuantity: Option<nat>): nat {
    if oldQuantity.Some? then oldQuantity.value else quantity
  }

  function Diff(prior: seq<CastEntry>, cast: seq<CastEntry>, quantity: nat, oldQuantity: Option<nat>): seq<Transition> {
    Dropped(prior, Ids(cast)) + Flatten(Judgments(Ids(prior), cast, quantity, Reference(quantity, oldQuantity)))
  }

  method DroppedTransitions(prior: seq<CastEntry>, newIds: seq<UserId>) returns (transitions: seq<Transition>)
    ensures transitions == Dropped(prior, newIds)
  {
    transitions := [];
    for i := 0 to |prior|
      invariant transitions == Dropped(prior[..i], newIds)
    {
      assert prior[..i + 1][..i] == prior[..i];
      if prior[i].user !in newIds {
        transitions := transitions + [Transition(prior[i].user, Unbook, prior[i].fee)];
      }
    }
    assert prior[..|prior|] == prior;
  }

  method JudgedTransitions(oldIds: seq<UserId>, cast: seq<CastEntry>, quantity: nat, reference: nat)
    returns (transitions: seq<Transition>)
    ensures transitions == Flatten(Judgments(oldIds, cast, quantity, reference))
  {
    ghost var parts := Judgments(oldIds, cast, quantity, reference);
    transitions := [];
    for index := 0 to |cast|
      invariant transitions == Flatten(parts[..index])
    {
      var e := cast[index];
      var entry := [];
      if e.user !in oldIds {
        entry := [Transition(e.user, if index < quantity then Book else Unbook, e.fee)];
      } else {
        var wasRegular := IndexOf(oldIds, e.user) < reference;
        if wasRegular && index >= quantity {
          entry := [Transition(e.user, Unbook, e.fee)];
        } else if !wasRegular && index < quantity {
          entry := [Transition(e.user, Book, e.fee)];
        }
      }
      assert entry == parts[index] && parts[..index + 1][..index] == parts[..index];
      transitions := transitions + entry;
    }
    assert parts[..|cast|] == parts;
  }

  method DiffCastTransitions(prior: seq<CastEntry>, cast: seq<CastEntry>, quantity: nat, oldQuantity: Option<nat>)
    returns (transitions: seq<Transition>)
    ensures transitions == Diff(prior, cast, quantity, oldQuantity)
  {
    var oldIds, newIds := Ids(prior), Ids(cast);
    var reference := if oldQuantity.Some? then oldQuantity.value else quantity;
    transitions := DroppedTransitions(prior, newIds);
    var judged := JudgedTransitions(oldIds, cast, quantity, reference);
    transitions := transitions + judged;
  }

  // ---- what the list means ------------------------------------------------------------------

  /** The last transition a list holds for a user: what a reader of the log believes afterwards. */
  function LastKind(ts: seq<Transition>, u: UserId): Option<LogType> {
    if ts == [] then None
    else if ts[|ts| - 1].user == u then Some(ts[|ts| - 1].kind)
    else LastKind(ts[..|ts| - 1], u)
  }

  function CountOf(ts: seq<Transition>, u: UserId): nat {
    if ts == [] then 0 else CountOf(ts[..|ts| - 1], u) + (if ts[|ts| - 1].user == u then 1 else 0)
  }

  /** A user holds a regular slot of a cast list: its index lies below the quantity. */
  predicate RegularIn(ids: seq<UserId>, quantity: nat, u: UserId) {
    u in ids && IndexOf(ids, u) < quantity
  }

  /**
    The set-level specification of the diff. A user who is not regular afterwards is unbooked if it was
    regular, dropped out of the list, or is new to it; a user who is regular afterwards is booked if it was not
    regular before.
  */
  function Verdict(prior: seq<UserId>, ids: seq<UserId>, quantity: nat, reference: nat, u: UserId): Option<LogType> {
    var (was, now) := (RegularIn(prior, reference, u), RegularIn(ids, quantity, u));
    if now && !was then Some(Book)
    else if !now && (was || (u in prior) != (u in ids)) then Some(Unbook)
    else None
  }

  /** Applies a list of transitions to a set of regular users. */
  function Replay(regular: set<UserId>, ts: seq<Transition>): set<UserId> {
    if ts == [] then regular
    else
      var (before, last) := (Replay(regular, ts[..|ts| - 1]), ts[|ts| - 1]);
      if last.kind == Book then before + {last.user} else before - {last.user}
  }

  lemma {:induction false} LastKindConcat(a: seq<Transition>, b: seq<Transition>, u: UserId)
    ensures LastKind(a + b, u) == if LastKind(b, u).Some? then LastKind(b, u) else LastKind(a, u)
    ensures CountOf(a + b, u) == CountOf(a, u) + CountOf(b, u)
  {
    if b == [] {
      assert a + b == a;
    } else {
      assert (a + b)[..|a + b| - 1] == a + b[..|b| - 1];
      LastKindConcat(a, b[..|b| - 1], u);
    }
  }

  lemma {:induction false} DroppedVerdict(prior: seq<CastEntry>, newIds: seq<UserId>, u: UserId)
    requires NoDup(Ids(prior))
    ensures LastKind(Dropped(prior, newIds), u) == if u in Ids(prior) && u !in newIds then Some(Unbook) else None
    ensures CountOf(Dropped(prior, newIds), u) == if u in Ids(prior) && u !in newIds then 1 else 0
  {
    if prior != [] {
      var init, e := prior[..|prior| - 1], prior[|prior| - 1];
      assert Ids(prior) == Ids(init) + [e.user];
      DroppedVerdict(init, newIds, u);
      LastKindConcat(Dropped(init, newIds), if e.user in newIds then [] else [Transition(e.user, Unbook, e.fee)], u);
    }
  }

  lemma {:induction false} JudgedVerdict(prior: seq<UserId>, cast: seq<CastEntry>, i: nat, quantity: nat,
                                         reference: nat, u: UserId)
    requires i < |cast| && NoDup(Ids(cast))
    ensures var ts := Judged(prior, cast[i], i, quantity, reference);
            && LastKind(ts, u)
               == (if cast[i].user == u then Verdict(prior, Ids(cast), quantity, reference, u) else None)
            && CountOf(ts, u) == (if LastKind(ts, u).Some? then 1 else 0)
  {
    IndexOfUnique(Ids(cast), i);
    assert Ids(cast)[i] == cast[i].user;
    var ts := Judged(prior, cast[i], i, quantity, reference);
    assert ts == [] || (ts == [ts[0]] && ts[..|ts| - 1] == []);
  }

  lemma {:induction false} FlattenVerdict(parts: seq<seq<Transition>>, users: seq<UserId>, u: UserId,
                                          v: Option<LogType>)
    requires |parts| == |users| && NoDup(users)
    requires forall i :: 0 <= i < |parts| ==> LastKind(parts[i], u) == if users[i] == u then v else None
    requires forall i :: 0 <= i < |parts| ==> CountOf(parts[i], u) == if LastKind(parts[i], u).Some? then 1 else 0
    ensures LastKind(Flatten(parts), u) == if u in users then v else None
    ensures CountOf(Flatten(parts), u) == if LastKind(Flatten(parts), u).Some? then 1 else 0
  {
    if parts != [] {
      var n := |parts| - 1;
      FlattenVerdict(parts[..n], users[..n], u, v);
      LastKindConcat(Flatten(parts[..n]), parts[n], u);
      assert users == users[..n] + [users[n]];
    }
  }

  /** Soundness and completeness: each user gets at most one transition, and it is the set-level verdict. */
  lemma {:induction false} DiffVerdict(prior: seq<CastEntry>, cast: seq<CastEntry>, quantity: nat,
                                       oldQuantity: Option<nat>, u: UserId)
    requires NoDup(Ids(prior)) && NoDup(Ids(cast))
    ensures var (ts, v) := (Diff(prior, cast, quantity, oldQuantity),
                            Verdict(Ids(prior), Ids(cast), quantity, Reference(quantity, oldQuantity), u));
            LastKind(ts, u) == v && CountOf(ts, u) == if v.Some? then 1 else 0
  {
    var reference := Reference(quantity, oldQuantity);
    DroppedVerdict(prior, Ids(cast), u);
    var parts := Judgments(Ids(prior), cast, quantity, reference);
    forall i | 0 <= i < |cast|
      ensures LastKind(parts[i], u)
              == if Ids(cast)[i] == u then Verdict(Ids(prior), Ids(cast), quantity, reference, u) else None
      ensures CountOf(parts[i], u) == if LastKind(parts[i], u).Some? then 1 else 0
    {
      JudgedVerdict(Ids(prior), cast, i, quantity, reference, u);
    }
    FlattenVerdict(parts, Ids(cast), u, Verdict(Ids(prior), Ids(cast), quantity, reference, u));
    LastKindConcat(Dropped(prior, Ids(cast)), Flatten(parts), u);
  }

  lemma {:induction false} ReplayMember(regular: set<UserId>, ts: seq<Transition>, u: UserId)
    ensures u in Replay(regular, ts) <==>
            match LastKind(ts, u) { case Some(kind) => kind == Book case None => u in regular }
  {
    if ts != [] {
      ReplayMember(regular, ts[..|ts| - 1], u);
    }
  }

  function Regulars(cast: seq<CastEntry>, quantity: nat): set<UserId> {
    set i | 0 <= i < |cast| && i < quantity :: cast[i].user
  }

  /** Replaying the logged transitions on the old regular users yields exactly the new regular users. */
  lemma {:induction false} ReplayDiff(prior: seq<CastEntry>, cast: seq<CastEntry>, quantity: nat,
                                      oldQuantity: Option<nat>)
    requires NoDup(Ids(prior)) && NoDup(Ids(cast))
    ensures Replay(Regulars(prior, Reference(quantity, oldQuantity)), Diff(prior, cast, quantity, oldQuantity))
            == Regulars(cast, quantity)
  {
    var reference, ts := Reference(quantity, oldQuantity), Diff(prior, cast, quantity, oldQuantity);
    forall u
      ensures u in Replay(Regulars(prior, reference), ts) <==> u in Regulars(cast, quantity)
    {
      ReplayMember(Regulars(prior, reference), ts, u);
      DiffVerdict(prior, cast, quantity, oldQuantity, u);
    }
  }

  // ---- the diffs the callers rely on --------------------------------------------------------

  /** The entries lo, .., hi-1 of a cast, each with the same kind of transition. */
  function Span(cast: seq<CastEntry>, lo: nat, hi: nat, kind: LogType): seq<Transition>
    requires hi <= |cast|
  {
    if lo >= hi then [] else Span(cast, lo, hi - 1, kind) + [Transition(cast[hi - 1].user, kind, cast[hi - 1].fee)]
  }

  function Min(a: nat, b: nat): nat {
    if a < b then a else b
  }

  lemma {:induction false} DroppedNone(prior: seq<CastEntry>, newIds: seq<UserId>)
    requires forall i :: 0 <= i < |prior| ==> prior[i].user in newIds
    ensures Dropped(prior, newIds) == []
  {
    if prior != [] {
      DroppedNone(prior[..|prior| - 1], newIds);
    }
  }

  lemma {:induction false} JudgedSame(cast: seq<CastEntry>, i: nat, quantity: nat, reference: nat)
    requires i < |cast| && NoDup(Ids(cast))
    ensures Judged(Ids(cast), cast[i], i, quantity, reference)
            == if reference <= i < quantity then [Transition(cast[i].user, Book, cast[i].fee)]
               else if quantity <= i < reference then [Transition(cast[i].user, Unbook, cast[i].fee)]
               else []
  {
    IndexOfUnique(Ids(cast), i);
    assert Ids(cast)[i] == cast[i].user;
  }

  /** Parts that contribute exactly the entries lo, .., hi-1 flatten to that span. */
  lemma {:induction false} FlattenSpan(parts: seq<seq<Transition>>, cast: seq<CastEntry>, lo: nat, hi: nat,
                                       kind: LogType)
    requires |parts| <= |cast|
    requires forall i :: 0 <= i < |parts| ==>
               parts[i] == if lo <= i < hi then [Transition(cast[i].user, kind, cast[i].fee)] else []
    ensures Flatten(parts) == Span(cast, lo, Min(|parts|, hi), kind)
  {
    if parts != [] {
      FlattenSpan(parts[..|parts| - 1], cast, lo, hi, kind);
    }
  }

  /**
    The same cast under a new quantity: exactly the entries between the two quantities are logged, promoted when
    the quantity grew and demoted when it shrank.
  */
  lemma {:induction false} DiffSameCast(cast: seq<CastEntry>, quantity: nat, reference: nat)
    requires NoDup(Ids(cast))
    ensures Diff(cast, cast, quantity, Some(reference))
            == if reference <= quantity then Span(cast, reference, Min(|cast|, quantity), Book)
               else Span(cast, quantity, Min(|cast|, reference), Unbook)
  {
    forall i | 0 <= i < |cast| ensures cast[i].user in Ids(cast) {
      assert Ids(cast)[i] == cast[i].user;
    }
    DroppedNone(cast, Ids(cast));
    forall i | 0 <= i < |cast|
      ensures Judged(Ids(cast), cast[i], i, quantity, reference)
              == if reference <= i < quantity then [Transition(cast[i].user, Book, cast[i].fee)]
                 else if quantity <= i < reference then [Transition(cast[i].user, Unbook, cast[i].fee)]
                 else []
    {
      JudgedSame(cast, i, quantity, reference);
    }
    var parts := Judgments(Ids(cast), cast, quantity, reference);
    if reference <= quantity {
      FlattenSpan(parts, cast, reference, quantity, Book);
    } else {
      FlattenSpan(parts, cast, quantity, reference, Unbook);
    }
  }

  lemma {:induction false} DroppedOne(prior: seq<CastEntry>, newIds: seq<UserId>, k: nat)
    requires NoDup(Ids(prior)) && k < |prior|
    requires forall i :: 0 <= i < |prior| ==> (prior[i].user in newIds <==> i != k)
    ensures Dropped(prior, newIds) == [Transition(prior[k].user, Unbook, prior[k].fee)]
  {
    var init := prior[..|prior| - 1];
    if k == |prior| - 1 {
      DroppedNone(init, newIds);
    } else {
      assert Ids(init) == Ids(prior)[..|prior| - 1];
      DroppedOne(init, newIds, k);
    }
  }

  lemma {:induction false} JudgedRemoved(prior: seq<CastEntry>, k: nat, i: nat, quantity: nat)
    requires NoDup(Ids(prior)) && k < |prior| && i < |prior| - 1
    ensures var e := prior[if i < k then i else i + 1];
            Judged(Ids(prior), e, i, quantity, quantity)
            == if k <= i && i + 1 == quantity then [Transition(e.user, Book, e.fee)] else []
  {
    IndexOfUnique(Ids(prior), if i < k then i else i + 1);
  }

  /** Parts of which at most the one at index n is a singleton flatten to it. */
  lemma {:induction false} FlattenOne<T>(parts: seq<seq<T>>, n: int, x: T)
    requires forall i :: 0 <= i < |parts| ==> parts[i] == if i == n then [x] else []
    ensures Flatten(parts) == if 0 <= n < |parts| then [x] else []
  {
    if parts != [] {
      FlattenOne(parts[..|parts| - 1], n, x);
    }
  }

  /** The cast without its k-th entry. */
  function RemoveAt<T>(s: seq<T>, k: nat): (r: seq<T>)
    requires k < |s|
    ensures |r| == |s| - 1
    ensures forall i :: 0 <= i < |r| ==> r[i] == s[if i < k then i else i + 1]
  {
    s[..k] + s[k + 1..]
  }

  lemma {:induction false} RemovedIds(prior: seq<CastEntry>, k: nat)
    requires k < |prior|
    ensures Ids(RemoveAt(prior, k)) == RemoveAt(Ids(prior), k)
  {
    var a, b := Ids(RemoveAt(prior, k)), RemoveAt(Ids(prior), k);
    assert |a| == |b| && forall i :: 0 <= i < |a| ==> a[i] == b[i];
  }

  lemma {:induction false} RemovedStays(s: seq<UserId>, k: nat, i: nat)
    requires NoDup(s) && k < |s| && i < |s|
    ensures s[i] in RemoveAt(s, k) <==> i != k
  {
    var r := RemoveAt(s, k);
    if i < k {
      assert r[i] == s[i];
    } else if i > k {
      assert r[i - 1] == s[i];
    } else {
      forall j | 0 <= j < |r| ensures r[j] != s[k] {
        NoDupPair(s, if j < k then j else j + 1, k);
      }
    }
  }

  lemma {:induction false} RemovedDropped(prior: seq<CastEntry>, k: nat)
    requires NoDup(Ids(prior)) && k < |prior|
    ensures Dropped(prior, Ids(RemoveAt(prior, k))) == [Transition(prior[k].user, Unbook, prior[k].fee)]
  {
    var ids := Ids(RemoveAt(prior, k));
    RemovedIds(prior, k);
    forall i | 0 <= i < |prior|
      ensures prior[i].user in ids <==> i != k
    {
      RemovedStays(Ids(prior), k, i);
    }
    DroppedOne(prior, ids, k);
  }

  lemma {:induction false} RemovedEvaluated(prior: seq<CastEntry>, k: nat, quantity: nat)
    requires NoDup(Ids(prior)) && k < |prior|
    ensures Flatten(Judgments(Ids(prior), RemoveAt(prior, k), quantity, quantity))
            == if k < quantity < |prior| then [Transition(prior[quantity].user, Book, prior[quantity].fee)] else []
  {
    var cast := RemoveAt(prior, k);
    var parts := Judgments(Ids(prior), cast, quantity, quantity);
    var n := if k < quantity then quantity - 1 else -1;
    var x := if k < quantity < |prior| then prior[quantity] else prior[k];
    forall i | 0 <= i < |cast|
      ensures parts[i] == if i == n then [Transition(x.user, Book, x.fee)] else []
    {
      JudgedRemoved(prior, k, i, quantity);
    }
    FlattenOne(parts, n, Transition(x.user, Book, x.fee));
  }

  /**
    Removing one entry: the removed user is unbooked, and the first standby is booked exactly when the removed
    entry was regular and a standby exists. Nobody else is mentioned.
  */
  lemma {:induction false} DiffRemoved(prior: seq<CastEntry>, k: nat, quantity: nat)
    requires NoDup(Ids(prior)) && k < |prior|
    ensures Diff(prior, RemoveAt(prior, k), quantity, None)
            == [Transition(prior[k].user, Unbook, prior[k].fee)]
               + (if k < quantity < |prior| then [Transition(prior[quantity].user, Book, prior[quantity].fee)] else [])
  {
    RemovedDropped(prior, k);
    RemovedEvaluated(prior, k, quantity);
  }
}
