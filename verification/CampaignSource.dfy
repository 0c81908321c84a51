/**
 Which finished sessions the campaign state is drawn from, and the entities they
 touched.
 */
module CampaignSource {
  import opened Wrappers
  import Ordering
  import opened Binding

  const MAX_RECENT_SESSIONS: nat := 100
  const MAX_TOUCHED_ENTITIES: nat := 500

  /** The raw `touched_entities` field; an item is absent where it is no valid entity id. */
  datatype Touched = Absent | NotAList | Items(ids: seq<Option<string>>)

  datatype Session = Session(
    id: string, status: string, startedAt: int, finishedAt: Option<int>, tickEnd: Option<int>, revision: nat, touched: Touched)

  /** A validated finished session. */
  datatype Source = Source(id: string, finishedAt: int, revision: nat, touched: seq<string>)

  datatype Reason = InvalidCompletedSession | InvalidTouchedEntities | InvalidSelectionLimit | InputTooLarge

  function ValidLimit(limit: int): Option<Reason> {
    if limit < 1 then Some(InvalidSelectionLimit) else if limit > MAX_RECENT_SESSIONS then Some(InputTooLarge) else None
  }

  function AllIds(items: seq<Option<string>>): Option<seq<string>> {
    if items == [] then Some([])
    else
      match AllIds(items[..|items| - 1])
      case None => None
      case Some(ids) => if items[|items| - 1].None? then None else Some(ids + [items[|items| - 1].value])
  }

  function TouchedIds(touched: Touched): Option<seq<string>> {
    match touched
    case Absent => Some([])
    case NotAList => None
    case Items(items) => AllIds(items)
  }

  predicate LifecycleOk(s: Session) {
    s.finishedAt.Some? && s.tickEnd.Some? && s.finishedAt.value >= s.startedAt
  }

  /** What one listed session contributes: nothing while active, a source when completed. */
  function SourceOf(s: Session): Result<seq<Source>, Reason> {
    if s.status == "completed" then
      if !LifecycleOk(s) then Err(InvalidCompletedSession)
      else
        match TouchedIds(s.touched)
        case None => Err(InvalidTouchedEntities)
        case Some(ids) => Ok([Source(s.id, s.finishedAt.value, s.revision, ids)])
    else if s.status == "active" then Ok([])
    else Err(InvalidCompletedSession)
  }

  function Collect(listing: seq<Session>): Result<seq<Source>, Reason> {
    if listing == [] then Ok([])
    else
      match Collect(listing[..|listing| - 1])
      case Err(reason) => Err(reason)
      case Ok(before) =>
        match SourceOf(listing[|listing| - 1])
        case Err(reason) => Err(reason)
        case Ok(more) => Ok(before + more)
  }

  method CollectCompletedSessions(listing: seq<Session>) returns (r: Result<seq<Source>, Reason>)
    ensures r == Collect(listing)
  {
    var collected: seq<Source> := [];
    for k := 0 to |listing|
      invariant Collect(listing[..k]) == Ok(collected)
    {
      assert listing[..k + 1][..k] == listing[..k];
      var source := SourceOf(listing[k]);
      if source.Err? {
        CollectFails(listing, k + 1, |listing|);
        assert listing[..|listing|] == listing;
        return Err(source.error);
      }
      collected := collected + source.value;
    }
    assert listing[..|listing|] == listing;
    return Ok(collected);
  }

  lemma {:induction false} CollectFails(listing: seq<Session>, k: nat, n: nat)
    requires k <= n <= |listing| && Collect(listing[..k]).Err?
    ensures Collect(listing[..n]) == Collect(listing[..k])
  {
    if k < n {
      CollectFails(listing, k, n - 1);
      assert listing[..n][..n - 1] == listing[..n - 1];
    }
  }

  // Selection

  predicate IdLeq(a: Source, b: Source) {
    Ordering.LexLeq(a.id, b.id)
  }

  predicate LaterFirst(a: Source, b: Source) {
    a.finishedAt >= b.finishedAt
  }

  /** Sorted by id, then stably by finish time with the latest first, then cut. */
  function SelectRecent(completed: seq<Source>, limit: nat): seq<Source> {
    var ordered := Ordering.Sorted(LaterFirst, Ordering.Sorted(IdLeq, completed));
    if |ordered| <= limit then ordered else ordered[..limit]
  }

  ghost predicate DistinctIds(sources: seq<Source>) {
    forall i, j :: 0 <= i < j < |sources| ==> sources[i].id != sources[j].id
  }

  /** Latest first; among equal finish times by ascending id. */
  predicate RecentFirst(a: Source, b: Source) {
    Ordering.Lexicographic(LaterFirst, IdLeq, a, b)
  }

  lemma OrdersAreTotal()
    ensures Ordering.TotalPreorder(LaterFirst) && Ordering.TotalPreorder(IdLeq)
  {
    forall a, b
      ensures IdLeq(a, b) || IdLeq(b, a)
    {
      Ordering.LexTotal(a.id, b.id);
    }
    forall a, b, c | IdLeq(a, b) && IdLeq(b, c)
      ensures IdLeq(a, c)
    {
      Ordering.LexTransitive(a.id, b.id, c.id);
    }
  }

  function Ordered(completed: seq<Source>): seq<Source> {
    Ordering.Sorted(LaterFirst, Ordering.Sorted(IdLeq, completed))
  }

  /** The two stable sorts put the sessions latest first, ties by id, and lose none. */
  lemma OrderedByRecency(completed: seq<Source>)
    ensures multiset(Ordered(completed)) == multiset(completed)
    ensures Ordering.IsSorted(RecentFirst, Ordered(completed))
  {
    OrdersAreTotal();
    Ordering.SortedKeeps(IdLeq, completed);
    Ordering.SortedIsSorted(IdLeq, completed);
    Ordering.SortedKeeps(LaterFirst, Ordering.Sorted(IdLeq, completed));
    Ordering.StableSortKeepsOrder(LaterFirst, IdLeq, Ordering.Sorted(IdLeq, completed));
  }

  /** The sessions that are not selected. */
  function LeftOut(completed: seq<Source>, limit: nat): seq<Source> {
    var ordered := Ordered(completed);
    if |ordered| <= limit then [] else ordered[limit..]
  }

  /** The selected sessions are the most recent ones: nothing left out comes before something selected. */
  lemma SelectionIsMostRecent(completed: seq<Source>, limit: nat)
    ensures var selected, rest := SelectRecent(completed, limit), LeftOut(completed, limit);
            && multiset(selected + rest) == multiset(completed)
            && |selected| == (if |completed| <= limit then |completed| else limit)
            && Ordering.IsSorted(RecentFirst, selected)
            && forall i, j :: 0 <= i < |selected| && 0 <= j < |rest| ==> RecentFirst(selected[i], rest[j])
  {
    OrderedByRecency(completed);
    var ordered := Ordered(completed);
    assert SelectRecent(completed, limit) + LeftOut(completed, limit) == ordered;
    assert |multiset(ordered)| == |ordered| && |multiset(completed)| == |completed|;
  }

  // The listing order does not matter

  lemma {:induction false} CollectConcat(a: seq<Session>, b: seq<Session>)
    requires Collect(a).Ok? && Collect(b).Ok?
    ensures Collect(a + b) == Ok(Collect(a).value + Collect(b).value)
  {
    if b == [] {
      assert a + b == a && Collect(a).value + [] == Collect(a).value;
    } else {
      assert (a + b)[..|a + b| - 1] == a + b[..|b| - 1];
      CollectConcat(a, b[..|b| - 1]);
      var more := SourceOf(b[|b| - 1]).value;
      assert Collect(a).value + (Collect(b[..|b| - 1]).value + more) == Collect(a).value + Collect(b[..|b| - 1]).value + more;
    }
  }

  /** A listing is accepted exactly when each of its sessions is. */
  lemma {:induction false} CollectIff(listing: seq<Session>)
    ensures Collect(listing).Ok? <==> forall s :: s in listing ==> SourceOf(s).Ok?
  {
    if listing != [] {
      CollectIff(listing[..|listing| - 1]);
      assert listing == listing[..|listing| - 1] + [listing[|listing| - 1]];
    }
  }

  lemma CollectOne(s: Session)
    requires SourceOf(s).Ok?
    ensures Collect([s]) == Ok(SourceOf(s).value)
  {
    assert [s][..0] == [];
    assert [] + SourceOf(s).value == SourceOf(s).value;
  }

  lemma {:induction false} PartsAreAccepted(left: seq<Session>, x: Session, right: seq<Session>)
    requires Collect(left + [x] + right).Ok?
    ensures Collect(left).Ok? && Collect(right).Ok? && SourceOf(x).Ok?
  {
    var all := left + [x] + right;
    CollectIff(all);
    CollectIff(left);
    CollectIff(right);
    assert all[|left|] == x;
    assert (forall s :: s in left ==> s in all) && forall s :: s in right ==> s in all;
  }

  lemma {:induction false} CollectAround(left: seq<Session>, x: Session, right: seq<Session>)
    requires Collect(left).Ok? && Collect(right).Ok? && SourceOf(x).Ok?
    ensures Collect(left + right).Ok? && Collect(left + [x] + right).Ok?
    ensures multiset(Collect(left + [x] + right).value) == multiset(Collect(left + right).value) + multiset(SourceOf(x).value)
  {
    CollectOne(x);
    CollectConcat(left, [x]);
    CollectConcat(left + [x], right);
    CollectConcat(left, right);
  }

  lemma {:induction false} AcceptedInAnyOrder(a: seq<Session>, b: seq<Session>)
    requires multiset(a) == multiset(b) && Collect(a).Ok?
    ensures Collect(b).Ok?
  {
    CollectIff(a);
    CollectIff(b);
    forall s | s in b
      ensures SourceOf(s).Ok?
    {
      assert s in multiset(a);
    }
  }

  lemma {:induction false} CollectSplit(a: seq<Session>, left: seq<Session>, x: Session, right: seq<Session>)
    requires a == left + [x] + right && Collect(a).Ok?
    ensures SourceOf(x).Ok? && Collect(left + right).Ok?
    ensures multiset(Collect(a).value) == multiset(Collect(left + right).value) + multiset(SourceOf(x).value)
  {
    PartsAreAccepted(left, x, right);
    CollectAround(left, x, right);
  }

  lemma {:induction false} CollectIgnoresOrder(a: seq<Session>, b: seq<Session>)
    requires multiset(a) == multiset(b) && Collect(a).Ok?
    ensures Collect(b).Ok? && multiset(Collect(a).value) == multiset(Collect(b).value)
  {
    AcceptedInAnyOrder(a, b);
    Ordering.SameMembers(a, b);
    if a != [] {
      var front, x := a[..|a| - 1], a[|a| - 1];
      var left, right := Ordering.FindLast(a, b);
      assert a == front + [x] + [] && front + [] == front;
      CollectSplit(a, front, x, []);
      CollectSplit(b, left, x, right);
      CollectIgnoresOrder(front, left + right);
    }
  }

  lemma SelectionIgnoresSourceOrder(a: seq<Source>, b: seq<Source>, limit: nat)
    requires multiset(a) == multiset(b) && DistinctIds(a)
    ensures SelectRecent(a, limit) == SelectRecent(b, limit)
  {
    OrderedByRecency(a);
    OrderedByRecency(b);
    forall x, y | x in multiset(Ordered(a)) && y in multiset(Ordered(a)) && RecentFirst(x, y) && RecentFirst(y, x)
      ensures x == y
    {
      Ordering.LexTotal(x.id, y.id);
      assert x in multiset(a) && y in multiset(a);
      assert x in a && y in a;
    }
    Ordering.SortedIsUnique(RecentFirst, Ordered(a), Ordered(b));
  }

  /**
   Any order of the repository listing selects the same sessions, as long as the
   finished sessions are well-formed and their ids differ.
   */
  lemma {:induction false} SelectionIgnoresListingOrder(a: seq<Session>, b: seq<Session>, limit: nat)
    requires multiset(a) == multiset(b) && Collect(a).Ok? && DistinctIds(Collect(a).value)
    ensures Collect(b).Ok? && SelectRecent(Collect(a).value, limit) == SelectRecent(Collect(b).value, limit)
    ensures UnionOf(SelectRecent(Collect(a).value, limit)) == UnionOf(SelectRecent(Collect(b).value, limit))
  {
    CollectIgnoresOrder(a, b);
    SelectionIgnoresSourceOrder(Collect(a).value, Collect(b).value, limit);
  }

  // The union of what the sessions touched

  /** The touched ids of the first `k` sessions, in the order first met. */
  function TouchOrder(sources: seq<Source>, k: nat): seq<string>
    requires k <= |sources|
  {
    if k == 0 then [] else AddAllUnique(TouchOrder(sources, k - 1), sources[k - 1].touched)
  }

  /** The sessions among the first `k` that touched an entity, in their order. */
  function TouchedBy(sources: seq<Source>, entityId: string, k: nat): seq<string>
    requires k <= |sources|
  {
    if k == 0 then []
    else
      var before := TouchedBy(sources, entityId, k - 1);
      if entityId in sources[k - 1].touched then AddUnique(before, sources[k - 1].id) else before
  }

  function UnionOf(selected: seq<Source>): seq<(string, seq<string>)> {
    var byId := Ordering.Sorted(IdLeq, selected);
    var order := TouchOrder(byId, |byId|);
    seq(|order|, i requires 0 <= i < |order| => (order[i], TouchedBy(byId, order[i], |byId|)))
  }

  function SetOf(ids: seq<string>): set<string> {
    set id | id in ids
  }

  /** The elements of a set in ascending order. */
  method SortSet(ids: set<string>) returns (r: seq<string>)
    ensures Ordering.IsSorted(Ordering.LexLeq, r) && NoRepeats(r) && SetOf(r) == ids
  {
    var listed: seq<string> := [];
    var rest := ids;
    while rest != {}
      invariant rest <= ids && NoRepeats(listed)
      invariant SetOf(listed) == ids - rest
      decreases rest
    {
      var id :| id in rest;
      assert SetOf(listed + [id]) == SetOf(listed) + {id};
      assert id !in SetOf(listed);
      listed := listed + [id];
      rest := rest - {id};
    }
    r := Ordering.Sorted(Ordering.LexLeq, listed);
    SortedIds(listed);
  }

  lemma LexIsTotal()
    ensures Ordering.TotalPreorder(Ordering.LexLeq)
  {
    forall a, b
      ensures Ordering.LexLeq(a, b) || Ordering.LexLeq(b, a)
    {
      Ordering.LexTotal(a, b);
    }
    forall a, b, c | Ordering.LexLeq(a, b) && Ordering.LexLeq(b, c)
      ensures Ordering.LexLeq(a, c)
    {
      Ordering.LexTransitive(a, b, c);
    }
  }

  lemma CountsOfDistinct(ids: seq<string>)
    ensures NoRepeats(ids) <==> forall id :: multiset(ids)[id] <= 1
  {
    Ordering.DifferentByCount(ids);
  }

  lemma {:induction false} SortedIds(ids: seq<string>)
    requires NoRepeats(ids)
    ensures var r := Ordering.Sorted(Ordering.LexLeq, ids);
            Ordering.IsSorted(Ordering.LexLeq, r) && NoRepeats(r) && SetOf(r) == SetOf(ids)
  {
    var r := Ordering.Sorted(Ordering.LexLeq, ids);
    LexIsTotal();
    Ordering.SortedKeeps(Ordering.LexLeq, ids);
    Ordering.SortedIsSorted(Ordering.LexLeq, ids);
    CountsOfDistinct(ids);
    CountsOfDistinct(r);
    forall id
      ensures id in r <==> id in ids
    {
      assert id in r <==> id in multiset(r);
      assert id in ids <==> id in multiset(ids);
    }
  }

  /** Ascending listings of one set are equal. */
  lemma AscendingIsUnique(a: seq<string>, b: seq<string>)
    requires Ordering.IsSorted(Ordering.LexLeq, a) && NoRepeats(a)
    requires Ordering.IsSorted(Ordering.LexLeq, b) && NoRepeats(b)
    requires SetOf(a) == SetOf(b)
    ensures a == b
  {
    CountsOfDistinct(a);
    CountsOfDistinct(b);
    forall id
      ensures multiset(a)[id] == multiset(b)[id]
    {
      assert id in SetOf(a) <==> id in multiset(a);
      assert id in SetOf(b) <==> id in multiset(b);
    }
    assert multiset(a) == multiset(b);
    forall x, y | x in multiset(a) && y in multiset(a) && Ordering.LexLeq(x, y) && Ordering.LexLeq(y, x)
      ensures x == y
    {
      Ordering.LexTotal(x, y);
    }
    Ordering.SortedIsUnique(Ordering.LexLeq, a, b);
  }

  /** For sessions in id order the provenance of an entity is ascending, without repeats, and exact. */
  lemma {:induction false} TouchedByIsExact(sources: seq<Source>, entityId: string, k: nat)
    requires k <= |sources| && Ordering.IsSorted(IdLeq, sources)
    ensures var ids := TouchedBy(sources, entityId, k);
            && Ordering.IsSorted(Ordering.LexLeq, ids) && NoRepeats(ids)
            && forall id :: id in ids <==> exists i :: 0 <= i < k && sources[i].id == id && entityId in sources[i].touched
  {
    if k > 0 {
      TouchedByIsExact(sources, entityId, k - 1);
      var before := TouchedBy(sources, entityId, k - 1);
      forall i | 0 <= i < |before|
        ensures Ordering.LexLeq(before[i], sources[k - 1].id)
      {
        assert before[i] in before;
        var j :| 0 <= j < k - 1 && sources[j].id == before[i] && entityId in sources[j].touched;
        assert IdLeq(sources[j], sources[k - 1]);
      }
    }
  }

  lemma {:induction false} TouchOrderIsExact(sources: seq<Source>, k: nat)
    requires k <= |sources|
    ensures NoRepeats(TouchOrder(sources, k))
    ensures forall id :: id in TouchOrder(sources, k) <==> exists i :: 0 <= i < k && id in sources[i].touched
  {
    if k > 0 {
      TouchOrderIsExact(sources, k - 1);
      AddAllIsExact(TouchOrder(sources, k - 1), sources[k - 1].touched);
    }
  }

  /**
   Every touched entity has exactly one entry, no other has any, and its
   provenance is exactly the ascending set of the selected sessions that touched it.
   */
  lemma UnionIsExact(selected: seq<Source>)
    ensures var union := UnionOf(selected);
            && (forall i, j :: 0 <= i < j < |union| ==> union[i].0 != union[j].0)
            && (forall s, id :: s in selected && id in s.touched ==> exists i :: 0 <= i < |union| && union[i].0 == id)
            && forall i :: 0 <= i < |union| ==> union[i].1 != [] && ProvenanceIsExact(selected, union[i].0, union[i].1)
  {
    var byId := Ordering.Sorted(IdLeq, selected);
    OrdersAreTotal();
    Ordering.SortedKeeps(IdLeq, selected);
    Ordering.SortedIsSorted(IdLeq, selected);
    TouchOrderIsExact(byId, |byId|);
    var order := TouchOrder(byId, |byId|);
    var union := UnionOf(selected);
    forall s, id | s in selected && id in s.touched
      ensures exists i :: 0 <= i < |union| && union[i].0 == id
    {
      assert s in multiset(byId);
      var j :| 0 <= j < |byId| && byId[j] == s;
      assert id in order;
      var i :| 0 <= i < |order| && order[i] == id;
      assert union[i].0 == id;
    }
    forall i | 0 <= i < |union|
      ensures union[i].1 != [] && ProvenanceIsExact(selected, union[i].0, union[i].1)
    {
      TouchedByIsExact(byId, order[i], |byId|);
      assert order[i] in order;
      var k :| 0 <= k < |byId| && order[i] in byId[k].touched;
      assert byId[k].id in union[i].1;
      ProvenanceOfSorted(selected, byId, order[i], union[i].1);
    }
  }

  ghost predicate ProvenanceIsExact(selected: seq<Source>, entityId: string, ids: seq<string>) {
    && Ordering.IsSorted(Ordering.LexLeq, ids) && NoRepeats(ids)
    && forall id :: id in ids <==> exists s :: s in selected && s.id == id && entityId in s.touched
  }

  lemma ProvenanceOfSorted(selected: seq<Source>, byId: seq<Source>, entityId: string, ids: seq<string>)
    requires multiset(selected) == multiset(byId)
    requires Ordering.IsSorted(Ordering.LexLeq, ids) && NoRepeats(ids)
    requires forall id :: id in ids <==> exists i :: 0 <= i < |byId| && byId[i].id == id && entityId in byId[i].touched
    ensures ProvenanceIsExact(selected, entityId, ids)
  {
    forall id
      ensures id in ids <==> exists s :: s in selected && s.id == id && entityId in s.touched
    {
      if id in ids {
        var i :| 0 <= i < |byId| && byId[i].id == id && entityId in byId[i].touched;
        assert byId[i] in multiset(selected);
        assert byId[i] in selected;
      }
      if exists s :: s in selected && s.id == id && entityId in s.touched {
        var s :| s in selected && s.id == id && entityId in s.touched;
        assert s in multiset(byId);
        var i :| 0 <= i < |byId| && byId[i] == s;
      }
    }
  }

  /** The dictionary of session sets, with every id met so far in first-met order. */
  ghost predicate Holds(provenance: map<string, set<string>>, order: seq<string>, sources: seq<Source>, k: nat)
    requires k <= |sources|
  {
    && order == TouchOrder(sources, k)
    && (forall id :: id in provenance <==> id in order)
    && forall id :: id in provenance ==> provenance[id] == SetOf(TouchedBy(sources, id, k))
  }

  /** The same in the middle of one session's list. */
  ghost predicate HoldsPartly(provenance: map<string, set<string>>, order: seq<string>, sources: seq<Source>, k: nat, m: nat)
    requires k < |sources| && m <= |sources[k].touched|
  {
    && order == AddAllUnique(TouchOrder(sources, k), sources[k].touched[..m])
    && (forall id :: id in provenance <==> id in order)
    && forall id :: id in provenance ==>
         provenance[id] == SetOf(TouchedBy(sources, id, k)) + (if id in sources[k].touched[..m] then {sources[k].id} else {})
  }

  /** What one touched id makes of the dictionary and the order. */
  function Touch(provenance: map<string, set<string>>, id: string, session: string): map<string, set<string>> {
    provenance[id := (if id in provenance then provenance[id] else {}) + {session}]
  }

  lemma OneTouchMore(provenance: map<string, set<string>>, order: seq<string>, sources: seq<Source>, k: nat, m: nat)
    requires k < |sources| && m < |sources[k].touched| && HoldsPartly(provenance, order, sources, k, m)
    ensures HoldsPartly(Touch(provenance, sources[k].touched[m], sources[k].id), AddUnique(order, sources[k].touched[m]), sources, k, m + 1)
  {
    var touched, id := sources[k].touched, sources[k].touched[m];
    assert touched[..m + 1] == touched[..m] + [id] && touched[..m + 1][..m] == touched[..m];
    if id !in provenance {
      TouchOrderIsExact(sources, k);
      AddAllIsExact(TouchOrder(sources, k), touched[..m]);
      NotTouchedYet(sources, id, k);
    }
  }

  lemma SessionDone(provenance: map<string, set<string>>, order: seq<string>, sources: seq<Source>, k: nat)
    requires k < |sources| && HoldsPartly(provenance, order, sources, k, |sources[k].touched|)
    ensures Holds(provenance, order, sources, k + 1)
  {
    var touched := sources[k].touched;
    assert touched[..|touched|] == touched;
    forall id | id in provenance
      ensures provenance[id] == SetOf(TouchedBy(sources, id, k + 1))
    {
      assert SetOf(AddUnique(TouchedBy(sources, id, k), sources[k].id)) == SetOf(TouchedBy(sources, id, k)) + {sources[k].id};
    }
  }

  method TouchSession(before: map<string, set<string>>, known: seq<string>, sources: seq<Source>, k: nat)
    returns (provenance: map<string, set<string>>, order: seq<string>)
    requires k < |sources| && Holds(before, known, sources, k)
    ensures Holds(provenance, order, sources, k + 1)
  {
    provenance, order := before, known;
    for m := 0 to |sources[k].touched|
      invariant HoldsPartly(provenance, order, sources, k, m)
    {
      var id := sources[k].touched[m];
      OneTouchMore(provenance, order, sources, k, m);
      if id !in provenance {
        provenance := provenance[id := {}];
        order := order + [id];
      }
      provenance := provenance[id := provenance[id] + {sources[k].id}];
    }
    SessionDone(provenance, order, sources, k);
  }

  lemma {:induction false} NotTouchedYet(sources: seq<Source>, entityId: string, k: nat)
    requires k <= |sources| && entityId !in TouchOrder(sources, k)
    ensures TouchedBy(sources, entityId, k) == []
  {
    if k > 0 {
      TouchOrderIsExact(sources, k - 1);
      AddAllIsExact(TouchOrder(sources, k - 1), sources[k - 1].touched);
      NotTouchedYet(sources, entityId, k - 1);
    }
  }

  method UnionTouched(selected: seq<Source>) returns (r: Result<seq<(string, seq<string>)>, Reason>)
    ensures r == if |UnionOf(selected)| > MAX_TOUCHED_ENTITIES then Err(InputTooLarge) else Ok(UnionOf(selected))
  {
    var byId := Ordering.Sorted(IdLeq, selected);
    OrdersAreTotal();
    Ordering.SortedIsSorted(IdLeq, selected);
    var provenance: map<string, set<string>> := map[];
    var order: seq<string> := [];
    for k := 0 to |byId|
      invariant Holds(provenance, order, byId, k)
    {
      provenance, order := TouchSession(provenance, order, byId, k);
    }
    if |order| > MAX_TOUCHED_ENTITIES {
      return Err(InputTooLarge);
    }
    var union: seq<(string, seq<string>)> := [];
    for i := 0 to |order|
      invariant union == UnionOf(selected)[..i]
    {
      var ids := SortSet(provenance[order[i]]);
      TouchedByIsExact(byId, order[i], |byId|);
      AscendingIsUnique(ids, TouchedBy(byId, order[i], |byId|));
      union := union + [(order[i], ids)];
    }
    assert UnionOf(selected)[..|order|] == UnionOf(selected);
    return Ok(union);
  }

  /** The limit first, then the sessions, then the entities they touched. */
  function Selection(listing: seq<Session>, limit: int): Result<(seq<Source>, seq<(string, seq<string>)>), Reason> {
    if ValidLimit(limit).Some? then Err(ValidLimit(limit).value)
    else
      match Collect(listing)
      case Err(reason) => Err(reason)
      case Ok(completed) =>
        var selected := SelectRecent(completed, limit);
        if |UnionOf(selected)| > MAX_TOUCHED_ENTITIES then Err(InputTooLarge) else Ok((selected, UnionOf(selected)))
  }

  method SelectSessions(listing: seq<Session>, limit: int) returns (r: Result<(seq<Source>, seq<(string, seq<string>)>), Reason>)
    ensures r == Selection(listing, limit)
  {
    var problem := ValidLimit(limit);
    if problem.Some? {
      return Err(problem.value);
    }
    var completed := CollectCompletedSessions(listing);
    if completed.Err? {
      return Err(completed.error);
    }
    var selected := SelectRecent(completed.value, limit);
    var union := UnionTouched(selected);
    if union.Err? {
      return Err(union.error);
    }
    return Ok((selected, union.value));
  }

  /** The whole outcome, failures included, is the same for every order of a listing that can be collected. */
  lemma {:induction false} OutcomeIgnoresListingOrder(a: seq<Session>, b: seq<Session>, limit: int)
    requires multiset(a) == multiset(b) && Collect(a).Ok? && DistinctIds(Collect(a).value)
    ensures Selection(a, limit) == Selection(b, limit)
  {
    if ValidLimit(limit).None? {
      SelectionIgnoresListingOrder(a, b, limit);
    }
  }
}
