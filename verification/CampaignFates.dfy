/** Which listed sessions become sources, why a listing is refused, and what a selection holds. */
module CampaignFates {
  import opened Wrappers
  import Ordering
  import opened CampaignSource

  /** A finished session whose times and tick are there and in order. */
  predicate TimesAreSound(s: Session) {
    match s
    case Session(_, _, startedAt, Some(finishedAt), Some(_), _, _) => startedAt <= finishedAt
    case _ => false
  }

  predicate TouchedIsSound(touched: Touched) {
    match touched
    case Absent => true
    case NotAList => false
    case Items(items) => forall i :: 0 <= i < |items| ==> items[i] != None
  }

  predicate Sound(s: Session) {
    s.status == "active" || (s.status == "completed" && TimesAreSound(s) && TouchedIsSound(s.touched))
  }

  /** Why a session that is not sound stops the collection. */
  function FaultOf(s: Session): Reason {
    if s.status == "completed" && TimesAreSound(s) then InvalidTouchedEntities else InvalidCompletedSession
  }

  /** The source repeats its session, with the touched ids in the order of the field. */
  predicate Mirrors(source: Source, s: Session) {
    && source.id == s.id && Some(source.finishedAt) == s.finishedAt && source.revision == s.revision
    && match s.touched
       case Items(items) => |source.touched| == |items| && forall i :: 0 <= i < |items| ==> Some(source.touched[i]) == items[i]
       case _ => source.touched == []
  }

  /** `places` are the positions of the completed sessions, ascending, and `sources` mirrors them in that order. */
  ghost predicate MirrorsAll(listing: seq<Session>, places: seq<nat>, sources: seq<Source>) {
    && |places| == |sources|
    && (forall p :: p in places <==> 0 <= p < |listing| && listing[p].status == "completed")
    && (forall i, j :: 0 <= i < j < |places| ==> places[i] < places[j])
    && forall i :: 0 <= i < |places| ==> places[i] < |listing| && Mirrors(sources[i], listing[places[i]])
  }

  ghost predicate AreTheCompleted(listing: seq<Session>, sources: seq<Source>) {
    exists places: seq<nat> :: MirrorsAll(listing, places, sources)
  }

  predicate FirstFault(listing: seq<Session>, k: nat) {
    k < |listing| && !Sound(listing[k]) && forall j :: 0 <= j < k ==> Sound(listing[j])
  }

  ghost predicate Refused(listing: seq<Session>, reason: Reason) {
    exists k: nat :: FirstFault(listing, k) && reason == FaultOf(listing[k])
  }

  lemma {:induction false} TouchedIdsIff(items: seq<Option<string>>)
    ensures AllIds(items).Some? <==> forall i :: 0 <= i < |items| ==> items[i] != None
    ensures AllIds(items).Some? ==> |AllIds(items).value| == |items|
    ensures AllIds(items).Some? ==> forall i :: 0 <= i < |items| ==> Some(AllIds(items).value[i]) == items[i]
  {
    if items != [] {
      var front := items[..|items| - 1];
      TouchedIdsIff(front);
      assert items == front + [items[|items| - 1]];
    }
  }

  lemma {:induction false} SourceOfIs(s: Session)
    ensures SourceOf(s).Ok? <==> Sound(s)
    ensures SourceOf(s).Err? ==> SourceOf(s).error == FaultOf(s)
    ensures SourceOf(s).Ok? && s.status != "completed" ==> SourceOf(s).value == []
    ensures SourceOf(s).Ok? && s.status == "completed" ==> |SourceOf(s).value| == 1 && Mirrors(SourceOf(s).value[0], s)
  {
    if s.touched.Items? {
      TouchedIdsIff(s.touched.ids);
    }
  }

  lemma MirrorsOneMore(listing: seq<Session>, places: seq<nat>, sources: seq<Source>)
    requires listing != [] && MirrorsAll(listing[..|listing| - 1], places, sources) && Sound(listing[|listing| - 1])
    ensures SourceOf(listing[|listing| - 1]).Ok?
    ensures AreTheCompleted(listing, sources + SourceOf(listing[|listing| - 1]).value)
  {
    var n, s := |listing| - 1, listing[|listing| - 1];
    SourceOfIs(s);
    var more := SourceOf(s).value;
    assert forall p :: p in places ==> p < n && listing[p] == listing[..n][p];
    assert forall p: nat :: p < n ==> listing[p] == listing[..n][p];
    if s.status == "completed" {
      assert MirrorsAll(listing, places + [n], sources + more);
    } else {
      assert sources + more == sources;
      assert MirrorsAll(listing, places, sources);
    }
  }

  /** All sessions up to the last one are collected. */
  lemma {:induction false} OneMore(listing: seq<Session>)
    requires listing != [] && Collect(listing[..|listing| - 1]).Ok? && Sound(listing[|listing| - 1])
    requires AreTheCompleted(listing[..|listing| - 1], Collect(listing[..|listing| - 1]).value)
    ensures Collect(listing).Ok? && AreTheCompleted(listing, Collect(listing).value)
  {
    var before := Collect(listing[..|listing| - 1]).value;
    var places: seq<nat> :| MirrorsAll(listing[..|listing| - 1], places, before);
    MirrorsOneMore(listing, places, before);
  }

  lemma FaultStays(front: seq<Session>, s: Session, reason: Reason)
    requires Refused(front, reason)
    ensures Refused(front + [s], reason)
  {
    var k: nat :| FirstFault(front, k) && reason == FaultOf(front[k]);
    assert FirstFault(front + [s], k);
  }

  /**
   A listing is collected exactly when every session is active or soundly completed, and then
   the sources are the completed sessions in listing order; otherwise the first unsound one
   gives the reason.
   */
  lemma {:induction false} CollectedIff(listing: seq<Session>)
    ensures Collect(listing).Ok? <==> forall s :: s in listing ==> Sound(s)
    ensures if Collect(listing).Ok? then AreTheCompleted(listing, Collect(listing).value) else Refused(listing, Collect(listing).error)
  {
    if listing == [] {
      assert MirrorsAll([], [], []);
    } else {
      var n, front := |listing| - 1, listing[..|listing| - 1];
      CollectedIff(front);
      SourceOfIs(listing[n]);
      assert listing == front + [listing[n]];
      if Collect(front).Err? {
        FaultStays(front, listing[n], Collect(front).error);
      } else if Sound(listing[n]) {
        OneMore(listing);
      } else {
        assert FirstFault(listing, n);
      }
    }
  }

  /** `a` was finished later than `b`, or at the same time with an id not behind. */
  predicate Before(a: Source, b: Source) {
    a.finishedAt > b.finishedAt || (a.finishedAt == b.finishedAt && Ordering.LexLeq(a.id, b.id))
  }

  /** The selection is a cut of the completed sessions in that order, as long as the limit allows. */
  predicate IsCut(completed: seq<Source>, limit: nat, selected: seq<Source>, rest: seq<Source>) {
    && multiset(selected + rest) == multiset(completed)
    && |selected| == (if |completed| < limit then |completed| else limit)
    && (forall i, j :: 0 <= i < j < |selected| ==> Before(selected[i], selected[j]))
    && forall i, j :: 0 <= i < |selected| && 0 <= j < |rest| ==> Before(selected[i], rest[j])
  }

  ghost predicate MostRecent(completed: seq<Source>, limit: nat, selected: seq<Source>) {
    exists rest: seq<Source> :: IsCut(completed, limit, selected, rest)
  }

  lemma SelectedAreMostRecent(completed: seq<Source>, limit: nat)
    ensures MostRecent(completed, limit, SelectRecent(completed, limit))
  {
    SelectionIsMostRecent(completed, limit);
    var selected, rest := SelectRecent(completed, limit), LeftOut(completed, limit);
    forall a, b | RecentFirst(a, b)
      ensures Before(a, b)
    {
      if a.finishedAt == b.finishedAt {
        assert LaterFirst(b, a);
      }
    }
    assert IsCut(completed, limit, selected, rest);
  }

  /** The sessions listed with an entity are exactly the selected ones that touched it, ascending. */
  ghost predicate IsUnion(selected: seq<Source>, union: seq<(string, seq<string>)>) {
    && (forall i, j :: 0 <= i < j < |union| ==> union[i].0 != union[j].0)
    && (forall s, id :: s in selected && id in s.touched ==> exists i :: 0 <= i < |union| && union[i].0 == id && s.id in union[i].1)
    && forall i :: 0 <= i < |union| ==> union[i].1 != [] && ProvenanceIsExact(selected, union[i].0, union[i].1)
  }

  lemma UnionIsUnion(selected: seq<Source>)
    ensures IsUnion(selected, UnionOf(selected))
  {
    UnionIsExact(selected);
    var union := UnionOf(selected);
    forall s, id | s in selected && id in s.touched
      ensures exists i :: 0 <= i < |union| && union[i].0 == id && s.id in union[i].1
    {
      var i :| 0 <= i < |union| && union[i].0 == id;
      assert ProvenanceIsExact(selected, union[i].0, union[i].1);
    }
  }

  /** What a selection over the completed sessions answers. */
  ghost predicate Selects(listing: seq<Session>, limit: nat, r: Result<(seq<Source>, seq<(string, seq<string>)>), Reason>) {
    exists completed, selected, union ::
      AreTheCompleted(listing, completed) && MostRecent(completed, limit, selected) && IsUnion(selected, union) && r == Bounded(selected, union)
  }

  function Bounded(selected: seq<Source>, union: seq<(string, seq<string>)>): Result<(seq<Source>, seq<(string, seq<string>)>), Reason> {
    if |union| > 500 then Err(InputTooLarge) else Ok((selected, union))
  }

  /** The answer of a selection: its limit, its listing and its ceiling, in this order. */
  ghost predicate Answers(listing: seq<Session>, limit: int, r: Result<(seq<Source>, seq<(string, seq<string>)>), Reason>) {
    if limit < 1 then r == Err(InvalidSelectionLimit)
    else if limit > 100 then r == Err(InputTooLarge)
    else if forall s :: s in listing ==> Sound(s) then Selects(listing, limit, r)
    else r.Err? && Refused(listing, r.error)
  }

  /** Every call of the selection gives the answer its listing and limit ask for. */
  lemma SelectionAnswers(listing: seq<Session>, limit: int)
    ensures Answers(listing, limit, Selection(listing, limit))
  {
    if 1 <= limit <= 100 {
      CollectedIff(listing);
      if Collect(listing).Ok? {
        SelectsCompleted(listing, limit, Collect(listing).value);
      }
    }
  }

  lemma SelectsCompleted(listing: seq<Session>, limit: nat, completed: seq<Source>)
    requires AreTheCompleted(listing, completed)
    ensures Selects(listing, limit, Bounded(SelectRecent(completed, limit), UnionOf(SelectRecent(completed, limit))))
  {
    SelectedAreMostRecent(completed, limit);
    UnionIsUnion(SelectRecent(completed, limit));
  }
}
