/**
 The read-only canonical projection over recognized entity files: what may be bound,
 what only blocks, and what is reported.
 */
module Canonical {
  import opened Wrappers
  import opened Domain
  import opened Binding
  import Ordering

  datatype CandidateOutcome = IsCanonical | IsMalformed | IsMismatched | OutsideDirectory

  /** One entity file after recognition; the document is present when it could be parsed. */
  datatype Candidate = Candidate(path: string, outcome: CandidateOutcome, document: Option<Document>)

  /** A bindable entity. */
  datatype View = View(row: Row, path: string, revision: nat, document: Document)

  datatype ConflictReason = DuplicateEntityId | TypeDirectoryMismatch

  /** A parsed identity that cannot be bound but still blocks duplicates. */
  datatype ConflictView = ConflictView(row: Row, path: string, reason: ConflictReason)

  datatype CandidateIssue = CandidateIssue(path: string, outcome: CandidateOutcome)

  datatype Snapshot = Snapshot(bindable: seq<View>, conflicts: seq<ConflictView>, issues: seq<CandidateIssue>)

  /** Normalized text and id allocation are arbitrary functions. */
  datatype Rules = Rules(norm: string -> string, allocate: (EntityType, string) -> string)

  function NormalizeAll(norm: string -> string, texts: seq<string>): seq<string> {
    seq(|texts|, i requires 0 <= i < |texts| => norm(texts[i]))
  }

  function RowOf(norm: string -> string, document: Document): Row {
    var e := document.entity;
    Row(e.id, e.etype, norm(e.name), NormalizeAll(norm, document.aliases))
  }

  function ViewOf(norm: string -> string, path: string, document: Document): View {
    View(RowOf(norm, document), path, document.entity.revision, document)
  }

  function BindableRows(s: Snapshot): seq<Row> {
    seq(|s.bindable|, i requires 0 <= i < |s.bindable| => s.bindable[i].row)
  }

  function ConflictRows(s: Snapshot): seq<Row> {
    seq(|s.conflicts|, i requires 0 <= i < |s.conflicts| => s.conflicts[i].row)
  }

  /** What preflight reads of the projection. */
  function ListedDocuments(s: Snapshot): seq<Document> {
    seq(|s.bindable|, i requires 0 <= i < |s.bindable| => s.bindable[i].document)
  }

  /** Bindable ids are distinct and every view agrees with its document. */
  ghost predicate Sound(s: Snapshot, norm: string -> string) {
    && (forall i, j :: 0 <= i < j < |s.bindable| ==> s.bindable[i].row.id != s.bindable[j].row.id)
    && (forall i :: 0 <= i < |s.bindable| ==> s.bindable[i] == ViewOf(norm, s.bindable[i].path, s.bindable[i].document))
  }

  // Splitting the candidates

  predicate Identified(c: Candidate) {
    c.document.Some?
  }

  function IdOf(c: Candidate): string
    requires Identified(c)
  {
    c.document.value.entity.id
  }

  predicate HasId(c: Candidate, id: string) {
    Identified(c) && IdOf(c) == id
  }

  /** The candidates with one id, in order. */
  function Group(candidates: seq<Candidate>, id: string): seq<Candidate> {
    if candidates == [] then []
    else
      var last := candidates[|candidates| - 1];
      Group(candidates[..|candidates| - 1], id) + (if HasId(last, id) then [last] else [])
  }

  /** The ids in first-occurrence order. */
  function Ids(candidates: seq<Candidate>): seq<string> {
    if candidates == [] then []
    else
      var before, last := Ids(candidates[..|candidates| - 1]), candidates[|candidates| - 1];
      if Identified(last) then AddUnique(before, IdOf(last)) else before
  }

  function AsConflict(norm: string -> string, c: Candidate, reason: ConflictReason): ConflictView
    requires Identified(c)
  {
    ConflictView(RowOf(norm, c.document.value), c.path, reason)
  }

  /** What becomes of the only candidate, or of each of several, with one id. */
  function BindablePart(norm: string -> string, group: seq<Candidate>, c: Candidate): seq<View> {
    if Identified(c) && |group| == 1 && c.outcome == IsCanonical then [ViewOf(norm, c.path, c.document.value)] else []
  }

  function ConflictPart(norm: string -> string, group: seq<Candidate>, c: Candidate): seq<ConflictView> {
    if !Identified(c) then []
    else if |group| > 1 then [AsConflict(norm, c, DuplicateEntityId)]
    else if c.outcome != IsCanonical then [AsConflict(norm, c, TypeDirectoryMismatch)]
    else []
  }

  function GroupOf(all: seq<Candidate>, c: Candidate): seq<Candidate> {
    if Identified(c) then Group(all, IdOf(c)) else []
  }

  /** The bindable candidates: parsed, in the right directory, and alone with their id. */
  function Bindables(norm: string -> string, candidates: seq<Candidate>, all: seq<Candidate>, ids: set<string>): seq<View> {
    if candidates == [] then []
    else
      var last := candidates[|candidates| - 1];
      Bindables(norm, candidates[..|candidates| - 1], all, ids)
      + (if Identified(last) && IdOf(last) in ids then BindablePart(norm, GroupOf(all, last), last) else [])
  }

  /** The other parsed candidates, each with its reason. */
  function Conflicts(norm: string -> string, candidates: seq<Candidate>, all: seq<Candidate>, ids: set<string>): seq<ConflictView> {
    if candidates == [] then []
    else
      var last := candidates[|candidates| - 1];
      Conflicts(norm, candidates[..|candidates| - 1], all, ids)
      + (if Identified(last) && IdOf(last) in ids then ConflictPart(norm, GroupOf(all, last), last) else [])
  }

  function IssuesOf(candidates: seq<Candidate>): seq<CandidateIssue> {
    if candidates == [] then []
    else
      var last := candidates[|candidates| - 1];
      IssuesOf(candidates[..|candidates| - 1]) + (if Identified(last) then [] else [CandidateIssue(last.path, last.outcome)])
  }

  function IdSet(ids: seq<string>): set<string> {
    set id | id in ids
  }

  /** By case-folded path, then by path. */
  predicate PathLeq(fold: string -> string, a: string, b: string) {
    Ordering.PairLeq((fold(a), a), (fold(b), b))
  }

  lemma PathsAreOrdered(fold: string -> string)
    ensures Ordering.TotalPreorder((a: View, b: View) => PathLeq(fold, a.path, b.path))
    ensures Ordering.TotalPreorder((a: ConflictView, b: ConflictView) => PathLeq(fold, a.path, b.path))
    ensures Ordering.TotalPreorder((a: CandidateIssue, b: CandidateIssue) => PathLeq(fold, a.path, b.path))
  {
    forall a, b
      ensures PathLeq(fold, a, b) || PathLeq(fold, b, a)
    {
      Ordering.PairTotal((fold(a), a), (fold(b), b));
    }
    forall a, b, c | PathLeq(fold, a, b) && PathLeq(fold, b, c)
      ensures PathLeq(fold, a, c)
    {
      Ordering.PairTransitive((fold(a), a), (fold(b), b), (fold(c), c));
    }
  }

  method GroupCandidates(candidates: seq<Candidate>) returns (order: seq<string>, grouped: map<string, seq<Candidate>>, issues: seq<CandidateIssue>)
    ensures order == Ids(candidates) && issues == IssuesOf(candidates)
    ensures forall id :: (if id in grouped then grouped[id] else []) == Group(candidates, id)
  {
    order, grouped, issues := [], map[], [];
    for k := 0 to |candidates|
      invariant order == Ids(candidates[..k]) && issues == IssuesOf(candidates[..k])
      invariant forall id :: (if id in grouped then grouped[id] else []) == Group(candidates[..k], id)
      invariant forall id :: id in order <==> id in grouped
    {
      var c := candidates[k];
      assert candidates[..k + 1][..k] == candidates[..k];
      if c.document.None? {
        issues := issues + [CandidateIssue(c.path, c.outcome)];
      } else {
        var id := IdOf(c);
        if id !in grouped {
          order := order + [id];
        }
        grouped := grouped[id := (if id in grouped then grouped[id] else []) + [c]];
      }
    }
    assert candidates[..|candidates|] == candidates;
  }

  /** The conflicts of a group of several. */
  function AllConflicts(norm: string -> string, group: seq<Candidate>): seq<ConflictView> {
    if group == [] then []
    else
      var last := group[|group| - 1];
      AllConflicts(norm, group[..|group| - 1]) + (if Identified(last) then [AsConflict(norm, last, DuplicateEntityId)] else [])
  }

  method ListConflicts(norm: string -> string, group: seq<Candidate>) returns (conflicts: seq<ConflictView>)
    requires forall c :: c in group ==> Identified(c)
    ensures conflicts == AllConflicts(norm, group)
  {
    conflicts := [];
    for k := 0 to |group|
      invariant conflicts == AllConflicts(norm, group[..k])
    {
      assert group[..k + 1][..k] == group[..k];
      conflicts := conflicts + [AsConflict(norm, group[k], DuplicateEntityId)];
    }
    assert group[..|group|] == group;
  }

  lemma {:induction false} SortedGroupMembers(byPath: (Candidate, Candidate) -> bool, candidates: seq<Candidate>, id: string)
    ensures forall c :: c in Ordering.Sorted(byPath, Group(candidates, id)) ==> HasId(c, id)
    ensures multiset(Ordering.Sorted(byPath, Group(candidates, id))) == multiset(Group(candidates, id))
    ensures |Ordering.Sorted(byPath, Group(candidates, id))| == |Group(candidates, id)|
  {
    var group := Group(candidates, id);
    Ordering.SortedKeeps(byPath, group);
    GroupMembers(candidates, id);
    forall c | c in Ordering.Sorted(byPath, group)
      ensures c in group
    {
      assert c in multiset(group);
    }
  }

  method SplitGroup(norm: string -> string, fold: string -> string, group: seq<Candidate>, ghost candidates: seq<Candidate>, ghost id: string)
    returns (bindable: seq<View>, conflicts: seq<ConflictView>)
    requires group == Group(candidates, id) && group != []
    ensures bindable == Bindables(norm, candidates, candidates, {id})
    ensures multiset(conflicts) == multiset(Conflicts(norm, candidates, candidates, {id}))
  {
    var byPath := (a: Candidate, b: Candidate) => PathLeq(fold, a.path, b.path);
    var ordered := Ordering.Sorted(byPath, group);
    SortedGroupMembers(byPath, candidates, id);
    if |ordered| > 1 {
      SeveralInGroup(norm, candidates, candidates, id);
      ConflictsInAnyOrder(norm, ordered, group);
      bindable := [];
      conflicts := ListConflicts(norm, ordered);
    } else {
      OneInGroup(norm, candidates, candidates, id);
      SingleGroup(group, ordered);
      var c := ordered[0];
      assert c in ordered;
      bindable := if c.outcome == IsCanonical then [ViewOf(norm, c.path, c.document.value)] else [];
      conflicts := if c.outcome == IsCanonical then [] else [AsConflict(norm, c, TypeDirectoryMismatch)];
    }
  }

  lemma SingleGroup(group: seq<Candidate>, ordered: seq<Candidate>)
    requires multiset(group) == multiset(ordered) && |group| == |ordered| == 1
    ensures group == ordered
  {
    assert group == [group[0]] && ordered == [ordered[0]];
    assert group[0] in multiset(ordered);
  }

  lemma {:induction false} GroupMembers(candidates: seq<Candidate>, id: string)
    ensures forall c :: c in Group(candidates, id) <==> c in candidates && HasId(c, id)
  {
    if candidates != [] {
      var front, last := candidates[..|candidates| - 1], candidates[|candidates| - 1];
      GroupMembers(front, id);
      assert forall c :: c in candidates <==> c in front || c == last;
    }
  }

  /** Several candidates with one id all conflict. */
  lemma {:induction false} SeveralInGroup(norm: string -> string, candidates: seq<Candidate>, all: seq<Candidate>, id: string)
    requires |Group(all, id)| > 1
    ensures Bindables(norm, candidates, all, {id}) == []
    ensures Conflicts(norm, candidates, all, {id}) == AllConflicts(norm, Group(candidates, id))
  {
    if candidates != [] {
      SeveralInGroup(norm, candidates[..|candidates| - 1], all, id);
      var before, last := Group(candidates[..|candidates| - 1], id), candidates[|candidates| - 1];
      var was := Conflicts(norm, candidates[..|candidates| - 1], all, {id});
      assert was + [] == was && before + [] == before;
      if HasId(last, id) {
        assert (before + [last])[..|before|] == before;
        assert AllConflicts(norm, before + [last]) == AllConflicts(norm, before) + [AsConflict(norm, last, DuplicateEntityId)];
      } else {
        assert Group(candidates, id) == before;
      }
    }
  }

  /** The only candidate with an id decides what the id contributes. */
  lemma {:induction false} OneInGroup(norm: string -> string, candidates: seq<Candidate>, all: seq<Candidate>, id: string)
    requires |Group(all, id)| == 1 && |Group(candidates, id)| <= 1
    ensures var group := Group(candidates, id);
            && Bindables(norm, candidates, all, {id}) == (if group == [] then [] else BindablePart(norm, Group(all, id), group[0]))
            && Conflicts(norm, candidates, all, {id}) == (if group == [] then [] else ConflictPart(norm, Group(all, id), group[0]))
  {
    if candidates != [] {
      OneInGroup(norm, candidates[..|candidates| - 1], all, id);
    }
  }

  lemma {:induction false} ConflictsConcat(norm: string -> string, a: seq<Candidate>, b: seq<Candidate>)
    ensures AllConflicts(norm, a + b) == AllConflicts(norm, a) + AllConflicts(norm, b)
  {
    if b == [] {
      assert a + b == a;
    } else {
      assert (a + b)[..|a + b| - 1] == a + b[..|b| - 1];
      ConflictsConcat(norm, a, b[..|b| - 1]);
    }
  }

  lemma {:induction false} ConflictsInAnyOrder(norm: string -> string, a: seq<Candidate>, b: seq<Candidate>)
    requires multiset(a) == multiset(b)
    ensures multiset(AllConflicts(norm, a)) == multiset(AllConflicts(norm, b))
  {
    Ordering.SameMembers(a, b);
    if a != [] {
      var x := a[|a| - 1];
      var left, right := Ordering.FindLast(a, b);
      ConflictsInAnyOrder(norm, a[..|a| - 1], left + right);
      ConflictsConcat(norm, left, right);
      ConflictsConcat(norm, left, [x]);
      ConflictsConcat(norm, left + [x], right);
      assert [x][..0] == [];
    }
  }

  /** One more id adds what its candidates contribute. */
  lemma {:induction false} OneMoreId(norm: string -> string, candidates: seq<Candidate>, all: seq<Candidate>, ids: set<string>, id: string)
    requires id !in ids
    ensures multiset(Bindables(norm, candidates, all, ids + {id}))
         == multiset(Bindables(norm, candidates, all, ids)) + multiset(Bindables(norm, candidates, all, {id}))
    ensures multiset(Conflicts(norm, candidates, all, ids + {id}))
         == multiset(Conflicts(norm, candidates, all, ids)) + multiset(Conflicts(norm, candidates, all, {id}))
  {
    if candidates != [] {
      OneMoreId(norm, candidates[..|candidates| - 1], all, ids, id);
    }
  }

  lemma {:induction false} NoIds(norm: string -> string, candidates: seq<Candidate>, all: seq<Candidate>)
    ensures Bindables(norm, candidates, all, {}) == [] && Conflicts(norm, candidates, all, {}) == []
  {
    if candidates != [] {
      NoIds(norm, candidates[..|candidates| - 1], all);
    }
  }

  lemma {:induction false} IdsAre(candidates: seq<Candidate>)
    ensures NoRepeats(Ids(candidates))
    ensures forall id :: id in Ids(candidates) <==> Group(candidates, id) != []
  {
    if candidates != [] {
      IdsAre(candidates[..|candidates| - 1]);
    }
  }

  method BuildCanonicalSnapshot(norm: string -> string, fold: string -> string, candidates: seq<Candidate>) returns (s: Snapshot)
    ensures multiset(s.bindable) == multiset(Bindables(norm, candidates, candidates, IdSet(Ids(candidates))))
    ensures multiset(s.conflicts) == multiset(Conflicts(norm, candidates, candidates, IdSet(Ids(candidates))))
    ensures multiset(s.issues) == multiset(IssuesOf(candidates))
    ensures forall i, j :: 0 <= i < j < |s.bindable| ==> PathLeq(fold, s.bindable[i].path, s.bindable[j].path)
    ensures forall i, j :: 0 <= i < j < |s.conflicts| ==> PathLeq(fold, s.conflicts[i].path, s.conflicts[j].path)
    ensures forall i, j :: 0 <= i < j < |s.issues| ==> PathLeq(fold, s.issues[i].path, s.issues[j].path)
  {
    var order, grouped, issues := GroupCandidates(candidates);
    var bindable, conflicts := SplitGroups(norm, fold, candidates, order, grouped);
    s := SortParts(fold, bindable, conflicts, issues);
  }

  method SplitGroups(norm: string -> string, fold: string -> string, candidates: seq<Candidate>, order: seq<string>, grouped: map<string, seq<Candidate>>)
    returns (bindable: seq<View>, conflicts: seq<ConflictView>)
    requires order == Ids(candidates)
    requires forall id :: (if id in grouped then grouped[id] else []) == Group(candidates, id)
    ensures multiset(bindable) == multiset(Bindables(norm, candidates, candidates, IdSet(order)))
    ensures multiset(conflicts) == multiset(Conflicts(norm, candidates, candidates, IdSet(order)))
  {
    bindable, conflicts := [], [];
    IdsAre(candidates);
    NoIds(norm, candidates, candidates);
    assert IdSet(order[..0]) == {};
    for k := 0 to |order|
      invariant multiset(bindable) == multiset(Bindables(norm, candidates, candidates, IdSet(order[..k])))
      invariant multiset(conflicts) == multiset(Conflicts(norm, candidates, candidates, IdSet(order[..k])))
    {
      var moreBindable, moreConflicts := SplitGroup(norm, fold, grouped[order[k]], candidates, order[k]);
      NextId(norm, candidates, order, k);
      bindable := bindable + moreBindable;
      conflicts := conflicts + moreConflicts;
    }
    assert order[..|order|] == order;
  }

  lemma {:induction false} NextId(norm: string -> string, candidates: seq<Candidate>, order: seq<string>, k: nat)
    requires k < |order| && NoRepeats(order)
    ensures multiset(Bindables(norm, candidates, candidates, IdSet(order[..k + 1])))
         == multiset(Bindables(norm, candidates, candidates, IdSet(order[..k]))) + multiset(Bindables(norm, candidates, candidates, {order[k]}))
    ensures multiset(Conflicts(norm, candidates, candidates, IdSet(order[..k + 1])))
         == multiset(Conflicts(norm, candidates, candidates, IdSet(order[..k]))) + multiset(Conflicts(norm, candidates, candidates, {order[k]}))
  {
    assert order[..k + 1] == order[..k] + [order[k]];
    assert IdSet(order[..k + 1]) == IdSet(order[..k]) + {order[k]};
    assert order[k] !in order[..k];
    OneMoreId(norm, candidates, candidates, IdSet(order[..k]), order[k]);
  }

  method SortParts(fold: string -> string, bindable: seq<View>, conflicts: seq<ConflictView>, issues: seq<CandidateIssue>) returns (s: Snapshot)
    ensures multiset(s.bindable) == multiset(bindable) && multiset(s.conflicts) == multiset(conflicts) && multiset(s.issues) == multiset(issues)
    ensures forall i, j :: 0 <= i < j < |s.bindable| ==> PathLeq(fold, s.bindable[i].path, s.bindable[j].path)
    ensures forall i, j :: 0 <= i < j < |s.conflicts| ==> PathLeq(fold, s.conflicts[i].path, s.conflicts[j].path)
    ensures forall i, j :: 0 <= i < j < |s.issues| ==> PathLeq(fold, s.issues[i].path, s.issues[j].path)
  {
    var byView := (a: View, b: View) => PathLeq(fold, a.path, b.path);
    var byConflict := (a: ConflictView, b: ConflictView) => PathLeq(fold, a.path, b.path);
    var byIssue := (a: CandidateIssue, b: CandidateIssue) => PathLeq(fold, a.path, b.path);
    PathsAreOrdered(fold);
    Ordering.SortedKeeps(byView, bindable);
    Ordering.SortedIsSorted(byView, bindable);
    Ordering.SortedKeeps(byConflict, conflicts);
    Ordering.SortedIsSorted(byConflict, conflicts);
    Ordering.SortedKeeps(byIssue, issues);
    Ordering.SortedIsSorted(byIssue, issues);
    s := Snapshot(Ordering.Sorted(byView, bindable), Ordering.Sorted(byConflict, conflicts), Ordering.Sorted(byIssue, issues));
  }

  // What the split means

  function PathOfView(v: View): string { v.path }

  function PathOfConflict(v: ConflictView): string { v.path }

  function PathOfIssue(v: CandidateIssue): string { v.path }

  function PathOf(c: Candidate): string { c.path }

  /** The paths of the three lists together. */
  function PlacedPaths(bindable: seq<View>, conflicts: seq<ConflictView>, issues: seq<CandidateIssue>): multiset<string> {
    multiset(Ordering.Mapped(PathOfView, bindable)) + multiset(Ordering.Mapped(PathOfConflict, conflicts))
    + multiset(Ordering.Mapped(PathOfIssue, issues))
  }

  function CandidatePaths(candidates: seq<Candidate>): multiset<string> {
    multiset(Ordering.Mapped(PathOf, candidates))
  }

  /** Nothing is lost and nothing is placed twice: path by path, every candidate is in exactly one of the lists. */
  lemma {:induction false} EveryCandidateIsPlaced(norm: string -> string, candidates: seq<Candidate>, all: seq<Candidate>, ids: set<string>)
    requires forall c :: c in candidates && Identified(c) ==> IdOf(c) in ids && Group(all, IdOf(c)) != []
    ensures PlacedPaths(Bindables(norm, candidates, all, ids), Conflicts(norm, candidates, all, ids), IssuesOf(candidates)) == CandidatePaths(candidates)
    ensures |Bindables(norm, candidates, all, ids)| + |Conflicts(norm, candidates, all, ids)| + |IssuesOf(candidates)| == |candidates|
  {
    if candidates != [] {
      var front, last := candidates[..|candidates| - 1], candidates[|candidates| - 1];
      assert last in candidates;
      EveryCandidateIsPlaced(norm, front, all, ids);
      var bindable := if Identified(last) && IdOf(last) in ids then BindablePart(norm, GroupOf(all, last), last) else [];
      var conflict := if Identified(last) && IdOf(last) in ids then ConflictPart(norm, GroupOf(all, last), last) else [];
      var issue := if Identified(last) then [] else [CandidateIssue(last.path, last.outcome)];
      OnePlace(bindable, conflict, issue, last.path);
      PlacedConcat(Bindables(norm, front, all, ids), Conflicts(norm, front, all, ids), IssuesOf(front), bindable, conflict, issue);
    }
  }

  lemma OnePlace(bindable: seq<View>, conflict: seq<ConflictView>, issue: seq<CandidateIssue>, path: string)
    requires |bindable| + |conflict| + |issue| == 1
    requires bindable != [] ==> bindable[0].path == path
    requires conflict != [] ==> conflict[0].path == path
    requires issue != [] ==> issue[0].path == path
    ensures PlacedPaths(bindable, conflict, issue) == multiset{path}
  {
    Ordering.MappedOne(PathOfView, bindable);
    Ordering.MappedOne(PathOfConflict, conflict);
    Ordering.MappedOne(PathOfIssue, issue);
  }

  lemma PlacedConcat(a: seq<View>, b: seq<ConflictView>, c: seq<CandidateIssue>,
                     a': seq<View>, b': seq<ConflictView>, c': seq<CandidateIssue>)
    ensures PlacedPaths(a + a', b + b', c + c') == PlacedPaths(a, b, c) + PlacedPaths(a', b', c')
  {
    Ordering.MappedConcat(PathOfView, a, a');
    Ordering.MappedConcat(PathOfConflict, b, b');
    Ordering.MappedConcat(PathOfIssue, c, c');
  }

  function CountId(views: seq<View>, id: string): nat {
    if views == [] then 0 else CountId(views[..|views| - 1], id) + (if views[|views| - 1].row.id == id then 1 else 0)
  }

  lemma {:induction false} CountConcat(a: seq<View>, b: seq<View>, id: string)
    ensures CountId(a + b, id) == CountId(a, id) + CountId(b, id)
  {
    if b == [] {
      assert a + b == a;
    } else {
      assert (a + b)[..|a + b| - 1] == a + b[..|b| - 1];
      CountConcat(a, b[..|b| - 1], id);
    }
  }

  lemma {:induction false} CountInAnyOrder(a: seq<View>, b: seq<View>, id: string)
    requires multiset(a) == multiset(b)
    ensures CountId(a, id) == CountId(b, id)
  {
    Ordering.SameMembers(a, b);
    if a != [] {
      var x := a[|a| - 1];
      var left, right := Ordering.FindLast(a, b);
      CountInAnyOrder(a[..|a| - 1], left + right, id);
      CountConcat(left, right, id);
      CountConcat(left, [x], id);
      CountConcat(left + [x], right, id);
      assert [x][..0] == [];
    }
  }

  lemma {:induction false} TwiceCountsTwo(views: seq<View>, i: nat, j: nat)
    requires i < j < |views| && views[i].row.id == views[j].row.id
    ensures CountId(views, views[i].row.id) >= 2
  {
    var front := views[..|views| - 1];
    if j < |front| {
      TwiceCountsTwo(front, i, j);
    } else {
      OnceCountsOne(front, i);
    }
  }

  lemma {:induction false} OnceCountsOne(views: seq<View>, i: nat)
    requires i < |views|
    ensures CountId(views, views[i].row.id) >= 1
  {
    if i < |views| - 1 {
      OnceCountsOne(views[..|views| - 1], i);
    }
  }

  lemma {:induction false} OnePartCounts(norm: string -> string, all: seq<Candidate>, c: Candidate, id: string)
    ensures var part := BindablePart(norm, GroupOf(all, c), c);
            && CountId(part, id) <= (if |Group(all, id)| == 1 && HasId(c, id) then 1 else 0)
            && forall v :: v in part ==> v == ViewOf(norm, v.path, v.document)
  {
    var part := BindablePart(norm, GroupOf(all, c), c);
    if part != [] {
      assert part[..0] == [] && CountId(part[..0], id) == 0;
    }
  }

  /** Each bindable view is the view of its document, and no id has more views than candidates, or any unless it has one candidate. */
  lemma {:induction false} BindablesAre(norm: string -> string, candidates: seq<Candidate>, all: seq<Candidate>, ids: set<string>, id: string)
    ensures forall v :: v in Bindables(norm, candidates, all, ids) ==> v == ViewOf(norm, v.path, v.document)
    ensures CountId(Bindables(norm, candidates, all, ids), id) <= (if |Group(all, id)| == 1 then |Group(candidates, id)| else 0)
  {
    if candidates != [] {
      var front, last := candidates[..|candidates| - 1], candidates[|candidates| - 1];
      BindablesAre(norm, front, all, ids, id);
      OnePartCounts(norm, all, last, id);
      var before, part := Bindables(norm, front, all, ids), BindablePart(norm, GroupOf(all, last), last);
      CountConcat(before, part, id);
      assert before + [] == before;
      assert Bindables(norm, candidates, all, ids) == before + (if Identified(last) && IdOf(last) in ids then part else []);
      assert Group(candidates, id) == Group(front, id) + (if HasId(last, id) then [last] else []);
    }
  }

  lemma {:induction false} DistinctByCount(views: seq<View>)
    requires forall id :: CountId(views, id) <= 1
    ensures forall i, j :: 0 <= i < j < |views| ==> views[i].row.id != views[j].row.id
  {
    forall i, j | 0 <= i < j < |views| && views[i].row.id == views[j].row.id
      ensures CountId(views, views[i].row.id) >= 2
    {
      TwiceCountsTwo(views, i, j);
    }
  }

  lemma {:induction false} BindablesAreSound(views: seq<View>, norm: string -> string, candidates: seq<Candidate>, ids: set<string>)
    requires multiset(views) == multiset(Bindables(norm, candidates, candidates, ids))
    ensures forall i, j :: 0 <= i < j < |views| ==> views[i].row.id != views[j].row.id
    ensures forall v :: v in views ==> v == ViewOf(norm, v.path, v.document)
  {
    var bindables := Bindables(norm, candidates, candidates, ids);
    forall id
      ensures CountId(views, id) <= 1
    {
      BindablesAre(norm, candidates, candidates, ids, id);
      CountInAnyOrder(views, bindables, id);
    }
    DistinctByCount(views);
    BindablesAre(norm, candidates, candidates, ids, "");
    forall v | v in views
      ensures v in bindables
    {
      assert v in multiset(bindables);
    }
  }

  /**
   Whatever the candidates, the split gives a sound projection: bindable ids are
   distinct, every view agrees with its document, and bindable, conflicting and
   unusable candidates together are all of them.
   */
  lemma {:induction false} SplitIsSound(s: Snapshot, norm: string -> string, candidates: seq<Candidate>)
    requires multiset(s.bindable) == multiset(Bindables(norm, candidates, candidates, IdSet(Ids(candidates))))
    requires multiset(s.conflicts) == multiset(Conflicts(norm, candidates, candidates, IdSet(Ids(candidates))))
    requires multiset(s.issues) == multiset(IssuesOf(candidates))
    ensures Sound(s, norm)
    ensures PlacedPaths(s.bindable, s.conflicts, s.issues) == CandidatePaths(candidates)
    ensures |s.bindable| + |s.conflicts| + |s.issues| == |candidates|
  {
    var ids := IdSet(Ids(candidates));
    BindablesAreSound(s.bindable, norm, candidates, ids);
    IdsAre(candidates);
    forall c | c in candidates && Identified(c)
      ensures IdOf(c) in ids && Group(candidates, IdOf(c)) != []
    {
      GroupMembers(candidates, IdOf(c));
      assert c in Group(candidates, IdOf(c));
    }
    EveryCandidateIsPlaced(norm, candidates, candidates, ids);
    PlacedInAnyOrder(s, Bindables(norm, candidates, candidates, ids), Conflicts(norm, candidates, candidates, ids), IssuesOf(candidates));
  }

  lemma PlacedInAnyOrder(s: Snapshot, bindable: seq<View>, conflicts: seq<ConflictView>, issues: seq<CandidateIssue>)
    requires multiset(s.bindable) == multiset(bindable) && multiset(s.conflicts) == multiset(conflicts) && multiset(s.issues) == multiset(issues)
    ensures PlacedPaths(s.bindable, s.conflicts, s.issues) == PlacedPaths(bindable, conflicts, issues)
    ensures |s.bindable| == |bindable| && |s.conflicts| == |conflicts| && |s.issues| == |issues|
  {
    Ordering.MappedInAnyOrder(PathOfView, s.bindable, bindable);
    Ordering.MappedInAnyOrder(PathOfConflict, s.conflicts, conflicts);
    Ordering.MappedInAnyOrder(PathOfIssue, s.issues, issues);
    Ordering.SameLength(s.bindable, bindable);
    Ordering.SameLength(s.conflicts, conflicts);
    Ordering.SameLength(s.issues, issues);
  }
}
