/** Where every recognized candidate goes: bindable, conflicting with a reason, or an issue. */
module CanonicalPlaces {
  import opened Wrappers
  import opened Domain
  import opened Binding
  import opened Canonical

  /** Two candidates carry the id. */
  ghost predicate Shared(candidates: seq<Candidate>, id: string) {
    exists i, j :: 0 <= i < j < |candidates| && HasId(candidates[i], id) && HasId(candidates[j], id)
  }

  /** What is kept of a document: its id and type, and name and aliases normalized. */
  predicate RowSays(norm: string -> string, row: Row, document: Document) {
    && row.id == document.entity.id && row.etype == document.entity.etype && row.name == norm(document.entity.name)
    && |row.aliases| == |document.aliases| && forall a :: 0 <= a < |row.aliases| ==> row.aliases[a] == norm(document.aliases[a])
  }

  /** A bindable view is made of this candidate: parsed, where it belongs, and alone with its id. */
  ghost predicate BoundFrom(norm: string -> string, candidates: seq<Candidate>, v: View, c: Candidate) {
    && c.document.Some? && c.outcome == IsCanonical && !Shared(candidates, c.document.value.entity.id)
    && v.path == c.path && v.document == c.document.value && v.revision == c.document.value.entity.revision
    && RowSays(norm, v.row, c.document.value)
  }

  /** A conflicting identity is made of this candidate: its id is shared, or else its place is wrong. */
  ghost predicate ConflictsFrom(norm: string -> string, candidates: seq<Candidate>, v: ConflictView, c: Candidate) {
    && c.document.Some? && v.path == c.path && RowSays(norm, v.row, c.document.value)
    && (if Shared(candidates, c.document.value.entity.id) then v.reason == DuplicateEntityId
        else c.outcome != IsCanonical && v.reason == TypeDirectoryMismatch)
  }

  predicate IssueFrom(v: CandidateIssue, c: Candidate) {
    c.document.None? && v.path == c.path && v.outcome == c.outcome
  }

  lemma {:induction false} GroupCounts(candidates: seq<Candidate>, id: string)
    ensures |Group(candidates, id)| >= 1 <==> exists i :: 0 <= i < |candidates| && HasId(candidates[i], id)
    ensures |Group(candidates, id)| > 1 <==> Shared(candidates, id)
  {
    if candidates != [] {
      var front, n := candidates[..|candidates| - 1], |candidates| - 1;
      GroupCounts(front, id);
      assert forall i :: 0 <= i < n ==> candidates[i] == front[i];
      if Shared(candidates, id) {
        var i, j :| 0 <= i < j < |candidates| && HasId(candidates[i], id) && HasId(candidates[j], id);
        if j < n {
          assert HasId(front[i], id) && HasId(front[j], id);
        } else {
          assert HasId(front[i], id);
        }
      }
      if |Group(candidates, id)| > 1 && |Group(front, id)| == 1 {
        var i :| 0 <= i < |front| && HasId(front[i], id);
        assert HasId(candidates[i], id) && HasId(candidates[n], id);
      }
    }
  }

  lemma RowOfSays(norm: string -> string, document: Document)
    ensures RowSays(norm, RowOf(norm, document), document)
    ensures forall row :: RowSays(norm, row, document) ==> row == RowOf(norm, document)
  {
    forall row | RowSays(norm, row, document)
      ensures row == RowOf(norm, document)
    {
      assert row.aliases == NormalizeAll(norm, document.aliases);
    }
  }

  lemma {:induction false} BoundFromIs(norm: string -> string, all: seq<Candidate>, v: View, c: Candidate)
    ensures BoundFrom(norm, all, v, c) && |Group(all, c.document.value.entity.id)| >= 1 <==> v in BindablePart(norm, GroupOf(all, c), c)
  {
    if c.document.Some? {
      GroupCounts(all, c.document.value.entity.id);
      RowOfSays(norm, c.document.value);
    }
  }

  lemma ConflictsFromIs(norm: string -> string, all: seq<Candidate>, v: ConflictView, c: Candidate)
    ensures ConflictsFrom(norm, all, v, c) <==> v in ConflictPart(norm, GroupOf(all, c), c)
  {
    if c.document.Some? {
      GroupCounts(all, c.document.value.entity.id);
      RowOfSays(norm, c.document.value);
    }
  }

  lemma {:induction false} BindablesAreBound(norm: string -> string, candidates: seq<Candidate>, all: seq<Candidate>, ids: set<string>, v: View)
    requires forall c :: c in candidates && Identified(c) ==> IdOf(c) in ids && |Group(all, IdOf(c))| >= 1
    ensures v in Bindables(norm, candidates, all, ids) <==> exists c :: c in candidates && BoundFrom(norm, all, v, c)
  {
    if candidates != [] {
      var front, last := candidates[..|candidates| - 1], candidates[|candidates| - 1];
      assert last in candidates && forall c :: c in candidates <==> c in front || c == last;
      BindablesAreBound(norm, front, all, ids, v);
      BoundFromIs(norm, all, v, last);
    }
  }

  lemma {:induction false} ConflictsAreConflicting(norm: string -> string, candidates: seq<Candidate>, all: seq<Candidate>, ids: set<string>, v: ConflictView)
    requires forall c :: c in candidates && Identified(c) ==> IdOf(c) in ids
    ensures v in Conflicts(norm, candidates, all, ids) <==> exists c :: c in candidates && ConflictsFrom(norm, all, v, c)
  {
    if candidates != [] {
      var front, last := candidates[..|candidates| - 1], candidates[|candidates| - 1];
      assert last in candidates && forall c :: c in candidates <==> c in front || c == last;
      ConflictsAreConflicting(norm, front, all, ids, v);
      ConflictsFromIs(norm, all, v, last);
    }
  }

  lemma {:induction false} IssuesAreUnidentified(candidates: seq<Candidate>, v: CandidateIssue)
    ensures v in IssuesOf(candidates) <==> exists c :: c in candidates && IssueFrom(v, c)
  {
    if candidates != [] {
      var front, last := candidates[..|candidates| - 1], candidates[|candidates| - 1];
      assert last in candidates && forall c :: c in candidates <==> c in front || c == last;
      IssuesAreUnidentified(front, v);
    }
  }

  /**
   In the projection the builder returns, the bindable views are exactly those of
   the parsed candidates in the right directory that have their id to themselves;
   the conflicts exactly the other parsed ones, each with its reason; the issues
   exactly the unparsed ones.
   */
  lemma {:induction false} EveryCandidateGoesToItsPlace(s: Snapshot, norm: string -> string, candidates: seq<Candidate>)
    requires multiset(s.bindable) == multiset(Bindables(norm, candidates, candidates, IdSet(Ids(candidates))))
    requires multiset(s.conflicts) == multiset(Conflicts(norm, candidates, candidates, IdSet(Ids(candidates))))
    requires multiset(s.issues) == multiset(IssuesOf(candidates))
    ensures forall v :: v in s.bindable <==> exists c :: c in candidates && BoundFrom(norm, candidates, v, c)
    ensures forall v :: v in s.conflicts <==> exists c :: c in candidates && ConflictsFrom(norm, candidates, v, c)
    ensures forall v :: v in s.issues <==> exists c :: c in candidates && IssueFrom(v, c)
  {
    var ids := IdSet(Ids(candidates));
    IdsAre(candidates);
    forall c | c in candidates && Identified(c)
      ensures IdOf(c) in ids && |Group(candidates, IdOf(c))| >= 1
    {
      GroupMembers(candidates, IdOf(c));
      assert c in Group(candidates, IdOf(c));
    }
    forall v
      ensures v in s.bindable <==> exists c :: c in candidates && BoundFrom(norm, candidates, v, c)
    {
      BindablesAreBound(norm, candidates, candidates, ids, v);
      assert v in s.bindable <==> v in multiset(s.bindable);
    }
    forall v
      ensures v in s.conflicts <==> exists c :: c in candidates && ConflictsFrom(norm, candidates, v, c)
    {
      ConflictsAreConflicting(norm, candidates, candidates, ids, v);
      assert v in s.conflicts <==> v in multiset(s.conflicts);
    }
    forall v
      ensures v in s.issues <==> exists c :: c in candidates && IssueFrom(v, c)
    {
      IssuesAreUnidentified(candidates, v);
      assert v in s.issues <==> v in multiset(s.issues);
    }
  }
}
