/** What becomes of every discovered file: whether the model sees it, in which batch, and why it does not. */
module SourceFates {
  import opened Wrappers
  import opened Batching
  import Ordering

  // Which sources, in which order

  /** Every eligible entry is packed as often as it was discovered, and no other is. */
  lemma {:induction false} EligibleAre(entries: seq<Entry>, e: Entry)
    ensures multiset(EligibleOf(entries))[e] == if e.cls == Ineligible then 0 else multiset(entries)[e]
  {
    if entries != [] {
      var front, last := entries[..|entries| - 1], entries[|entries| - 1];
      assert entries == front + [last];
      EligibleAre(front, e);
    }
  }

  /** Entity candidates, then session sources, then user sources; within a class by case-folded path, then by path. */
  ghost predicate InOrder(fold: string -> string, a: Entry, b: Entry) {
    if a.cls == b.cls then
      Ordering.LexLeq(fold(a.path), fold(b.path)) && (fold(a.path) == fold(b.path) ==> Ordering.LexLeq(a.path, b.path))
    else a.cls == EntityCandidate || (a.cls == SessionSource && b.cls == UserSource)
  }

  ghost predicate DiffersAt(a: string, b: string, k: nat) {
    k < |a| && k < |b| && a[..k] == b[..k] && a[k] < b[k]
  }

  /** The text order of the paths: one is the beginning of the other, or has the smaller character at the first difference. */
  lemma {:induction false} LexLeqIff(a: string, b: string)
    ensures Ordering.LexLeq(a, b) <==> a <= b || exists k: nat :: DiffersAt(a, b, k)
  {
    if a != "" && b != "" {
      if a[0] == b[0] {
        LexLeqIff(a[1..], b[1..]);
        LexTails(a, b);
      } else {
        LexHeads(a, b);
      }
    }
  }

  lemma LexHeads(a: string, b: string)
    requires a != "" && b != "" && a[0] != b[0]
    ensures !(a <= b)
    ensures (exists k: nat :: DiffersAt(a, b, k)) <==> a[0] < b[0]
  {
    assert a[..0] == b[..0];
    assert a[0] < b[0] ==> DiffersAt(a, b, 0);
    if k: nat :| DiffersAt(a, b, k) {
      assert k > 0 ==> a[..k][0] == b[..k][0];
    }
  }

  lemma LexTails(a: string, b: string)
    requires a != "" && b != "" && a[0] == b[0]
    ensures a <= b <==> a[1..] <= b[1..]
    ensures (exists k: nat :: DiffersAt(a, b, k)) <==> exists k: nat :: DiffersAt(a[1..], b[1..], k)
  {
    assert a == [a[0]] + a[1..] && b == [b[0]] + b[1..];
    if k: nat :| DiffersAt(a, b, k) {
      assert a[1..][..k - 1] == a[..k][1..] && b[1..][..k - 1] == b[..k][1..];
      assert DiffersAt(a[1..], b[1..], k - 1);
    }
    if k: nat :| DiffersAt(a[1..], b[1..], k) {
      assert a[..k + 1] == [a[0]] + a[1..][..k] && b[..k + 1] == [b[0]] + b[1..][..k];
      assert DiffersAt(a, b, k + 1);
    }
  }

  lemma BeforeIsInOrder(fold: string -> string, a: Entry, b: Entry)
    requires Before(fold, a, b) && a.cls != Ineligible && b.cls != Ineligible
    ensures InOrder(fold, a, b)
  {
    Ordering.LexTotal(fold(a.path), fold(b.path));
  }

  /** The sources are listed in that order. */
  lemma SourcesAreInOrder(r: Renderer, fold: string -> string, entries: seq<Entry>)
    ensures var sources := Packed(r, fold, entries).projections;
            forall i, j :: 0 <= i < j < |sources| ==> InOrder(fold, sources[i].entry, sources[j].entry)
  {
    BatchesAreGood(r, fold, entries);
    PairsAreInOrder(fold, entries, Ordering.Sorted(Order(fold), EligibleOf(entries)));
  }

  lemma {:induction false} PairsAreInOrder(fold: string -> string, entries: seq<Entry>, eligible: seq<Entry>)
    requires multiset(eligible) == multiset(EligibleOf(entries)) && Ordering.IsSorted(Order(fold), eligible)
    ensures forall i, j :: 0 <= i < j < |eligible| ==> InOrder(fold, eligible[i], eligible[j])
  {
    forall i, j | 0 <= i < j < |eligible|
      ensures InOrder(fold, eligible[i], eligible[j])
    {
      EligibleOnly(entries, eligible, i);
      EligibleOnly(entries, eligible, j);
      assert Order(fold)(eligible[i], eligible[j]);
      BeforeIsInOrder(fold, eligible[i], eligible[j]);
    }
  }

  lemma {:induction false} EligibleOnly(entries: seq<Entry>, eligible: seq<Entry>, i: nat)
    requires multiset(eligible) == multiset(EligibleOf(entries)) && i < |eligible|
    ensures eligible[i].cls != Ineligible
  {
    assert eligible[i] in multiset(EligibleOf(entries));
    EligibleAre(entries, eligible[i]);
  }

  // Why a source is skipped

  /** The fate of one source, from the source alone, up to the number of batches. */
  ghost predicate FateIs(r: Renderer, p: Projection) {
    var readable := p.entry.status == Read && p.entry.content.Some?;
    && p.sourceRef == r.ref(p.entry.path)
    && (p.skip == Some(ReadFailed) <==> p.entry.status == Failed)
    && (p.skip == Some(SkippedBudget) <==> p.entry.status == Skipped)
    && (p.skip == Some(NotRead) <==> p.entry.status == NotEligible || (p.entry.status == Read && p.entry.content == None))
    && (p.skip == Some(TooLarge) <==> readable && |r.block(p.entry)| > 200_000)
    && (p.skip == None || p.skip == Some(BatchLimit) <==> readable && |r.block(p.entry)| <= 200_000)
  }

  lemma PackDecides(r: Renderer, st: Packing, entry: Entry)
    ensures var now := Pack(st, r, entry).projections;
            now == st.projections + [now[|st.projections|]] && now[|st.projections|].entry == entry && FateIs(r, now[|st.projections|])
  {
  }

  lemma {:induction false} PackingDecides(r: Renderer, entries: seq<Entry>, k: nat)
    requires k <= |entries|
    ensures forall i :: 0 <= i < |PackUpTo(r, entries, k).projections| ==> FateIs(r, PackUpTo(r, entries, k).projections[i])
  {
    if k > 0 {
      PackingDecides(r, entries, k - 1);
      PackDecides(r, PackUpTo(r, entries, k - 1), entries[k - 1]);
    }
  }

  /** The first source dropped for the batch limit: all batches are closed, and the last has no room for it. */
  ghost predicate FirstDropped(projections: seq<Projection>, i: nat) {
    && i < |projections| && projections[i].skip == Some(BatchLimit)
    && forall j :: 0 <= j < i ==> projections[j].skip != Some(BatchLimit)
  }

  ghost predicate NoRoomFor(r: Renderer, closed: seq<seq<Entry>>, entry: Entry) {
    && |closed| == 16
    && |TextOf(r, closed[15])| + 1 + |r.block(entry)| > 200_000
  }

  ghost predicate DroppedForRoom(r: Renderer, st: Packing) {
    forall i: nat :: FirstDropped(st.projections, i) ==> NoRoomFor(r, st.closed, st.projections[i].entry)
  }

  predicate NoneDropped(projections: seq<Projection>) {
    forall i :: 0 <= i < |projections| ==> projections[i].skip != Some(BatchLimit)
  }

  /** While nothing has been dropped, the batches ran out only because the last one is full. */
  ghost predicate FullAtLimit(r: Renderer, st: Packing) {
    NoneDropped(st.projections) && |st.closed| == MAX_BATCHES ==> |TextOf(r, st.closed[MAX_BATCHES - 1])| >= MAX_CONTEXT_CHARS
  }

  lemma FirstDroppedSnoc(projections: seq<Projection>, p: Projection, i: nat)
    requires FirstDropped(projections + [p], i)
    ensures if i < |projections| then FirstDropped(projections, i) else i == |projections| && NoneDropped(projections)
  {
    var more := projections + [p];
    assert forall j :: 0 <= j < |projections| ==> more[j] == projections[j];
  }

  lemma StepDropsForRoom(r: Renderer, st: Packing, entry: Entry)
    requires DropsForRoom(r, st)
    ensures DropsForRoom(r, Pack(st, r, entry))
  {
    PackIsGood(r, st, entry);
    var now := Pack(st, r, entry);
    PackDecides(r, st, entry);
    var p := now.projections[|st.projections|];
    forall i: nat | FirstDropped(now.projections, i)
      ensures NoRoomFor(r, now.closed, now.projections[i].entry)
    {
      FirstDroppedSnoc(st.projections, p, i);
      if i < |st.projections| {
        ClosedStay(r, st, entry);
      } else {
        LimitIsMet(r, st, entry);
      }
    }
    if NoneDropped(now.projections) && |now.closed| == MAX_BATCHES {
      assert forall i :: 0 <= i < |st.projections| ==> st.projections[i] == now.projections[i];
      LastIsFull(r, st, entry);
    }
  }

  lemma ClosedStay(r: Renderer, st: Packing, entry: Entry)
    requires |st.closed| == MAX_BATCHES && st.open == []
    ensures Pack(st, r, entry).closed == st.closed
  {
  }

  lemma LimitIsMet(r: Renderer, st: Packing, entry: Entry)
    requires Good(r, st) && NoneDropped(st.projections) && FullAtLimit(r, st)
    requires var now := Pack(st, r, entry).projections; now[|st.projections|..] == [Projection(r.ref(entry.path), entry, Some(BatchLimit))]
    ensures NoRoomFor(r, Pack(st, r, entry).closed, entry)
  {
  }

  lemma LastIsFull(r: Renderer, st: Packing, entry: Entry)
    requires Good(r, st) && FullAtLimit(r, st) && NoneDropped(st.projections)
    requires NoneDropped(Pack(st, r, entry).projections) && |Pack(st, r, entry).closed| == MAX_BATCHES
    ensures |TextOf(r, Pack(st, r, entry).closed[MAX_BATCHES - 1])| >= MAX_CONTEXT_CHARS
  {
    var now := Pack(st, r, entry);
    assert now.projections[|st.projections|].skip != Some(BatchLimit);
  }

  ghost predicate DropsForRoom(r: Renderer, st: Packing) {
    Good(r, st) && Full(r, st) && DroppedForRoom(r, st) && FullAtLimit(r, st)
  }

  lemma {:induction false} PackingDropsForRoom(r: Renderer, entries: seq<Entry>, k: nat)
    requires k <= |entries|
    ensures DropsForRoom(r, PackUpTo(r, entries, k))
  {
    if k > 0 {
      PackingDropsForRoom(r, entries, k - 1);
      StepDropsForRoom(r, PackUpTo(r, entries, k - 1), entries[k - 1]);
    }
  }

  /**
   Every eligible source has exactly one fate.  What was not read is skipped with
   the reason of its status, what alone exceeds the bound as too large, and
   nothing else is, unless all batches are closed: the first source dropped for
   the batch limit has no room in the last one, and every later one is skipped.
   */
  lemma EverySourceHasItsFate(r: Renderer, fold: string -> string, entries: seq<Entry>)
    ensures var st := Packed(r, fold, entries);
            && (forall i :: 0 <= i < |st.projections| ==> FateIs(r, st.projections[i]))
            && (forall i: nat :: FirstDropped(st.projections, i) ==>
                  && NoRoomFor(r, st.closed, st.projections[i].entry)
                  && forall j :: i < j < |st.projections| ==> st.projections[j].skip.Some?)
  {
    var eligible := Ordering.Sorted(Order(fold), EligibleOf(entries));
    PackingDecides(r, eligible, |eligible|);
    PackingDropsForRoom(r, eligible, |eligible|);
    PackingIsGood(r, eligible, |eligible|);
    BatchesAreGood(r, fold, entries);
    FlushedDropsForRoom(r, PackUpTo(r, eligible, |eligible|));
  }

  lemma FlushedDropsForRoom(r: Renderer, st: Packing)
    requires Good(r, st) && DroppedForRoom(r, st)
    ensures DroppedForRoom(r, Flush(st)) && Flush(st).projections == st.projections
  {
    forall i: nat | FirstDropped(st.projections, i)
      ensures NoRoomFor(r, Flush(st).closed, st.projections[i].entry)
    {
      assert |st.closed| == MAX_BATCHES && st.open == [];
    }
  }

  /** Under the weight bound the model sees exactly the sources that were read and fit alone. */
  lemma {:induction false} FewBlocksAreAllIncluded(r: Renderer, fold: string -> string, entries: seq<Entry>)
    requires var eligible := Ordering.Sorted(Order(fold), EligibleOf(entries));
             FittingWeight(r, eligible, |eligible|) <= 8 * (200_000 + 2)
    ensures forall p :: p in Packed(r, fold, entries).projections ==>
              (p.skip == None <==> p.entry.status == Read && p.entry.content.Some? && |r.block(p.entry)| <= 200_000)
  {
    FewBlocksAreNeverLimited(r, fold, entries);
    EverySourceHasItsFate(r, fold, entries);
  }

  // The batches

  lemma {:induction false} JoinIsConcatenation(a: seq<string>, b: seq<string>)
    requires a != [] && b != []
    ensures Join(a + b) == Join(a) + "\n" + Join(b)
    ensures forall s :: Join([s]) == s
  {
    if |b| == 1 {
      assert (a + b)[..|a|] == a;
    } else {
      assert (a + b)[..|a + b| - 1] == a + b[..|b| - 1];
      JoinIsConcatenation(a, b[..|b| - 1]);
    }
  }

  function RefsOf(batches: seq<Batch>): seq<string> {
    if batches == [] then [] else RefsOf(batches[..|batches| - 1]) + batches[|batches| - 1].refs
  }

  function IncludedRefs(sources: seq<Projection>): seq<string> {
    if sources == [] then []
    else IncludedRefs(sources[..|sources| - 1]) + (if sources[|sources| - 1].skip.None? then [sources[|sources| - 1].sourceRef] else [])
  }

  lemma {:induction false} RefsOfClosed(r: Renderer, closed: seq<seq<Entry>>)
    ensures RefsOf(BatchesOf(r, closed)) == Refs(r, Concat(closed))
  {
    if closed != [] {
      RefsOfClosed(r, closed[..|closed| - 1]);
      assert BatchesOf(r, closed)[..|closed| - 1] == BatchesOf(r, closed[..|closed| - 1]);
    }
  }

  lemma {:induction false} RefsOfIncluded(r: Renderer, sources: seq<Projection>)
    requires forall p :: p in sources ==> p.sourceRef == r.ref(p.entry.path)
    ensures IncludedRefs(sources) == Refs(r, Included(sources))
  {
    if sources != [] {
      RefsOfIncluded(r, sources[..|sources| - 1]);
    }
  }

  lemma ClosedHaveSources(r: Renderer, fold: string -> string, entries: seq<Entry>)
    ensures var st := Packed(r, fold, entries);
            && Concat(st.closed) == Included(st.projections)
            && forall i :: 0 <= i < |st.closed| ==> st.closed[i] != []
  {
    var eligible := Ordering.Sorted(Order(fold), EligibleOf(entries));
    PackingIsGood(r, eligible, |eligible|);
    FlushIsGood(r, PackUpTo(r, eligible, |eligible|));
    var st := Packed(r, fold, entries);
    assert Concat(st.closed) + [] == Concat(st.closed);
  }

  lemma ProjectionsName(r: Renderer, fold: string -> string, entries: seq<Entry>, p: Projection)
    requires p in Packed(r, fold, entries).projections
    ensures p.sourceRef == r.ref(p.entry.path)
  {
    ProjectionRefs(r, fold, entries);
  }

  /** The batches are numbered from zero, have sources, and their refs in a row are those of the included sources. */
  lemma BatchesCiteTheIncluded(r: Renderer, fold: string -> string, entries: seq<Entry>)
    ensures var st := Packed(r, fold, entries);
            var batches := BatchesOf(r, st.closed);
            && RefsOf(batches) == IncludedRefs(st.projections)
            && forall i :: 0 <= i < |batches| ==> batches[i].number == i && batches[i].refs != []
  {
    var st := Packed(r, fold, entries);
    ClosedHaveSources(r, fold, entries);
    RefsOfClosed(r, st.closed);
    forall p | p in st.projections
      ensures p.sourceRef == r.ref(p.entry.path)
    {
      ProjectionsName(r, fold, entries, p);
    }
    RefsOfIncluded(r, st.projections);
  }
}
