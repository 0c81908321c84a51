/**
 Greedy packing of eligible source files into bounded model-input batches: a
 source joins the open batch if it fits with a separator, otherwise the batch is
 closed and the source opens the next one.
 */
module Batching {
  import opened Wrappers
  import Ordering

  const MAX_CONTEXT_CHARS: nat := 200_000
  const MAX_BATCHES: nat := 16

  datatype SourceClass = EntityCandidate | SessionSource | UserSource | Ineligible

  datatype ReadStatus = Read | NotEligible | Skipped | Failed

  datatype Entry = Entry(path: string, cls: SourceClass, status: ReadStatus, size: nat, content: Option<string>)

  datatype SkipReason = NotRead | ReadFailed | SkippedBudget | TooLarge | BatchLimit

  /** One eligible source and whether it is in a batch. */
  datatype Projection = Projection(sourceRef: string, entry: Entry, skip: Option<SkipReason>)

  datatype Batch = Batch(number: nat, text: string, refs: seq<string>)

  function ClassRank(cls: SourceClass): nat {
    match cls
    case EntityCandidate => 0
    case SessionSource => 1
    case UserSource => 2
    case Ineligible => 3
  }

  function ClassName(cls: SourceClass): string {
    match cls
    case EntityCandidate => "entity_candidate"
    case SessionSource => "session_source"
    case UserSource => "user_source"
    case Ineligible => "unsupported"
  }

  /** By class, then by case-folded path, then by path; the case folding is an arbitrary function. */
  predicate Before(fold: string -> string, a: Entry, b: Entry) {
    ClassRank(a.cls) < ClassRank(b.cls)
    || (ClassRank(a.cls) == ClassRank(b.cls) && Ordering.PairLeq((fold(a.path), a.path), (fold(b.path), b.path)))
  }

  function Order(fold: string -> string): (Entry, Entry) -> bool {
    (a, b) => Before(fold, a, b)
  }

  lemma OrderIsTotal(fold: string -> string)
    ensures Ordering.TotalPreorder(Order(fold))
  {
    forall a, b
      ensures Order(fold)(a, b) || Order(fold)(b, a)
    {
      Ordering.PairTotal((fold(a.path), a.path), (fold(b.path), b.path));
    }
    forall a, b, c | Order(fold)(a, b) && Order(fold)(b, c)
      ensures Order(fold)(a, c)
    {
      if ClassRank(a.cls) == ClassRank(b.cls) == ClassRank(c.cls) {
        Ordering.PairTransitive((fold(a.path), a.path), (fold(b.path), b.path), (fold(c.path), c.path));
      }
    }
  }

  function EligibleOf(entries: seq<Entry>): seq<Entry> {
    if entries == [] then []
    else EligibleOf(entries[..|entries| - 1]) + (if entries[|entries| - 1].cls == Ineligible then [] else [entries[|entries| - 1]])
  }

  // Rendering

  predicate Readable(entry: Entry) {
    entry.status == Read && entry.content.Some?
  }

  /** The exact text the model sees of one source. */
  function SourceBlock(ref: string -> string, entry: Entry): string {
    var content := if entry.content.Some? then entry.content.value else "";
    "SOURCE id=" + ref(entry.path) + " class=" + ClassName(entry.cls) + " path=" + entry.path + "\n"
    + content + "\nEND SOURCE id=" + ref(entry.path)
  }

  /** How a source is named and rendered; the packing works for any. */
  datatype Renderer = Renderer(ref: string -> string, block: Entry -> string)

  function SourceRenderer(ref: string -> string): Renderer {
    Renderer(ref, entry => SourceBlock(ref, entry))
  }

  /** The blocks joined by single line feeds. */
  function Join(blocks: seq<string>): string {
    if blocks == [] then ""
    else if |blocks| == 1 then blocks[0]
    else Join(blocks[..|blocks| - 1]) + "\n" + blocks[|blocks| - 1]
  }

  function Blocks(r: Renderer, entries: seq<Entry>): seq<string> {
    seq(|entries|, i requires 0 <= i < |entries| => r.block(entries[i]))
  }

  function Refs(r: Renderer, entries: seq<Entry>): seq<string> {
    seq(|entries|, i requires 0 <= i < |entries| => r.ref(entries[i].path))
  }

  // The packing

  /** The entries of the closed batches, of the open one, and the projections so far. */
  datatype Packing = Packing(closed: seq<seq<Entry>>, open: seq<Entry>, projections: seq<Projection>)

  function TextOf(r: Renderer, entries: seq<Entry>): string {
    Join(Blocks(r, entries))
  }

  function Flush(st: Packing): Packing {
    if st.open == [] then st else st.(closed := st.closed + [st.open], open := [])
  }

  function SkipFor(status: ReadStatus): SkipReason {
    match status
    case Failed => ReadFailed
    case Skipped => SkippedBudget
    case _ => NotRead
  }

  function Reject(st: Packing, r: Renderer, entry: Entry, reason: SkipReason): Packing {
    st.(projections := st.projections + [Projection(r.ref(entry.path), entry, Some(reason))])
  }

  /** The entry goes into the open batch, which is closed at once when it is full. */
  function Include(st: Packing, r: Renderer, entry: Entry): Packing {
    var grown := Grown(st, r, entry);
    if |TextOf(r, grown.open)| >= MAX_CONTEXT_CHARS then Flush(grown) else grown
  }

  predicate Overflows(st: Packing, r: Renderer, entry: Entry) {
    st.open != [] && |TextOf(r, st.open)| + 1 + |r.block(entry)| > MAX_CONTEXT_CHARS
  }

  function Pack(st: Packing, r: Renderer, entry: Entry): Packing {
    if !Readable(entry) then Reject(st, r, entry, SkipFor(entry.status))
    else if |r.block(entry)| > MAX_CONTEXT_CHARS then Reject(st, r, entry, TooLarge)
    else if |st.closed| >= MAX_BATCHES then Reject(st, r, entry, BatchLimit)
    else
      var ready := if Overflows(st, r, entry) then Flush(st) else st;
      if |ready.closed| >= MAX_BATCHES then Reject(ready, r, entry, BatchLimit) else Include(ready, r, entry)
  }

  function PackUpTo(r: Renderer, entries: seq<Entry>, k: nat): Packing
    requires k <= |entries|
  {
    if k == 0 then Packing([], [], []) else Pack(PackUpTo(r, entries, k - 1), r, entries[k - 1])
  }

  function BatchesOf(r: Renderer, closed: seq<seq<Entry>>): seq<Batch> {
    seq(|closed|, i requires 0 <= i < |closed| => Batch(i, TextOf(r, closed[i]), Refs(r, closed[i])))
  }

  /** The finished packing of the eligible entries in their order. */
  function Packed(r: Renderer, fold: string -> string, entries: seq<Entry>): Packing {
    var eligible := Ordering.Sorted(Order(fold), EligibleOf(entries));
    Flush(PackUpTo(r, eligible, |eligible|))
  }

  lemma {:induction false} JoinLength(blocks: seq<string>, block: string)
    ensures |Join(blocks + [block])| == if blocks == [] then |block| else |Join(blocks)| + 1 + |block|
  {
    assert (blocks + [block])[..|blocks|] == blocks;
  }

  lemma BlocksSnoc(r: Renderer, entries: seq<Entry>, entry: Entry)
    ensures Blocks(r, entries + [entry]) == Blocks(r, entries) + [r.block(entry)]
    ensures Refs(r, entries + [entry]) == Refs(r, entries) + [r.ref(entry.path)]
    ensures |TextOf(r, entries + [entry])| == if entries == [] then |r.block(entry)| else |TextOf(r, entries)| + 1 + |r.block(entry)|
  {
    assert Blocks(r, entries + [entry]) == Blocks(r, entries) + [r.block(entry)];
    JoinLength(Blocks(r, entries), r.block(entry));
  }

  /** The pending blocks, refs and character count of the loop, and the batches closed so far. */
  datatype Pending = Pending(batches: seq<Batch>, blocks: seq<string>, refs: seq<string>, chars: nat)

  ghost predicate Pends(p: Pending, r: Renderer, st: Packing) {
    && p.batches == BatchesOf(r, st.closed) && p.blocks == Blocks(r, st.open)
    && p.refs == Refs(r, st.open) && p.chars == |TextOf(r, st.open)|
  }

  method FlushPending(p: Pending, ghost r: Renderer, ghost st: Packing) returns (q: Pending)
    requires Pends(p, r, st)
    ensures Pends(q, r, Flush(st))
  {
    if p.blocks == [] {
      return p;
    }
    var text := Join(p.blocks);
    q := Pending(p.batches + [Batch(|p.batches|, text, p.refs)], [], [], 0);
    assert BatchesOf(r, st.closed + [st.open]) == BatchesOf(r, st.closed) + [Batch(|st.closed|, text, p.refs)];
  }

  method PackOne(p: Pending, r: Renderer, entry: Entry, ghost st: Packing) returns (q: Pending, projection: Projection)
    requires Pends(p, r, st)
    ensures Pends(q, r, Pack(st, r, entry))
    ensures Pack(st, r, entry).projections == st.projections + [projection]
  {
    if entry.status != Read || entry.content.None? {
      return p, Projection(r.ref(entry.path), entry, Some(SkipFor(entry.status)));
    }
    var block := r.block(entry);
    if |block| > MAX_CONTEXT_CHARS {
      return p, Projection(r.ref(entry.path), entry, Some(TooLarge));
    }
    if |p.batches| >= MAX_BATCHES {
      return p, Projection(r.ref(entry.path), entry, Some(BatchLimit));
    }
    var separator := if p.blocks != [] then 1 else 0;
    var projected := p.chars + separator + |block|;
    ghost var ready := st;
    q := p;
    if p.blocks != [] && projected > MAX_CONTEXT_CHARS {
      q := FlushPending(p, r, st);
      ready := Flush(st);
      if |q.batches| >= MAX_BATCHES {
        return q, Projection(r.ref(entry.path), entry, Some(BatchLimit));
      }
      projected := |block|;
    }
    q := IncludeOne(q, r, entry, projected, ready);
    projection := Projection(r.ref(entry.path), entry, None);
  }

  /** The accepted block joins the pending ones, which are flushed at once when they are full. */
  method IncludeOne(p: Pending, r: Renderer, entry: Entry, projected: nat, ghost st: Packing) returns (q: Pending)
    requires Pends(p, r, st)
    requires projected == if st.open == [] then |r.block(entry)| else p.chars + 1 + |r.block(entry)|
    ensures Pends(q, r, Include(st, r, entry))
  {
    BlocksSnoc(r, st.open, entry);
    q := Pending(p.batches, p.blocks + [r.block(entry)], p.refs + [r.ref(entry.path)], projected);
    if q.chars >= MAX_CONTEXT_CHARS {
      q := FlushPending(q, r, Grown(st, r, entry));
    }
  }

  method PrepareBatches(r: Renderer, fold: string -> string, entries: seq<Entry>)
    returns (batches: seq<Batch>, sources: seq<Projection>)
    ensures batches == BatchesOf(r, Packed(r, fold, entries).closed)
    ensures sources == Packed(r, fold, entries).projections
  {
    var eligible := Ordering.Sorted(Order(fold), EligibleOf(entries));
    var p := Pending([], [], [], 0);
    sources := [];
    for k := 0 to |eligible|
      invariant Pends(p, r, PackUpTo(r, eligible, k))
      invariant sources == PackUpTo(r, eligible, k).projections
    {
      var projection;
      p, projection := PackOne(p, r, eligible[k], PackUpTo(r, eligible, k));
      sources := sources + [projection];
    }
    p := FlushPending(p, r, PackUpTo(r, eligible, |eligible|));
    batches := p.batches;
    ProjectionsAreSorted(r, fold, entries);
    sources := Ordering.Sorted(ProjectionOrder(fold), sources);
  }

  function ProjectionOrder(fold: string -> string): (Projection, Projection) -> bool {
    (a: Projection, b: Projection) => Before(fold, a.entry, b.entry)
  }

  /** The final sort of the projections finds them in order. */
  lemma ProjectionsAreSorted(r: Renderer, fold: string -> string, entries: seq<Entry>)
    ensures var projections := Packed(r, fold, entries).projections;
            Ordering.Sorted(ProjectionOrder(fold), projections) == projections
  {
    var eligible := Ordering.Sorted(Order(fold), EligibleOf(entries));
    OrderIsTotal(fold);
    Ordering.SortedIsSorted(Order(fold), EligibleOf(entries));
    PackingLists(r, eligible, |eligible|);
    var projections := Packed(r, fold, entries).projections;
    forall i, j | 0 <= i < j < |projections|
      ensures ProjectionOrder(fold)(projections[i], projections[j])
    {
      assert Order(fold)(eligible[i], eligible[j]);
    }
    Ordering.SortedIsStable(ProjectionOrder(fold), projections);
  }

  // What the packing keeps

  /** The closed batches in a row, then the open one. */
  function Concat(closed: seq<seq<Entry>>): seq<Entry> {
    if closed == [] then [] else Concat(closed[..|closed| - 1]) + closed[|closed| - 1]
  }

  function Included(projections: seq<Projection>): seq<Entry> {
    if projections == [] then []
    else
      var last := projections[|projections| - 1];
      Included(projections[..|projections| - 1]) + (if last.skip.None? then [last.entry] else [])
  }

  /** Two batches in a row: the first had no room for the first block of the second. */
  predicate NoRoom(r: Renderer, first: seq<Entry>, second: seq<Entry>) {
    second != [] ==> |TextOf(r, first)| + 1 + |r.block(second[0])| > MAX_CONTEXT_CHARS
  }

  ghost predicate Tight(r: Renderer, st: Packing) {
    && (forall i :: 0 <= i < |st.closed| - 1 ==> NoRoom(r, st.closed[i], st.closed[i + 1]))
    && (st.closed != [] ==> NoRoom(r, st.closed[|st.closed| - 1], st.open))
  }

  ghost predicate Bounded(r: Renderer, st: Packing) {
    && |st.closed| <= MAX_BATCHES
    && (|st.closed| == MAX_BATCHES ==> st.open == [])
    && (forall i :: 0 <= i < |st.closed| ==> st.closed[i] != [] && |TextOf(r, st.closed[i])| <= MAX_CONTEXT_CHARS)
    && |TextOf(r, st.open)| <= MAX_CONTEXT_CHARS
  }

  /** Once a batch limit is met, nothing is included any more. */
  ghost predicate Limited(st: Packing) {
    && (forall i :: 0 <= i < |st.projections| && st.projections[i].skip == Some(BatchLimit) ==> |st.closed| == MAX_BATCHES)
    && (forall i, j :: 0 <= i < j < |st.projections| && st.projections[i].skip == Some(BatchLimit) ==> st.projections[j].skip.Some?)
  }

  ghost predicate Good(r: Renderer, st: Packing) {
    && Bounded(r, st) && Tight(r, st) && Limited(st)
    && Concat(st.closed) + st.open == Included(st.projections)
  }

  lemma {:induction false} ConcatSnoc(closed: seq<seq<Entry>>, entries: seq<Entry>)
    ensures Concat(closed + [entries]) == Concat(closed) + entries
  {
    assert (closed + [entries])[..|closed|] == closed;
  }

  lemma {:induction false} IncludedSnoc(projections: seq<Projection>, p: Projection)
    ensures Included(projections + [p]) == Included(projections) + (if p.skip.None? then [p.entry] else [])
  {
    assert (projections + [p])[..|projections|] == projections;
  }

  lemma FlushIsGood(r: Renderer, st: Packing)
    requires Good(r, st)
    ensures Good(r, Flush(st)) && Flush(st).open == []
  {
    if st.open != [] {
      ConcatSnoc(st.closed, st.open);
      assert Concat(st.closed + [st.open]) + [] == Concat(st.closed) + st.open;
    }
  }

  lemma RejectIsGood(r: Renderer, st: Packing, entry: Entry, reason: SkipReason)
    requires Good(r, st) && (reason == BatchLimit ==> |st.closed| == MAX_BATCHES)
    ensures Good(r, Reject(st, r, entry, reason))
  {
    IncludedSnoc(st.projections, Projection(r.ref(entry.path), entry, Some(reason)));
    assert Included(st.projections) + [] == Included(st.projections);
  }

  function Grown(st: Packing, r: Renderer, entry: Entry): Packing {
    st.(open := st.open + [entry], projections := st.projections + [Projection(r.ref(entry.path), entry, None)])
  }

  /** The open batch has room for the entry, and the batch before it had none. */
  ghost predicate Fits(r: Renderer, st: Packing, entry: Entry) {
    && |st.closed| < MAX_BATCHES && |r.block(entry)| <= MAX_CONTEXT_CHARS
    && (st.open != [] ==> |TextOf(r, st.open)| + 1 + |r.block(entry)| <= MAX_CONTEXT_CHARS)
    && (st.open == [] && st.closed != [] ==> NoRoom(r, st.closed[|st.closed| - 1], [entry]))
  }

  lemma GrownIsBounded(r: Renderer, st: Packing, entry: Entry)
    requires Bounded(r, st) && Fits(r, st, entry)
    ensures Bounded(r, Grown(st, r, entry))
  {
    BlocksSnoc(r, st.open, entry);
  }

  lemma GrownIsTight(r: Renderer, st: Packing, entry: Entry)
    requires Tight(r, st) && Fits(r, st, entry)
    ensures Tight(r, Grown(st, r, entry))
  {
    assert (st.open + [entry])[0] == if st.open == [] then entry else st.open[0];
  }

  lemma GrownIsLimited(r: Renderer, st: Packing, entry: Entry)
    requires Limited(st) && |st.closed| < MAX_BATCHES
    ensures Limited(Grown(st, r, entry))
  {
  }

  lemma GrownIsGood(r: Renderer, st: Packing, entry: Entry)
    requires Good(r, st) && Fits(r, st, entry)
    ensures Good(r, Grown(st, r, entry))
  {
    GrownIsBounded(r, st, entry);
    GrownIsTight(r, st, entry);
    GrownIsLimited(r, st, entry);
    IncludedSnoc(st.projections, Projection(r.ref(entry.path), entry, None));
    assert Concat(st.closed) + (st.open + [entry]) == Concat(st.closed) + st.open + [entry];
  }

  /** An open batch is left empty only after the last closed one was full, or when no more batches may be opened. */
  ghost predicate Full(r: Renderer, st: Packing) {
    st.open == [] && st.closed != [] ==> |TextOf(r, st.closed[|st.closed| - 1])| >= MAX_CONTEXT_CHARS || |st.closed| == MAX_BATCHES
  }

  lemma IncludeIsGood(r: Renderer, st: Packing, entry: Entry)
    requires Good(r, st) && Fits(r, st, entry)
    ensures Good(r, Include(st, r, entry)) && Full(r, Include(st, r, entry))
  {
    GrownIsGood(r, st, entry);
    FlushIsGood(r, Grown(st, r, entry));
  }

  lemma ReadyFits(r: Renderer, st: Packing, entry: Entry)
    requires Good(r, st) && Full(r, st) && |r.block(entry)| <= MAX_CONTEXT_CHARS && |st.closed| < MAX_BATCHES
    ensures var ready := if Overflows(st, r, entry) then Flush(st) else st;
            |ready.closed| < MAX_BATCHES ==> Fits(r, ready, entry)
  {
    if Overflows(st, r, entry) {
      var closed := Flush(st).closed;
      assert closed[|closed| - 1] == st.open;
    }
  }

  lemma PackIsGood(r: Renderer, st: Packing, entry: Entry)
    requires Good(r, st) && Full(r, st)
    ensures Good(r, Pack(st, r, entry)) && Full(r, Pack(st, r, entry))
  {
    if !Readable(entry) {
      RejectIsGood(r, st, entry, SkipFor(entry.status));
    } else if |r.block(entry)| > MAX_CONTEXT_CHARS {
      RejectIsGood(r, st, entry, TooLarge);
    } else if |st.closed| >= MAX_BATCHES {
      RejectIsGood(r, st, entry, BatchLimit);
    } else {
      FlushIsGood(r, st);
      ReadyFits(r, st, entry);
      var ready := if Overflows(st, r, entry) then Flush(st) else st;
      if |ready.closed| >= MAX_BATCHES {
        RejectIsGood(r, ready, entry, BatchLimit);
      } else {
        IncludeIsGood(r, ready, entry);
      }
    }
  }

  /** Every step lists its entry. */
  lemma PackLists(r: Renderer, st: Packing, entry: Entry)
    ensures |Pack(st, r, entry).projections| == |st.projections| + 1
    ensures Pack(st, r, entry).projections[..|st.projections|] == st.projections
    ensures Pack(st, r, entry).projections[|st.projections|].entry == entry
  {
  }

  lemma {:induction false} PackingLists(r: Renderer, entries: seq<Entry>, k: nat)
    requires k <= |entries|
    ensures |PackUpTo(r, entries, k).projections| == k
    ensures forall i :: 0 <= i < k ==> PackUpTo(r, entries, k).projections[i].entry == entries[i]
  {
    if k > 0 {
      PackingLists(r, entries, k - 1);
      var before := PackUpTo(r, entries, k - 1);
      PackLists(r, before, entries[k - 1]);
      var now := PackUpTo(r, entries, k);
      forall i | 0 <= i < k
        ensures now.projections[i].entry == entries[i]
      {
        assert i < k - 1 ==> now.projections[i] == now.projections[..k - 1][i];
      }
    }
  }

  /** Each projection carries the ref of its entry. */
  lemma {:induction false} PackingRefs(r: Renderer, entries: seq<Entry>, k: nat)
    requires k <= |entries|
    ensures forall p :: p in PackUpTo(r, entries, k).projections ==> p.sourceRef == r.ref(p.entry.path)
  {
    if k > 0 {
      PackingRefs(r, entries, k - 1);
    }
  }

  lemma ProjectionRefs(r: Renderer, fold: string -> string, entries: seq<Entry>)
    ensures forall i :: 0 <= i < |Packed(r, fold, entries).projections| ==>
              Packed(r, fold, entries).projections[i].sourceRef == r.ref(Packed(r, fold, entries).projections[i].entry.path)
  {
    var eligible := Ordering.Sorted(Order(fold), EligibleOf(entries));
    PackingRefs(r, eligible, |eligible|);
  }

  lemma {:induction false} PackingIsGood(r: Renderer, entries: seq<Entry>, k: nat)
    requires k <= |entries|
    ensures Good(r, PackUpTo(r, entries, k)) && Full(r, PackUpTo(r, entries, k))
  {
    if k > 0 {
      PackingIsGood(r, entries, k - 1);
      PackIsGood(r, PackUpTo(r, entries, k - 1), entries[k - 1]);
    }
  }

  /**
   At most 16 batches, each within the character bound, separators included;
   their sources are the included ones, in order, each once; every eligible
   source is listed; no batch had room for the start of the next; and after the
   first source dropped for the batch limit nothing is included.
   */
  lemma {:induction false} BatchesAreGood(r: Renderer, fold: string -> string, entries: seq<Entry>)
    ensures var st := Packed(r, fold, entries);
            var eligible := Ordering.Sorted(Order(fold), EligibleOf(entries));
            && |st.closed| <= MAX_BATCHES
            && (forall i :: 0 <= i < |st.closed| ==> |TextOf(r, st.closed[i])| <= MAX_CONTEXT_CHARS)
            && Concat(st.closed) == Included(st.projections)
            && (forall i :: 0 <= i < |st.closed| - 1 ==> NoRoom(r, st.closed[i], st.closed[i + 1]))
            && (forall i, j :: 0 <= i < j < |st.projections| && st.projections[i].skip == Some(BatchLimit) ==> st.projections[j].skip.Some?)
            && multiset(eligible) == multiset(EligibleOf(entries)) && Ordering.IsSorted(Order(fold), eligible)
            && |st.projections| == |eligible|
            && forall i :: 0 <= i < |eligible| ==> st.projections[i].entry == eligible[i]
  {
    var eligible := Ordering.Sorted(Order(fold), EligibleOf(entries));
    PackingIsGood(r, eligible, |eligible|);
    PackingLists(r, eligible, |eligible|);
    FlushIsGood(r, PackUpTo(r, eligible, |eligible|));
    ClosedIsGood(r, Packed(r, fold, entries));
    EligibleIsSorted(fold, entries);
  }

  /** What a good packing without an open batch says. */
  lemma ClosedIsGood(r: Renderer, st: Packing)
    requires Good(r, st) && st.open == []
    ensures |st.closed| <= MAX_BATCHES
    ensures forall i :: 0 <= i < |st.closed| ==> |TextOf(r, st.closed[i])| <= MAX_CONTEXT_CHARS
    ensures Concat(st.closed) == Included(st.projections)
    ensures forall i :: 0 <= i < |st.closed| - 1 ==> NoRoom(r, st.closed[i], st.closed[i + 1])
    ensures forall i, j :: 0 <= i < j < |st.projections| && st.projections[i].skip == Some(BatchLimit) ==> st.projections[j].skip.Some?
  {
    assert Concat(st.closed) + [] == Concat(st.closed);
  }

  lemma {:induction false} EligibleIsSorted(fold: string -> string, entries: seq<Entry>)
    ensures var eligible := Ordering.Sorted(Order(fold), EligibleOf(entries));
            multiset(eligible) == multiset(EligibleOf(entries)) && Ordering.IsSorted(Order(fold), eligible)
  {
    OrderIsTotal(fold);
    Ordering.SortedKeeps(Order(fold), EligibleOf(entries));
    Ordering.SortedIsSorted(Order(fold), EligibleOf(entries));
  }

  // What the model sees of a source

  /** Only readable sources get into a batch. */
  lemma {:induction false} PackedAreReadable(r: Renderer, entries: seq<Entry>, k: nat)
    requires k <= |entries|
    ensures forall p :: p in PackUpTo(r, entries, k).projections && p.skip.None? ==> Readable(p.entry)
  {
    if k > 0 {
      PackedAreReadable(r, entries, k - 1);
    }
  }

  lemma {:induction false} IncludedIn(projections: seq<Projection>, entry: Entry)
    requires entry in Included(projections)
    ensures exists p :: p in projections && p.skip.None? && p.entry == entry
  {
    var front, last := projections[..|projections| - 1], projections[|projections| - 1];
    if entry in Included(front) {
      IncludedIn(front, entry);
      var p :| p in front && p.skip.None? && p.entry == entry;
      assert p in projections;
    } else {
      assert last in projections;
    }
  }

  lemma {:induction false} ConcatHas(closed: seq<seq<Entry>>, i: nat, entry: Entry)
    requires i < |closed| && entry in closed[i]
    ensures entry in Concat(closed)
  {
    if i < |closed| - 1 {
      ConcatHas(closed[..|closed| - 1], i, entry);
    }
  }

  /** Each block is in the joined text, whole. */
  lemma {:induction false} JoinHas(blocks: seq<string>, k: nat) returns (before: string, after: string)
    requires k < |blocks|
    ensures Join(blocks) == before + blocks[k] + after
  {
    var front, last := blocks[..|blocks| - 1], blocks[|blocks| - 1];
    if |blocks| == 1 {
      before, after := "", "";
    } else if k == |blocks| - 1 {
      before, after := Join(front) + "\n", "";
    } else {
      before, after := JoinHas(front, k);
      after := after + "\n" + last;
    }
  }

  lemma BlockHasContent(ref: string -> string, entry: Entry) returns (before: string, after: string)
    requires entry.content.Some?
    ensures SourceBlock(ref, entry) == before + entry.content.value + after
  {
    before := "SOURCE id=" + ref(entry.path) + " class=" + ClassName(entry.cls) + " path=" + entry.path + "\n";
    after := "\nEND SOURCE id=" + ref(entry.path);
  }

  ghost predicate Shows(text: string, content: string) {
    exists before: string, after: string :: text == before + content + after
  }

  lemma BatchesAreRead(r: Renderer, fold: string -> string, entries: seq<Entry>, i: nat, k: nat)
    requires i < |Packed(r, fold, entries).closed| && k < |Packed(r, fold, entries).closed[i]|
    ensures Readable(Packed(r, fold, entries).closed[i][k])
  {
    var st, eligible := Packed(r, fold, entries), Ordering.Sorted(Order(fold), EligibleOf(entries));
    BatchesAreGood(r, fold, entries);
    ConcatHas(st.closed, i, st.closed[i][k]);
    IncludedIn(st.projections, st.closed[i][k]);
    PackedAreReadable(r, eligible, |eligible|);
  }

  lemma ContentIsShown(ref: string -> string, batch: seq<Entry>, k: nat)
    requires k < |batch| && batch[k].content.Some?
    ensures Shows(TextOf(SourceRenderer(ref), batch), batch[k].content.value)
  {
    var content := batch[k].content.value;
    var a, d := JoinHas(Blocks(SourceRenderer(ref), batch), k);
    var b, c := BlockHasContent(ref, batch[k]);
    Regrouped(a, b, content, c, d);
  }

  lemma Regrouped(a: string, b: string, content: string, c: string, d: string)
    ensures a + (b + content + c) + d == (a + b) + content + (c + d)
  {
  }

  /** With the real rendering every source in a batch was read, and the text of the batch has its content, whole and within the bound. */
  lemma SourcesAreSentWhole(ref: string -> string, fold: string -> string, entries: seq<Entry>, i: nat, k: nat)
    requires i < |Packed(SourceRenderer(ref), fold, entries).closed|
    requires k < |Packed(SourceRenderer(ref), fold, entries).closed[i]|
    ensures var batch := Packed(SourceRenderer(ref), fold, entries).closed[i];
            && Readable(batch[k]) && Shows(TextOf(SourceRenderer(ref), batch), batch[k].content.value)
            && |TextOf(SourceRenderer(ref), batch)| <= MAX_CONTEXT_CHARS
  {
    BatchesAreGood(SourceRenderer(ref), fold, entries);
    BatchesAreRead(SourceRenderer(ref), fold, entries, i, k);
    ContentIsShown(ref, Packed(SourceRenderer(ref), fold, entries).closed[i], k);
  }

  // No source is dropped for the batch limit while the blocks are few enough

  /** The characters of some blocks, one separator counted for each. */
  function Weight(r: Renderer, entries: seq<Entry>): nat {
    if entries == [] then 0 else Weight(r, entries[..|entries| - 1]) + |r.block(entries[|entries| - 1])| + 1
  }

  predicate FitsAlone(r: Renderer, entry: Entry) {
    Readable(entry) && |r.block(entry)| <= MAX_CONTEXT_CHARS
  }

  /** The weight of the sources among the first `k` that fit in a batch of their own. */
  function FittingWeight(r: Renderer, entries: seq<Entry>, k: nat): nat
    requires k <= |entries|
  {
    if k == 0 then 0
    else FittingWeight(r, entries, k - 1) + (if FitsAlone(r, entries[k - 1]) then |r.block(entries[k - 1])| + 1 else 0)
  }

  lemma {:induction false} WeightConcat(r: Renderer, a: seq<Entry>, b: seq<Entry>)
    ensures Weight(r, a + b) == Weight(r, a) + Weight(r, b)
  {
    if b == [] {
      assert a + b == a;
    } else {
      assert (a + b)[..|a + b| - 1] == a + b[..|b| - 1];
      WeightConcat(r, a, b[..|b| - 1]);
    }
  }

  /** A batch weighs its text and one more. */
  lemma {:induction false} WeightIsLength(r: Renderer, entries: seq<Entry>)
    requires entries != []
    ensures Weight(r, entries) == |TextOf(r, entries)| + 1
    ensures Weight(r, entries) >= |r.block(entries[0])| + 1
  {
    var front, last := entries[..|entries| - 1], entries[|entries| - 1];
    assert entries == front + [last];
    BlocksSnoc(r, front, last);
    if front != [] {
      WeightIsLength(r, front);
    }
  }

  lemma {:induction false} PairWeighs(r: Renderer, first: seq<Entry>, second: seq<Entry>)
    requires first != [] && second != [] && NoRoom(r, first, second)
    ensures Weight(r, first) + Weight(r, second) >= MAX_CONTEXT_CHARS + 2
  {
    WeightIsLength(r, first);
    WeightIsLength(r, second);
  }

  lemma {:induction false} PairsWeigh(r: Renderer, closed: seq<seq<Entry>>, pairs: nat)
    requires 2 * pairs <= |closed|
    requires forall i :: 0 <= i < |closed| ==> closed[i] != []
    requires forall i :: 0 <= i < |closed| - 1 ==> NoRoom(r, closed[i], closed[i + 1])
    ensures Weight(r, Concat(closed[..2 * pairs])) >= pairs * (MAX_CONTEXT_CHARS + 2)
  {
    if pairs > 0 {
      var n := 2 * pairs;
      PairsWeigh(r, closed, pairs - 1);
      assert closed[..n] == closed[..n - 2] + [closed[n - 2]] + [closed[n - 1]];
      ConcatSnoc(closed[..n - 2], closed[n - 2]);
      ConcatSnoc(closed[..n - 2] + [closed[n - 2]], closed[n - 1]);
      WeightConcat(r, Concat(closed[..n - 2]), closed[n - 2]);
      WeightConcat(r, Concat(closed[..n - 2]) + closed[n - 2], closed[n - 1]);
      PairWeighs(r, closed[n - 2], closed[n - 1]);
    }
  }

  predicate SomeLimited(projections: seq<Projection>) {
    exists i :: 0 <= i < |projections| && projections[i].skip == Some(BatchLimit)
  }

  lemma {:induction false} PackWeighs(r: Renderer, st: Packing, entry: Entry)
    ensures var now := Pack(st, r, entry);
            var more := if FitsAlone(r, entry) then |r.block(entry)| + 1 else 0;
            && Weight(r, Included(now.projections)) <= Weight(r, Included(st.projections)) + more
            && (SomeLimited(now.projections) && !SomeLimited(st.projections) ==>
                  Weight(r, Included(now.projections)) < Weight(r, Included(st.projections)) + more)
  {
    var p := PackAdds(st, r, entry);
    AddedWeighs(r, st.projections, p);
  }

  /** One source adds one projection; what is included or dropped for the batch limit fits alone. */
  lemma PackAdds(st: Packing, r: Renderer, entry: Entry) returns (p: Projection)
    ensures Pack(st, r, entry).projections == st.projections + [p] && p.entry == entry
    ensures p.skip == None || p.skip == Some(BatchLimit) ==> FitsAlone(r, entry)
  {
    var now := Pack(st, r, entry).projections;
    p := now[|st.projections|];
  }

  lemma {:induction false} AddedWeighs(r: Renderer, projections: seq<Projection>, p: Projection)
    requires p.skip == None || p.skip == Some(BatchLimit) ==> FitsAlone(r, p.entry)
    ensures var more := if FitsAlone(r, p.entry) then |r.block(p.entry)| + 1 else 0;
            && Weight(r, Included(projections + [p])) <= Weight(r, Included(projections)) + more
            && (SomeLimited(projections + [p]) && !SomeLimited(projections) ==>
                  Weight(r, Included(projections + [p])) < Weight(r, Included(projections)) + more)
  {
    var now := projections + [p];
    IncludedSnoc(projections, p);
    WeightConcat(r, Included(projections), [p.entry]);
    assert [p.entry][..0] == [];
    assert Included(projections) + [] == Included(projections);
    if SomeLimited(now) {
      var i :| 0 <= i < |now| && now[i].skip == Some(BatchLimit);
      assert i < |projections| ==> projections[i] == now[i];
    }
  }

  lemma {:induction false} PackingWeighs(r: Renderer, entries: seq<Entry>, k: nat)
    requires k <= |entries|
    ensures var st := PackUpTo(r, entries, k);
            && Weight(r, Included(st.projections)) <= FittingWeight(r, entries, k)
            && (SomeLimited(st.projections) ==> Weight(r, Included(st.projections)) < FittingWeight(r, entries, k))
  {
    if k > 0 {
      PackingWeighs(r, entries, k - 1);
      PackWeighs(r, PackUpTo(r, entries, k - 1), entries[k - 1]);
    }
  }

  /**
   While the sources that fit on their own weigh no more than eight batches (and
   two characters for each), none of them is dropped for the batch limit.
   */
  lemma {:induction false} FewBlocksAreNeverLimited(r: Renderer, fold: string -> string, entries: seq<Entry>)
    ensures var eligible := Ordering.Sorted(Order(fold), EligibleOf(entries));
            FittingWeight(r, eligible, |eligible|) <= 8 * (MAX_CONTEXT_CHARS + 2) ==>
              forall p :: p in Packed(r, fold, entries).projections ==> p.skip != Some(BatchLimit)
  {
    var eligible := Ordering.Sorted(Order(fold), EligibleOf(entries));
    var st := PackUpTo(r, eligible, |eligible|);
    PackingIsGood(r, eligible, |eligible|);
    PackingLists(r, eligible, |eligible|);
    PackingWeighs(r, eligible, |eligible|);
    if SomeLimited(st.projections) {
      var i :| 0 <= i < |st.projections| && st.projections[i].skip == Some(BatchLimit);
      PairsWeigh(r, st.closed, 8);
      assert st.closed[..16] == st.closed;
      assert Concat(st.closed) + [] == Concat(st.closed);
    }
  }
}
