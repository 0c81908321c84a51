/** The processor's ledger as events is the processing store's ledger as text, however the calls of its invocations overlap. */
module ProcessorLedger {
  import opened Wrappers
  import opened AttemptState
  import Ledger
  import Processor

  // A call of the store

  /**
   One recording as the file sees it: the check reads `checked`, the line goes
   behind `before`, the read-back finds `seen`.  Between the three other calls may
   have written.
   */
  function StoreCall(c: Ledger.Codec, checked: Option<string>, before: Option<string>, e: LedgerEvent, stored: Ledger.Fate, seen: Option<string>)
    : (Option<string>, Ledger.AppendOutcome)
  {
    match Ledger.Events(c, Ledger.TextOf(checked))
    case Err(_) => (before, Ledger.StorageError)
    case Ok(events) =>
      var existing := Ledger.FindEvent(events, e.eventId);
      if existing.Some? then
        (before, if c.encode(existing.value) == c.encode(e) then Ledger.AlreadyPresent else Ledger.Conflict)
      else if stored.Raised? then (Some(Ledger.TextOf(before) + stored.left), Ledger.StorageError)
      else (Some(Ledger.TextOf(before) + Ledger.LineOf(c, e)), Ledger.Verified(c, Ledger.TextOf(seen), e))
  }

  /** The check found a readable ledger without the event. */
  predicate Writes(c: Ledger.Codec, checked: Option<string>, e: LedgerEvent) {
    var events := Ledger.Events(c, Ledger.TextOf(checked));
    events.Ok? && Ledger.FindEvent(events.value, e.eventId).None?
  }

  /** It is the store's own recording, with what the others wrote taken apart. */
  lemma CallIsRecordEvent(c: Ledger.Codec, checked: Option<string>, e: LedgerEvent, stored: Ledger.Fate, others: Ledger.Others)
    ensures var (seen, outcome) := Ledger.RecordEvent(c, checked, e, stored, others);
            var (now, result) := StoreCall(c, checked, Some(Ledger.TextOf(checked) + others.first), e, stored, seen);
            && result == outcome
            && (if !Writes(c, checked, e) then seen == checked
                else seen == if stored.Raised? then now else Some(Ledger.TextOf(now) + others.second))
  {
  }

  /** What may be left of a line when the append raises. */
  predicate IsLanding(c: Ledger.Codec, e: LedgerEvent, stored: Ledger.Fate) {
    stored.Raised? ==> stored.left <= Ledger.LineOf(c, e)
  }

  /** How the processor model names the end of a call. */
  function FateOf(c: Ledger.Codec, e: LedgerEvent, stored: Ledger.Fate, outcome: Ledger.AppendOutcome): Processor.AppendFate {
    if stored.Appended? then
      if outcome == Ledger.Created then Processor.AppendOk else Processor.AppendRaises(Processor.Whole)
    else if stored.left == Ledger.LineOf(c, e) then Processor.AppendRaises(Processor.Whole)
    else if stored.left == "" then Processor.AppendRaises(Processor.Nothing)
    else Processor.AppendRaises(Processor.Part)
  }

  // Broken ledgers

  /** The beginning of a line that began as a record. */
  ghost predicate StartsRecord(c: Ledger.Codec, x: string) {
    x != "" && Ledger.LF !in x && exists f :: c.encode(f) != "" && c.encode(f)[0] == x[0]
  }

  /** A record behind the beginning of another one is not read: two JSON objects on one line never are. */
  ghost predicate Sealed(c: Ledger.Codec) {
    forall x, e :: StartsRecord(c, x) ==> c.decode(x + c.encode(e)) == None
  }

  ghost predicate HasTail(c: Ledger.Codec, text: string, a: string, x: string) {
    Ledger.Terminated(a) && StartsRecord(c, x) && text == a + x
  }

  ghost predicate HasJunk(c: Ledger.Codec, text: string, a: string, x: string, rest: string) {
    Ledger.Terminated(a) && StartsRecord(c, x) && c.decode(x) == None && text == a + (x + [Ledger.LF]) + rest
  }

  /** The last line was torn, or a line was torn and written over. */
  ghost predicate Broken(c: Ledger.Codec, text: string) {
    || (exists a, x :: HasTail(c, text, a, x))
    || (exists a, x, rest :: HasJunk(c, text, a, x, rest))
  }

  lemma JunkIsUnreadable(c: Ledger.Codec, text: string, a: string, x: string, rest: string)
    requires HasJunk(c, text, a, x, rest)
    ensures Ledger.Events(c, text).Err?
  {
    if Ledger.Terminated(text) {
      assert rest != "" ==> text[|text| - 1] == rest[|rest| - 1];
      Ledger.RecordsOfLine(x);
      Ledger.ParseTextConcat(c, a, x + [Ledger.LF]);
      assert [x][..0] == [];
      Ledger.ParseTextConcat(c, a + (x + [Ledger.LF]), rest);
    }
  }

  lemma BrokenIsUnreadable(c: Ledger.Codec, text: string)
    requires Broken(c, text)
    ensures Ledger.Events(c, text).Err?
  {
    if a, x :| HasTail(c, text, a, x) {
      assert text[|text| - 1] == x[|x| - 1];
    } else {
      var a, x, rest :| HasJunk(c, text, a, x, rest);
      JunkIsUnreadable(c, text, a, x, rest);
    }
  }

  /** A whole or partial line of a record is part of the record, or all of it and the line feed. */
  lemma LandingIs(c: Ledger.Codec, e: LedgerEvent, left: string)
    requires Ledger.Faithful(c) && left <= Ledger.LineOf(c, e)
    ensures left == Ledger.LineOf(c, e) || Ledger.LF !in left
    ensures left != Ledger.LineOf(c, e) ==> left <= c.encode(e)
  {
    if left != Ledger.LineOf(c, e) {
      assert |left| <= |c.encode(e)|;
      assert left == Ledger.LineOf(c, e)[..|left|] == c.encode(e)[..|left|];
    }
  }

  lemma TailStaysBroken(c: Ledger.Codec, text: string, a: string, x: string, e: LedgerEvent, left: string)
    requires Ledger.Faithful(c) && Sealed(c) && HasTail(c, text, a, x) && left <= Ledger.LineOf(c, e)
    ensures Broken(c, text + left)
  {
    LandingIs(c, e, left);
    if left == Ledger.LineOf(c, e) {
      assert text + left == a + ((x + c.encode(e)) + [Ledger.LF]) + "";
      assert StartsRecord(c, x + c.encode(e));
      assert HasJunk(c, text + left, a, x + c.encode(e), "");
    } else {
      assert text + left == a + (x + left);
      assert StartsRecord(c, x + left);
      assert HasTail(c, text + left, a, x + left);
    }
  }

  /** Nothing another call still writes makes a broken ledger readable again. */
  lemma BrokenStays(c: Ledger.Codec, text: string, e: LedgerEvent, left: string)
    requires Ledger.Faithful(c) && Sealed(c) && Broken(c, text) && left <= Ledger.LineOf(c, e)
    ensures Broken(c, text + left)
  {
    if a, x :| HasTail(c, text, a, x) {
      TailStaysBroken(c, text, a, x, e, left);
    } else {
      var a, x, rest :| HasJunk(c, text, a, x, rest);
      assert text + left == a + (x + [Ledger.LF]) + (rest + left);
      assert HasJunk(c, text + left, a, x, rest + left);
    }
  }

  /** A line that landed in part leaves a torn tail. */
  lemma TornLine(c: Ledger.Codec, text: string, e: LedgerEvent, left: string)
    requires Ledger.Faithful(c) && Ledger.Terminated(text) && left != "" && left < Ledger.LineOf(c, e)
    ensures Broken(c, text + left)
  {
    LandingIs(c, e, left);
    assert left[0] == c.encode(e)[0];
    assert StartsRecord(c, left);
    assert HasTail(c, text + left, text, left);
  }

  // One call

  /** The text reads as the events; a torn ledger does not read at all, and with a sealed codec never will. */
  ghost predicate Represents(c: Ledger.Codec, text: Option<string>, events: seq<LedgerEvent>, torn: bool) {
    if torn then Ledger.Events(c, Ledger.TextOf(text)).Err? && (Sealed(c) ==> Broken(c, Ledger.TextOf(text)))
    else Ledger.Events(c, Ledger.TextOf(text)) == Ok(events)
  }

  predicate IsNew(events: seq<LedgerEvent>, eventId: string) {
    forall i :: 0 <= i < |events| ==> events[i].eventId != eventId
  }

  lemma {:induction false} NewIsNotFound(events: seq<LedgerEvent>, eventId: string)
    requires IsNew(events, eventId)
    ensures Ledger.FindEvent(events, eventId).None?
  {
    Ledger.FindEventFinds(events, eventId);
  }

  lemma WholeLine(c: Ledger.Codec, text: string, events: seq<LedgerEvent>, e: LedgerEvent)
    requires Ledger.Faithful(c) && Ledger.Events(c, text) == Ok(events) && IsNew(events, e.eventId)
    ensures Ledger.Events(c, text + Ledger.LineOf(c, e)) == Ok(events + [e])
  {
    assert forall x :: x in events ==> x.eventId != e.eventId;
    Ledger.AppendedLine(c, text, e);
  }

  /** What a write makes of the events. */
  function Landed(torn: bool, e: LedgerEvent, line: string, left: string): seq<LedgerEvent> {
    if !torn && left == line then [e] else []
  }

  predicate Tears(torn: bool, line: string, left: string) {
    torn || (left != "" && left != line)
  }

  /** A write to a readable ledger, or to one that broke since it was checked. */
  lemma WriteRefines(c: Ledger.Codec, before: Option<string>, events: seq<LedgerEvent>, torn: bool, e: LedgerEvent, left: string)
    requires Ledger.Faithful(c) && Represents(c, before, events, torn) && (torn ==> Sealed(c))
    requires IsNew(events, e.eventId) && left <= Ledger.LineOf(c, e)
    ensures var line := Ledger.LineOf(c, e);
            Represents(c, Some(Ledger.TextOf(before) + left), events + Landed(torn, e, line, left), Tears(torn, line, left))
  {
    var text := Ledger.TextOf(before);
    assert events + [] == events;
    if torn {
      BrokenStays(c, text, e, left);
      BrokenIsUnreadable(c, text + left);
    } else if left == "" {
      assert text + left == text;
    } else if left == Ledger.LineOf(c, e) {
      WholeLine(c, text, events, e);
    } else {
      TornLine(c, text, e, left);
      BrokenIsUnreadable(c, text + left);
    }
  }

  function LeftOf(c: Ledger.Codec, e: LedgerEvent, stored: Ledger.Fate): string {
    if stored.Raised? then stored.left else Ledger.LineOf(c, e)
  }

  /** The model's append does the same to the events. */
  lemma FateLands(c: Ledger.Codec, torn: bool, e: LedgerEvent, stored: Ledger.Fate, outcome: Ledger.AppendOutcome)
    ensures var a, line, left := Processor.Append(torn, e, FateOf(c, e, stored, outcome)), Ledger.LineOf(c, e), LeftOf(c, e, stored);
            a.added == Landed(torn, e, line, left) && a.torn == Tears(torn, line, left)
  {
  }

  /**
   One append of the processor is one recording by the store, on the text: other
   calls may have written since the check, may have torn the ledger since, and may
   write before the read-back.
   */
  lemma AppendRefines(c: Ledger.Codec, checked: Option<string>, known: seq<LedgerEvent>, wasTorn: bool,
                      before: Option<string>, events: seq<LedgerEvent>, torn: bool, e: LedgerEvent, stored: Ledger.Fate, seen: Option<string>)
    requires Ledger.Faithful(c) && (Sealed(c) || checked == before)
    requires Represents(c, checked, known, wasTorn) && Represents(c, before, events, torn)
    requires known <= events && (wasTorn ==> torn) && IsNew(events, e.eventId) && IsLanding(c, e, stored)
    ensures var (now, outcome) := StoreCall(c, checked, before, e, stored, seen);
            var a := Processor.Append(torn, e, FateOf(c, e, stored, outcome));
            && (Writes(c, checked, e) <==> !wasTorn)
            && Represents(c, now, events + a.added, a.torn)
  {
    assert events + [] == events;
    if !wasTorn {
      assert IsNew(known, e.eventId);
      NewIsNotFound(known, e.eventId);
      WriteRefines(c, before, events, torn, e, LeftOf(c, e, stored));
      FateLands(c, torn, e, stored, StoreCall(c, checked, before, e, stored, seen).1);
    }
  }

  /** An event that is in a readable ledger passes the read-back. */
  lemma ReadBackFinds(c: Ledger.Codec, seen: Option<string>, later: seq<LedgerEvent>, e: LedgerEvent)
    requires Ledger.Events(c, Ledger.TextOf(seen)) == Ok(later) && e in later
    ensures Ledger.Verified(c, Ledger.TextOf(seen), e) == Ledger.Created
  {
    Ledger.ParseGrows(c, Ledger.EMPTY, Ledger.Records(Ledger.TextOf(seen)));
    Ledger.ConsistentOnce(c, Ledger.ParseText(c, Ledger.TextOf(seen)).value, e.eventId);
    Ledger.FoundIsIt(later, e);
  }

  // Whole runs

  /** What the step of an invocation would record. */
  function BodyFor(cfg: Processor.Config, inv: Processor.Invocation): Option<Body> {
    match inv.pc
    case Starting => Some(Started(inv.fingerprint))
    case Announcing(slot) => Some(Processor.ArtifactBody(cfg, inv, slot))
    case AnnouncingProposal => if inv.plan.Some? then Some(Processor.ProposalBody(cfg, inv.plan.value)) else None
    case FailingInTry => Some(Failed(Persistence, ProposalConflict))
    case Failing(phase, category) => Some(Failed(phase, category))
    case Completing => Some(Completed(if inv.plan.Some? then Produced else NoChanges))
    case _ => None
  }

  /** The event of the store call a move makes, if it makes one. */
  function EventFor(cfg: Processor.Config, sys: Processor.System, move: Processor.Move): Option<LedgerEvent> {
    if move.Advance? && move.pid in sys.invocations && BodyFor(cfg, sys.invocations[move.pid]).Some? then
      Some(Processor.EventOf(cfg, sys.invocations[move.pid], move.choice, BodyFor(cfg, sys.invocations[move.pid]).value))
    else None
  }

  /** The steps that call the store record this event, the others leave the ledger alone. */
  lemma StepsRecord(cfg: Processor.Config, pid: nat, torn: bool, history: seq<LedgerEvent>, data: Processor.Data,
                    inv: Processor.Invocation, choice: Processor.Choice)
    ensures var effect, body := Processor.LocalStep(cfg, pid, torn, history, data, inv, choice), BodyFor(cfg, inv);
            if body.Some? then effect.appending == Processor.Append(torn, Processor.EventOf(cfg, inv, choice, body.value), choice.fate)
            else effect.appending.added == [] && effect.appending.torn == torn
  {
  }

  lemma NextRecords(cfg: Processor.Config, sys: Processor.System, move: Processor.Move)
    ensures var after, event := Processor.Next(cfg, sys, move), EventFor(cfg, sys, move);
            if event.Some? then
              var a := Processor.Append(sys.torn, event.value, move.choice.fate);
              after.ledger == sys.ledger + a.added && after.torn == a.torn
            else after.ledger == sys.ledger && after.torn == sys.torn
  {
    if move.Advance? && move.pid in sys.invocations {
      var inv := sys.invocations[move.pid];
      StepsRecord(cfg, move.pid, sys.torn, Processor.HistoryOf(sys, inv.attempt), Processor.DataOf(sys, inv.attempt), inv, move.choice);
    }
  }

  /** The store call of one move: which text it checked and read back, numbered by the moves before, and how its append ended. */
  datatype Call = Call(check: nat, stored: Ledger.Fate, readBack: nat)

  /** One move as the file sees it; the model's fate is that of the call. */
  ghost predicate TextStep(cfg: Processor.Config, c: Ledger.Codec, sys: Processor.System, move: Processor.Move, stored: Ledger.Fate,
                           checked: Option<string>, before: Option<string>, now: Option<string>, seen: Option<string>)
  {
    var event := EventFor(cfg, sys, move);
    if event.None? then now == before
    else
      var (text, outcome) := StoreCall(c, checked, before, event.value, stored, seen);
      && now == text && IsLanding(c, event.value, stored)
      && (Writes(c, checked, event.value) ==> move.choice.fate == FateOf(c, event.value, stored, outcome))
  }

  /**
   The texts a run leaves, one before each move and one after the last.  A move
   stands where its line is written; its check may lie any number of moves before
   and its read-back any number behind.
   */
  ghost predicate TextRun(cfg: Processor.Config, c: Ledger.Codec, moves: seq<Processor.Move>, calls: seq<Call>, texts: seq<Option<string>>) {
    && |calls| == |moves| && |texts| == |moves| + 1 && texts[0] == None
    && forall i :: 0 <= i < |moves| ==> MoveFits(cfg, c, moves, calls, texts, i)
  }

  ghost predicate MoveFits(cfg: Processor.Config, c: Ledger.Codec, moves: seq<Processor.Move>, calls: seq<Call>, texts: seq<Option<string>>, i: nat)
    requires |calls| == |moves| && |texts| == |moves| + 1 && i < |moves|
  {
    && calls[i].check <= i < calls[i].readBack <= |moves|
    && TextStep(cfg, c, Processor.Run(cfg, moves[..i]), moves[i], calls[i].stored,
                texts[calls[i].check], texts[i], texts[i + 1], texts[calls[i].readBack])
  }

  /** No other call writes between the check and the line of any call. */
  predicate Serial(calls: seq<Call>) {
    forall i :: 0 <= i < |calls| ==> calls[i].check == i
  }

  /** Every recorded event gets an id the ledger does not have yet. */
  ghost predicate FreshIds(cfg: Processor.Config, moves: seq<Processor.Move>) {
    forall i :: 0 <= i < |moves| && moves[i].Advance? ==> IsNew(Processor.Run(cfg, moves[..i]).ledger, moves[i].choice.eventId)
  }

  /** Runs whose calls may overlap if the codec is sealed, and must not if it is not. */
  ghost predicate GoodRun(cfg: Processor.Config, c: Ledger.Codec, moves: seq<Processor.Move>, calls: seq<Call>, texts: seq<Option<string>>) {
    && Ledger.Faithful(c) && TextRun(cfg, c, moves, calls, texts) && FreshIds(cfg, moves)
    && (Sealed(c) || Serial(calls))
  }

  lemma {:induction false} LedgerGrows(cfg: Processor.Config, moves: seq<Processor.Move>, h: nat, k: nat)
    requires h <= k <= |moves|
    ensures Processor.Run(cfg, moves[..h]).ledger <= Processor.Run(cfg, moves[..k]).ledger
    ensures Processor.Run(cfg, moves[..h]).torn ==> Processor.Run(cfg, moves[..k]).torn
  {
    if h < k {
      LedgerGrows(cfg, moves, h, k - 1);
      NextRecords(cfg, Processor.Run(cfg, moves[..k - 1]), moves[k - 1]);
      assert moves[..k][..k - 1] == moves[..k - 1];
    }
  }

  lemma StepRepresents(cfg: Processor.Config, c: Ledger.Codec, sys: Processor.System, move: Processor.Move, stored: Ledger.Fate,
                       checked: Option<string>, known: seq<LedgerEvent>, wasTorn: bool, before: Option<string>, now: Option<string>, seen: Option<string>)
    requires Ledger.Faithful(c) && (Sealed(c) || checked == before)
    requires Represents(c, checked, known, wasTorn) && Represents(c, before, sys.ledger, sys.torn)
    requires known <= sys.ledger && (wasTorn ==> sys.torn) && (move.Advance? ==> IsNew(sys.ledger, move.choice.eventId))
    requires TextStep(cfg, c, sys, move, stored, checked, before, now, seen)
    ensures var after := Processor.Next(cfg, sys, move);
            Represents(c, now, after.ledger, after.torn)
  {
    NextRecords(cfg, sys, move);
    var event := EventFor(cfg, sys, move);
    if event.Some? {
      AppendRefines(c, checked, known, wasTorn, before, sys.ledger, sys.torn, event.value, stored, seen);
      assert sys.ledger + [] == sys.ledger;
    }
  }

  /**
   Over every run, with calls that overlap in any way, the text of the store reads
   as the processor's events before and after each move, or is torn with them:
   what the runs are proved to keep, the file keeps.
   */
  lemma {:induction false} RunsRepresent(cfg: Processor.Config, c: Ledger.Codec, moves: seq<Processor.Move>, calls: seq<Call>,
                                         texts: seq<Option<string>>, k: nat)
    requires GoodRun(cfg, c, moves, calls, texts) && k <= |moves|
    ensures Represents(c, texts[k], Processor.Run(cfg, moves[..k]).ledger, Processor.Run(cfg, moves[..k]).torn)
  {
    if k == 0 {
      assert Ledger.Records("") == [];
    } else {
      assert MoveFits(cfg, c, moves, calls, texts, k - 1);
      RunsRepresent(cfg, c, moves, calls, texts, calls[k - 1].check);
      RunsRepresent(cfg, c, moves, calls, texts, k - 1);
      MoveRepresents(cfg, c, moves, calls, texts, k - 1);
    }
  }

  lemma {:induction false} MoveRepresents(cfg: Processor.Config, c: Ledger.Codec, moves: seq<Processor.Move>, calls: seq<Call>, texts: seq<Option<string>>, i: nat)
    requires GoodRun(cfg, c, moves, calls, texts) && i < |moves| && MoveFits(cfg, c, moves, calls, texts, i)
    requires var h := calls[i].check; Represents(c, texts[h], Processor.Run(cfg, moves[..h]).ledger, Processor.Run(cfg, moves[..h]).torn)
    requires Represents(c, texts[i], Processor.Run(cfg, moves[..i]).ledger, Processor.Run(cfg, moves[..i]).torn)
    ensures Represents(c, texts[i + 1], Processor.Run(cfg, moves[..i + 1]).ledger, Processor.Run(cfg, moves[..i + 1]).torn)
  {
    var h := calls[i].check;
    var sys, past := Processor.Run(cfg, moves[..i]), Processor.Run(cfg, moves[..h]);
    LedgerGrows(cfg, moves, h, i);
    assert moves[..i + 1][..i] == moves[..i];
    StepRepresents(cfg, c, sys, moves[i], calls[i].stored, texts[h], past.ledger, past.torn, texts[i], texts[i + 1], texts[calls[i].readBack]);
  }

  /** What the caller of the store call of move `i` is told. */
  function OutcomeAt(cfg: Processor.Config, c: Ledger.Codec, moves: seq<Processor.Move>, calls: seq<Call>, texts: seq<Option<string>>,
                     i: nat, event: LedgerEvent): Ledger.AppendOutcome
    requires i < |calls| == |moves| && |texts| == |moves| + 1 && calls[i].check <= i < calls[i].readBack <= |moves|
  {
    StoreCall(c, texts[calls[i].check], texts[i], event, calls[i].stored, texts[calls[i].readBack]).1
  }

  /**
   The caller is told that the event was created in the same calls in the model
   and in the store; and an append that raised nothing is reported as created
   exactly if the ledger still reads at the read-back.
   */
  lemma {:induction false} CallersSeeTheSame(cfg: Processor.Config, c: Ledger.Codec, moves: seq<Processor.Move>, calls: seq<Call>,
                                           texts: seq<Option<string>>, i: nat, event: LedgerEvent)
    requires GoodRun(cfg, c, moves, calls, texts) && i < |moves| && MoveFits(cfg, c, moves, calls, texts, i)
    requires EventFor(cfg, Processor.Run(cfg, moves[..i]), moves[i]) == Some(event)
    ensures var sys, outcome := Processor.Run(cfg, moves[..i]), OutcomeAt(cfg, c, moves, calls, texts, i, event);
            && (Processor.Append(sys.torn, event, moves[i].choice.fate).ok <==> outcome == Ledger.Created)
            && (Writes(c, texts[calls[i].check], event) && calls[i].stored.Appended? ==>
                  (outcome == Ledger.Created <==> Ledger.Events(c, Ledger.TextOf(texts[calls[i].readBack])).Ok?))
  {
    var sys, h, l := Processor.Run(cfg, moves[..i]), calls[i].check, calls[i].readBack;
    var past, later := Processor.Run(cfg, moves[..h]), Processor.Run(cfg, moves[..l]);
    RunsRepresent(cfg, c, moves, calls, texts, h);
    RunsRepresent(cfg, c, moves, calls, texts, i);
    RunsRepresent(cfg, c, moves, calls, texts, l);
    LedgerGrows(cfg, moves, h, i);
    LedgerGrows(cfg, moves, i, l);
    AppendRefines(c, texts[h], past.ledger, past.torn, texts[i], sys.ledger, sys.torn, event, calls[i].stored, texts[l]);
    if !sys.torn && !later.torn && calls[i].stored.Appended? {
      LineIsLater(cfg, moves, i, l, event);
      ReadBackFinds(c, texts[l], later.ledger, event);
    }
  }

  /** An event whose line landed in a readable ledger is there in every later one. */
  lemma {:induction false} LineIsLater(cfg: Processor.Config, moves: seq<Processor.Move>, i: nat, l: nat, event: LedgerEvent)
    requires i < l <= |moves| && EventFor(cfg, Processor.Run(cfg, moves[..i]), moves[i]) == Some(event)
    requires !Processor.Run(cfg, moves[..i]).torn && Processor.Lands(moves[i].choice.fate)
    ensures event in Processor.Run(cfg, moves[..l]).ledger
  {
    NextRecords(cfg, Processor.Run(cfg, moves[..i]), moves[i]);
    assert moves[..i + 1][..i] == moves[..i];
    LedgerGrows(cfg, moves, i + 1, l);
    var there := Processor.Run(cfg, moves[..i + 1]).ledger;
    assert there[|there| - 1] == event;
  }

  /** A ledger file that can be read folds for every attempt, except after a failure recorded twice. */
  lemma {:induction false} EveryReadableFileFolds(cfg: Processor.Config, c: Ledger.Codec, moves: seq<Processor.Move>, calls: seq<Call>,
                                                texts: seq<Option<string>>, attempt: string)
    requires GoodRun(cfg, c, moves, calls, texts)
    ensures Ledger.Events(c, Ledger.TextOf(texts[|moves|])).Ok? <==> !Processor.Run(cfg, moves).torn
    ensures Ledger.Events(c, Ledger.TextOf(texts[|moves|])).Ok? ==>
              (FoldOf(Ledger.Events(c, Ledger.TextOf(texts[|moves|])).value, attempt).Ok? <==> !Processor.FailsTwice(cfg, moves, attempt))
  {
    RunsRepresent(cfg, c, moves, calls, texts, |moves|);
    assert moves[..|moves|] == moves;
    Processor.EveryLedgerFolds(cfg, moves, attempt);
  }
}
