/** The append-only processing ledger as text: strict parsing with idempotent replay, and an append that tolerates other writers. */
module Ledger {
  import opened Wrappers
  import opened AttemptState
  import FactLines

  const LF: char := '\n'

  /** The record format: an arbitrary printer and an arbitrary partial reader. */
  datatype Codec = Codec(encode: LedgerEvent -> string, decode: string -> Option<LedgerEvent>)

  /** Printed records have no line feed and are read back. */
  ghost predicate Faithful(c: Codec) {
    forall e :: c.decode(c.encode(e)) == Some(e) && LF !in c.encode(e)
  }

  datatype Fault = UncertainTail | BadRecord(line: string) | ConflictingPayload(eventId: string)

  datatype Parsed = Parsed(ordered: seq<LedgerEvent>, canonicalById: map<string, string>)

  function ParseLine(c: Codec, st: Parsed, line: string): Result<Parsed, Fault> {
    match c.decode(line)
    case None => Err(BadRecord(line))
    case Some(e) =>
      if e.eventId in st.canonicalById then
        if st.canonicalById[e.eventId] != c.encode(e) then Err(ConflictingPayload(e.eventId)) else Ok(st)
      else Ok(Parsed(st.ordered + [e], st.canonicalById[e.eventId := c.encode(e)]))
  }

  function ParseLines(c: Codec, st: Parsed, lines: seq<string>): Result<Parsed, Fault> {
    if lines == [] then Ok(st)
    else
      match ParseLines(c, st, lines[..|lines| - 1])
      case Err(f) => Err(f)
      case Ok(now) => ParseLine(c, now, lines[|lines| - 1])
  }

  const EMPTY := Parsed([], map[])

  predicate Terminated(text: string) {
    text == "" || text[|text| - 1] == LF
  }

  /** `text.split("\n")[:-1]` */
  function Records(text: string): seq<string> {
    FactLines.Lines(text)[..|FactLines.Lines(text)| - 1]
  }

  function ParseText(c: Codec, text: string): Result<Parsed, Fault> {
    if !Terminated(text) then Err(UncertainTail) else ParseLines(c, EMPTY, Records(text))
  }

  function Events(c: Codec, text: string): Result<seq<LedgerEvent>, Fault> {
    match ParseText(c, text)
    case Err(f) => Err(f)
    case Ok(p) => Ok(p.ordered)
  }

  lemma {:induction false} ParseFails(c: Codec, st: Parsed, lines: seq<string>, k: nat, n: nat)
    requires k <= n <= |lines| && ParseLines(c, st, lines[..k]).Err?
    ensures ParseLines(c, st, lines[..n]) == ParseLines(c, st, lines[..k])
  {
    if k < n {
      ParseFails(c, st, lines, k, n - 1);
      assert lines[..n][..n - 1] == lines[..n - 1];
    }
  }

  method ParseLedgerText(c: Codec, text: string) returns (r: Result<seq<LedgerEvent>, Fault>)
    ensures r == Events(c, text)
  {
    if !Terminated(text) {
      return Err(UncertainTail);
    }
    var lines := Records(text);
    var st := EMPTY;
    for k := 0 to |lines|
      invariant ParseLines(c, EMPTY, lines[..k]) == Ok(st)
    {
      assert lines[..k + 1][..k] == lines[..k];
      var next := ParseLine(c, st, lines[k]);
      if next.Err? {
        ParseFails(c, EMPTY, lines, k + 1, |lines|);
        assert lines[..|lines|] == lines;
        return Err(next.error);
      }
      st := next.value;
    }
    assert lines[..|lines|] == lines;
    return Ok(st.ordered);
  }

  // How texts compose

  lemma RecordsConcat(a: string, b: string)
    requires Terminated(a)
    ensures Records(a + b) == Records(a) + Records(b)
  {
    if a == "" {
      assert a + b == b;
    } else {
      var front := a[..|a| - 1];
      assert a == front + [LF] + "" && a + b == front + [LF] + b;
      FactLines.LinesSplitAtLf(front, "");
      FactLines.LinesSplitAtLf(front, b);
    }
  }

  lemma RecordsOfLine(line: string)
    requires LF !in line
    ensures Records(line + [LF]) == [line]
  {
    assert line + [LF] == line + [LF] + "";
    FactLines.LinesSplitAtLf(line, "");
    FactLines.LinesOfOneLine(line);
  }

  function Continue(c: Codec, r: Result<Parsed, Fault>, lines: seq<string>): Result<Parsed, Fault> {
    match r
    case Err(f) => Err(f)
    case Ok(st) => ParseLines(c, st, lines)
  }

  lemma {:induction false} ParseConcat(c: Codec, st: Parsed, a: seq<string>, b: seq<string>)
    ensures ParseLines(c, st, a + b) == Continue(c, ParseLines(c, st, a), b)
  {
    if b == [] {
      assert a + b == a;
    } else {
      assert (a + b)[..|a + b| - 1] == a + b[..|b| - 1];
      ParseConcat(c, st, a, b[..|b| - 1]);
    }
  }

  /** The dictionary holds exactly the listed events, each listed once. */
  ghost predicate Consistent(c: Codec, st: Parsed) {
    && (forall e :: e in st.ordered ==> e.eventId in st.canonicalById && st.canonicalById[e.eventId] == c.encode(e))
    && (forall id :: id in st.canonicalById ==> exists e :: e in st.ordered && e.eventId == id)
    && (forall i, j :: 0 <= i < j < |st.ordered| ==> st.ordered[i].eventId != st.ordered[j].eventId)
  }

  lemma {:induction false} ParseGrows(c: Codec, st: Parsed, lines: seq<string>)
    requires Consistent(c, st) && ParseLines(c, st, lines).Ok?
    ensures Consistent(c, ParseLines(c, st, lines).value)
    ensures st.ordered <= ParseLines(c, st, lines).value.ordered
  {
    if lines != [] {
      ParseGrows(c, st, lines[..|lines| - 1]);
      var before := ParseLines(c, st, lines[..|lines| - 1]).value;
      ParseLineKeeps(c, before, lines[|lines| - 1]);
    }
  }

  lemma ParseLineKeeps(c: Codec, st: Parsed, line: string)
    requires Consistent(c, st) && ParseLine(c, st, line).Ok?
    ensures Consistent(c, ParseLine(c, st, line).value)
    ensures st.ordered <= ParseLine(c, st, line).value.ordered
  {
    var next := ParseLine(c, st, line).value;
    if next != st {
      AddedKeeps(c, st, c.decode(line).value);
    }
  }

  lemma AddedKeeps(c: Codec, st: Parsed, e: LedgerEvent)
    requires Consistent(c, st) && e.eventId !in st.canonicalById
    ensures Consistent(c, Parsed(st.ordered + [e], st.canonicalById[e.eventId := c.encode(e)]))
  {
    var next := Parsed(st.ordered + [e], st.canonicalById[e.eventId := c.encode(e)]);
    assert e in next.ordered;
    forall id | id in next.canonicalById
      ensures exists x :: x in next.ordered && x.eventId == id
    {
      if id != e.eventId {
        var x :| x in st.ordered && x.eventId == id;
        assert x in next.ordered;
      }
    }
  }

  lemma ParseTextConcat(c: Codec, a: string, b: string)
    requires Terminated(a) && Terminated(b)
    ensures Terminated(a + b)
    ensures ParseText(c, a + b) == Continue(c, ParseText(c, a), Records(b))
  {
    RecordsConcat(a, b);
    ParseConcat(c, EMPTY, Records(a), Records(b));
  }

  /** Whole lines added to a readable ledger, if still readable, only add events at the end. */
  lemma MoreTextMoreEvents(c: Codec, a: string, b: string)
    requires Terminated(a) && Terminated(b) && ParseText(c, a + b).Ok?
    ensures ParseText(c, a).Ok? && Consistent(c, ParseText(c, a).value) && Consistent(c, ParseText(c, a + b).value)
    ensures ParseText(c, a).value.ordered <= ParseText(c, a + b).value.ordered
  {
    ParseTextConcat(c, a, b);
    ParseGrows(c, EMPTY, Records(a));
    ParseGrows(c, ParseText(c, a).value, Records(b));
  }

  function LineOf(c: Codec, e: LedgerEvent): string {
    c.encode(e) + [LF]
  }

  /** One appended line: a new id adds the event, the same event adds nothing, another payload is refused. */
  lemma AppendedLine(c: Codec, text: string, e: LedgerEvent)
    requires Faithful(c) && ParseText(c, text).Ok?
    ensures var st := ParseText(c, text).value;
            Events(c, text + LineOf(c, e)) ==
            if e in st.ordered then Ok(st.ordered)
            else if exists x :: x in st.ordered && x.eventId == e.eventId then Err(ConflictingPayload(e.eventId))
            else Ok(st.ordered + [e])
  {
    var st := ParseText(c, text).value;
    ParseGrows(c, EMPTY, Records(text));
    RecordsOfLine(c.encode(e));
    ParseTextConcat(c, text, LineOf(c, e));
    assert [c.encode(e)][..0] == [];
    assert ParseLines(c, st, [c.encode(e)]) == ParseLine(c, st, c.encode(e));
    if e.eventId in st.canonicalById {
      var x :| x in st.ordered && x.eventId == e.eventId;
      assert c.decode(c.encode(x)) == Some(x) && c.decode(c.encode(e)) == Some(e);
    }
  }

  /** Repeating the line of an event that is already there, anywhere after it, never changes what is read. */
  lemma RepeatedLineIsInvisible(c: Codec, a: string, line: string, b: string)
    requires Terminated(a) && Terminated(b) && LF !in line && ParseText(c, a).Ok?
    requires c.decode(line).Some? && c.decode(line).value in ParseText(c, a).value.ordered
    ensures Events(c, a + (line + [LF]) + b) == Events(c, a + b)
  {
    var st := ParseText(c, a).value;
    ParseGrows(c, EMPTY, Records(a));
    RecordsOfLine(line);
    ParseTextConcat(c, a, line + [LF]);
    assert [line][..0] == [];
    assert ParseLines(c, st, [line]) == ParseLine(c, st, line);
    ParseTextConcat(c, a + (line + [LF]), b);
    ParseTextConcat(c, a, b);
  }

  // Recording one event

  datatype AppendOutcome = Created | AlreadyPresent | Conflict | StorageError

  /** The append itself: it succeeds, or it raises after leaving some of the line behind. */
  datatype Fate = Appended | Raised(left: string)

  /** What other writers append before and after our line; whole lines, or nothing. */
  datatype Others = Others(first: string, second: string)

  function TextOf(text: Option<string>): string {
    if text.Some? then text.value else ""
  }

  function FindEvent(events: seq<LedgerEvent>, eventId: string): Option<LedgerEvent> {
    if events == [] then None
    else if events[0].eventId == eventId then Some(events[0])
    else FindEvent(events[1..], eventId)
  }

  function RecordEvent(c: Codec, text: Option<string>, e: LedgerEvent, fate: Fate, others: Others): (Option<string>, AppendOutcome) {
    match Events(c, TextOf(text))
    case Err(_) => (text, StorageError)
    case Ok(events) =>
      var existing := FindEvent(events, e.eventId);
      if existing.Some? then
        (text, if c.encode(existing.value) == c.encode(e) then AlreadyPresent else Conflict)
      else if fate.Raised? then (Some(TextOf(text) + others.first + fate.left), StorageError)
      else
        var persisted := TextOf(text) + others.first + LineOf(c, e) + others.second;
        (Some(persisted), Verified(c, persisted, e))
  }

  /** The read-back: the ledger must parse and show exactly this event under its id. */
  function Verified(c: Codec, persisted: string, e: LedgerEvent): AppendOutcome {
    match Events(c, persisted)
    case Err(_) => StorageError
    case Ok(events) =>
      var found := FindEvent(events, e.eventId);
      if found.Some? && c.encode(found.value) == c.encode(e) then Created else StorageError
  }

  class ProcessingStore {
    var text: Option<string>

    constructor ()
      ensures text == None
    {
      text := None;
    }

    /** An append by anyone: the file appears with the first line. */
    method AppendText(line: string)
      modifies this
      ensures text == Some(TextOf(old(text)) + line)
    {
      text := Some(TextOf(text) + line);
    }

    method RecordLedgerEvent(c: Codec, e: LedgerEvent, fate: Fate, others: Others) returns (outcome: AppendOutcome)
      modifies this
      ensures (text, outcome) == RecordEvent(c, old(text), e, fate, others)
    {
      var before := TextOf(text);
      var existing := ParseLedgerText(c, before);
      if existing.Err? {
        return StorageError;
      }
      var present := FindEvent(existing.value, e.eventId);
      if present.Some? {
        return if c.encode(present.value) == c.encode(e) then AlreadyPresent else Conflict;
      }
      AppendText(others.first);
      if fate.Raised? {
        AppendText(fate.left);
        return StorageError;
      }
      AppendText(LineOf(c, e));
      AppendText(others.second);
      if !(before <= text.value) {
        return StorageError;
      }
      var persisted := ParseLedgerText(c, text.value);
      if persisted.Err? {
        return StorageError;
      }
      var found := FindEvent(persisted.value, e.eventId);
      if found.None? || c.encode(found.value) != c.encode(e) {
        return StorageError;
      }
      return Created;
    }
  }

  lemma {:induction false} FindEventFinds(events: seq<LedgerEvent>, eventId: string)
    ensures FindEvent(events, eventId).Some? <==> exists e :: e in events && e.eventId == eventId
    ensures FindEvent(events, eventId).Some? ==> FindEvent(events, eventId).value in events && FindEvent(events, eventId).value.eventId == eventId
  {
    if events != [] {
      FindEventFinds(events[1..], eventId);
      assert forall e :: e in events <==> e == events[0] || e in events[1..];
    }
  }

  ghost predicate OnlyOnce(events: seq<LedgerEvent>, eventId: string) {
    forall i, j :: 0 <= i < j < |events| && events[i].eventId == eventId ==> events[j].eventId != eventId
  }

  /**
   Created means that the old text is still a prefix and that the event is read
   exactly once, after everything that was read before.
   */
  lemma CreatedMeansOnce(c: Codec, text: Option<string>, e: LedgerEvent, fate: Fate, others: Others)
    requires Faithful(c) && Terminated(others.first) && Terminated(others.second)
    ensures var (now, outcome) := RecordEvent(c, text, e, fate, others);
            outcome == Created ==>
              && now.Some? && TextOf(text) <= now.value
              && Events(c, TextOf(text)).Ok? && Events(c, now.value).Ok?
              && Events(c, TextOf(text)).value <= Events(c, now.value).value
              && e !in Events(c, TextOf(text)).value && e in Events(c, now.value).value
              && OnlyOnce(Events(c, now.value).value, e.eventId)
  {
    if RecordEvent(c, text, e, fate, others).1 == Created {
      var more := others.first + LineOf(c, e) + others.second;
      CreatedText(c, text, e, fate, others);
      MoreTextMoreEvents(c, TextOf(text), more);
      NewToBefore(c, TextOf(text), e);
      VerifiedIsRead(c, TextOf(text) + more, e);
      ConsistentOnce(c, ParseText(c, TextOf(text) + more).value, e.eventId);
    }
  }

  lemma CreatedText(c: Codec, text: Option<string>, e: LedgerEvent, fate: Fate, others: Others)
    requires RecordEvent(c, text, e, fate, others).1 == Created
    ensures Events(c, TextOf(text)).Ok? && FindEvent(Events(c, TextOf(text)).value, e.eventId).None?
    ensures var persisted := TextOf(text) + (others.first + LineOf(c, e) + others.second);
            RecordEvent(c, text, e, fate, others).0 == Some(persisted) && Verified(c, persisted, e) == Created
  {
    Regroup(TextOf(text), others.first, LineOf(c, e), others.second);
  }

  lemma Regroup(a: string, b: string, c: string, d: string)
    ensures a + b + c + d == a + (b + c + d)
  {
  }

  lemma ConsistentOnce(c: Codec, st: Parsed, eventId: string)
    requires Consistent(c, st)
    ensures OnlyOnce(st.ordered, eventId)
  {
  }

  lemma NewToBefore(c: Codec, text: string, e: LedgerEvent)
    requires Events(c, text).Ok? && FindEvent(Events(c, text).value, e.eventId).None?
    ensures e !in Events(c, text).value
  {
    FindEventFinds(Events(c, text).value, e.eventId);
  }

  lemma VerifiedIsRead(c: Codec, persisted: string, e: LedgerEvent)
    requires Faithful(c) && Verified(c, persisted, e) == Created
    ensures Events(c, persisted).Ok? && e in Events(c, persisted).value
  {
    FindEventFinds(Events(c, persisted).value, e.eventId);
    var found := FindEvent(Events(c, persisted).value, e.eventId).value;
    assert c.decode(c.encode(found)) == Some(found) && c.decode(c.encode(e)) == Some(e);
  }

  /** An append that found nothing wrong and met no fault always succeeds, whatever valid lines others add. */
  lemma UndisturbedAppendSucceeds(c: Codec, text: Option<string>, e: LedgerEvent, others: Others)
    requires Faithful(c) && Terminated(TextOf(text) + others.first) && Terminated(others.second)
    requires Events(c, TextOf(text)).Ok? && FindEvent(Events(c, TextOf(text)).value, e.eventId).None?
    requires Events(c, TextOf(text) + others.first + LineOf(c, e) + others.second).Ok?
    ensures RecordEvent(c, text, e, Appended, others).1 == Created
  {
    var a := TextOf(text) + others.first;
    var line, persisted := LineOf(c, e), TextOf(text) + others.first + LineOf(c, e) + others.second;
    assert persisted == a + line + others.second;
    EventIsRead(c, a, e, others.second);
    FoundIsIt(Events(c, persisted).value, e);
  }

  lemma EventIsRead(c: Codec, a: string, e: LedgerEvent, more: string)
    requires Faithful(c) && Terminated(a) && Terminated(more) && Events(c, a + LineOf(c, e) + more).Ok?
    ensures e in Events(c, a + LineOf(c, e) + more).value && OnlyOnce(Events(c, a + LineOf(c, e) + more).value, e.eventId)
  {
    MoreTextMoreEvents(c, a + LineOf(c, e), more);
    MoreTextMoreEvents(c, a, LineOf(c, e));
    AppendedLine(c, a, e);
    assert e in Events(c, a + LineOf(c, e)).value;
  }

  lemma {:induction false} FoundIsIt(events: seq<LedgerEvent>, e: LedgerEvent)
    requires e in events && OnlyOnce(events, e.eventId)
    ensures FindEvent(events, e.eventId) == Some(e)
  {
    FindEventFinds(events, e.eventId);
    var found := FindEvent(events, e.eventId).value;
    var i :| 0 <= i < |events| && events[i] == found;
    var j :| 0 <= j < |events| && events[j] == e;
  }

  /** Any outcome but Created or a storage error leaves the text alone, and then the event, or its id, was there already. */
  lemma NoWriteWhenPresent(c: Codec, text: Option<string>, e: LedgerEvent, fate: Fate, others: Others)
    requires Faithful(c)
    ensures var (now, outcome) := RecordEvent(c, text, e, fate, others);
            && (outcome == AlreadyPresent ==> now == text && Events(c, TextOf(text)).Ok? && e in Events(c, TextOf(text)).value)
            && (outcome == Conflict ==> now == text)
  {
    if Events(c, TextOf(text)).Ok? {
      var events := Events(c, TextOf(text)).value;
      FindEventFinds(events, e.eventId);
      var found := FindEvent(events, e.eventId);
      if found.Some? {
        assert c.decode(c.encode(found.value)) == Some(found.value) && c.decode(c.encode(e)) == Some(e);
      }
    }
  }

  /** Retrying an event that is in the ledger writes nothing, however often. */
  lemma {:induction false} RetriesWriteNothing(c: Codec, text: string, e: LedgerEvent, retries: seq<(Fate, Others)>)
    requires Faithful(c) && Events(c, text).Ok? && e in Events(c, text).value
    ensures Retried(c, Some(text), e, retries) == Some(text)
  {
    if retries != [] {
      RetriesWriteNothing(c, text, e, retries[..|retries| - 1]);
      var events := Events(c, text).value;
      FindEventFinds(events, e.eventId);
    }
  }

  function Retried(c: Codec, text: Option<string>, e: LedgerEvent, retries: seq<(Fate, Others)>): Option<string> {
    if retries == [] then text
    else
      var (fate, others) := retries[|retries| - 1];
      RecordEvent(c, Retried(c, text, e, retries[..|retries| - 1]), e, fate, others).0
  }
}
