/** What every ledger file reads as, and what every recording does with it. */
module LedgerFates {
  import opened Wrappers
  import opened AttemptState
  import opened Ledger
  import FactLines

  /** The file of some lines: each with its line feed. */
  function FileOf(lines: seq<string>): string {
    if lines == [] then "" else lines[0] + "\n" + FileOf(lines[1..])
  }

  predicate AreLines(lines: seq<string>) {
    forall i :: 0 <= i < |lines| ==> '\n' !in lines[i]
  }

  /** Line `k` reads as an event, and repeats the payload of every earlier line with its id. */
  predicate Fine(c: Codec, lines: seq<string>, k: nat)
    requires k < |lines|
  {
    match c.decode(lines[k])
    case None => false
    case Some(e) => forall j :: 0 <= j < k ==> Agrees(c, lines[j], e)
  }

  predicate Agrees(c: Codec, line: string, e: LedgerEvent) {
    match c.decode(line)
    case Some(x) => x.eventId == e.eventId ==> c.encode(x) == c.encode(e)
    case None => true
  }

  predicate HasId(c: Codec, line: string, eventId: string) {
    match c.decode(line)
    case Some(x) => x.eventId == eventId
    case None => false
  }

  /** Line `k` is the first one with its id. */
  predicate IsFirst(c: Codec, lines: seq<string>, k: int) {
    0 <= k < |lines| && c.decode(lines[k]).Some? && forall j :: 0 <= j < k ==> !HasId(c, lines[j], c.decode(lines[k]).value.eventId)
  }

  /** The events are those of the first lines of their ids, in line order. */
  ghost predicate FirstsAt(c: Codec, lines: seq<string>, places: seq<nat>, events: seq<LedgerEvent>) {
    && |places| == |events|
    && (forall p: int :: p in places <==> IsFirst(c, lines, p))
    && (forall i, j :: 0 <= i < j < |places| ==> places[i] < places[j])
    && forall i :: 0 <= i < |places| ==> places[i] < |lines| && c.decode(lines[places[i]]) == Some(events[i])
  }

  ghost predicate AreFirsts(c: Codec, lines: seq<string>, events: seq<LedgerEvent>) {
    exists places: seq<nat> :: FirstsAt(c, lines, places, events)
  }

  predicate FirstBad(c: Codec, lines: seq<string>, k: nat) {
    k < |lines| && !Fine(c, lines, k) && forall j :: 0 <= j < k ==> Fine(c, lines, j)
  }

  function FaultAt(c: Codec, line: string): Fault {
    match c.decode(line)
    case None => BadRecord(line)
    case Some(e) => ConflictingPayload(e.eventId)
  }

  ghost predicate Refused(c: Codec, lines: seq<string>, fault: Fault) {
    exists k: nat :: FirstBad(c, lines, k) && fault == FaultAt(c, lines[k])
  }

  predicate AllFine(c: Codec, lines: seq<string>) {
    forall k :: 0 <= k < |lines| ==> Fine(c, lines, k)
  }

  ghost predicate ReadsAs(c: Codec, lines: seq<string>, r: Result<seq<LedgerEvent>, Fault>) {
    match r
    case Ok(events) => AllFine(c, lines) && AreFirsts(c, lines, events)
    case Err(fault) => !AllFine(c, lines) && Refused(c, lines, fault)
  }

  // Lines

  lemma {:induction false} FileReads(lines: seq<string>)
    requires AreLines(lines)
    ensures Terminated(FileOf(lines)) && Records(FileOf(lines)) == lines
  {
    if lines == [] {
      FactLines.LinesOfOneLine("");
    } else {
      FileReads(lines[1..]);
      RecordsOfLine(lines[0]);
      assert Terminated(lines[0] + [LF]);
      RecordsConcat(lines[0] + [LF], FileOf(lines[1..]));
      assert lines[0] + "\n" + FileOf(lines[1..]) == (lines[0] + [LF]) + FileOf(lines[1..]);
      assert lines == [lines[0]] + lines[1..];
    }
  }

  lemma {:induction false} FileOfOneMore(lines: seq<string>, line: string)
    ensures FileOf(lines + [line]) == FileOf(lines) + line + "\n"
  {
    if lines == [] {
      assert [line][1..] == [];
      assert FileOf([line]) == line + "\n" + "";
    } else {
      FileOfOneMore(lines[1..], line);
      assert (lines + [line])[1..] == lines[1..] + [line];
      assert lines[0] + "\n" + (FileOf(lines[1..]) + line + "\n") == lines[0] + "\n" + FileOf(lines[1..]) + line + "\n";
    }
  }

  /** Every terminated text is the file of some lines. */
  lemma {:induction false} FilesHaveLines(text: string) returns (lines: seq<string>)
    requires text == "" || text[|text| - 1] == '\n'
    ensures AreLines(lines) && FileOf(lines) == text
    decreases |text|
  {
    if text == "" {
      return [];
    }
    var k := |text| - 1;
    while k > 0 && text[k - 1] != '\n'
      invariant 0 <= k < |text| && forall i :: k <= i < |text| - 1 ==> text[i] != '\n'
    {
      k := k - 1;
    }
    var before := FilesHaveLines(text[..k]);
    var line := text[k..|text| - 1];
    FileOfOneMore(before, line);
    assert text == text[..k] + line + "\n";
    return before + [line];
  }

  // The strict parse

  /** The parser's dictionary after some lines. */
  ghost predicate Knows(c: Codec, lines: seq<string>, st: Parsed) {
    && AllFine(c, lines) && AreFirsts(c, lines, st.ordered)
    && (forall id :: id in st.canonicalById <==> exists j :: 0 <= j < |lines| && HasId(c, lines[j], id))
    && forall j :: 0 <= j < |lines| && c.decode(lines[j]).Some? ==>
         c.decode(lines[j]).value.eventId in st.canonicalById
         && st.canonicalById[c.decode(lines[j]).value.eventId] == c.encode(c.decode(lines[j]).value)
  }

  lemma FirstsOneMore(c: Codec, front: seq<string>, line: string, events: seq<LedgerEvent>)
    requires AreFirsts(c, front, events) && c.decode(line).Some?
    ensures AreFirsts(c, front + [line], if IsFirst(c, front + [line], |front|) then events + [c.decode(line).value] else events)
  {
    var places: seq<nat> :| FirstsAt(c, front, places, events);
    var lines, n := front + [line], |front|;
    forall k: int | 0 <= k < n
      ensures IsFirst(c, lines, k) <==> IsFirst(c, front, k)
    {
      assert forall j :: 0 <= j <= k ==> lines[j] == front[j];
    }
    if IsFirst(c, lines, n) {
      assert FirstsAt(c, lines, places + [n], events + [c.decode(line).value]);
    } else {
      assert FirstsAt(c, lines, places, events);
    }
  }

  lemma FineOneMore(c: Codec, front: seq<string>, line: string)
    requires AllFine(c, front)
    ensures AllFine(c, front + [line]) <==> Fine(c, front + [line], |front|)
    ensures !Fine(c, front + [line], |front|) ==> FirstBad(c, front + [line], |front|)
  {
    var lines := front + [line];
    forall k | 0 <= k < |front|
      ensures Fine(c, lines, k)
    {
      assert Fine(c, front, k);
      assert forall j :: 0 <= j <= k ==> lines[j] == front[j];
    }
  }

  /** The dictionary decides whether a line is fine, and whether it is the first of its id. */
  lemma DictionaryDecides(c: Codec, front: seq<string>, line: string, st: Parsed)
    requires Knows(c, front, st) && c.decode(line).Some?
    ensures var e := c.decode(line).value;
            && (IsFirst(c, front + [line], |front|) <==> e.eventId !in st.canonicalById)
            && (Fine(c, front + [line], |front|) <==> (e.eventId in st.canonicalById ==> st.canonicalById[e.eventId] == c.encode(e)))
  {
    var e, lines, n := c.decode(line).value, front + [line], |front|;
    assert forall j :: 0 <= j < n ==> lines[j] == front[j];
    if e.eventId in st.canonicalById {
      var j :| 0 <= j < n && HasId(c, front[j], e.eventId);
      assert HasId(c, lines[j], e.eventId);
      if st.canonicalById[e.eventId] != c.encode(e) {
        assert !Agrees(c, lines[j], e);
      }
    }
  }

  lemma OneMoreLine(c: Codec, front: seq<string>, line: string, st: Parsed)
    requires Knows(c, front, st)
    ensures match ParseLine(c, st, line)
            case Ok(now) => Knows(c, front + [line], now)
            case Err(fault) => FirstBad(c, front + [line], |front|) && fault == FaultAt(c, line)
  {
    var lines := front + [line];
    FineOneMore(c, front, line);
    if c.decode(line).Some? {
      DictionaryDecides(c, front, line, st);
      FirstsOneMore(c, front, line, st.ordered);
      if Fine(c, lines, |front|) {
        KnowsOneMore(c, front, line, st);
      }
    }
  }

  lemma KnowsOneMore(c: Codec, front: seq<string>, line: string, st: Parsed)
    requires Knows(c, front, st) && c.decode(line).Some? && AllFine(c, front + [line])
    requires ParseLine(c, st, line).Ok? && AreFirsts(c, front + [line], ParseLine(c, st, line).value.ordered)
    ensures Knows(c, front + [line], ParseLine(c, st, line).value)
  {
    var lines, now, e := front + [line], ParseLine(c, st, line).value, c.decode(line).value;
    assert lines[|front|] == line && HasId(c, line, e.eventId);
    assert forall j :: 0 <= j < |front| ==> lines[j] == front[j];
    forall id
      ensures id in now.canonicalById <==> exists j :: 0 <= j < |lines| && HasId(c, lines[j], id)
    {
      if id in st.canonicalById {
        var j :| 0 <= j < |front| && HasId(c, front[j], id);
        assert HasId(c, lines[j], id);
      }
    }
    forall j | 0 <= j < |lines| && c.decode(lines[j]).Some?
      ensures c.decode(lines[j]).value.eventId in now.canonicalById
      ensures now.canonicalById[c.decode(lines[j]).value.eventId] == c.encode(c.decode(lines[j]).value)
    {
      if j < |front| {
        assert HasId(c, front[j], c.decode(front[j]).value.eventId);
      }
    }
  }

  lemma {:induction false} ParsedIs(c: Codec, lines: seq<string>)
    ensures match ParseLines(c, EMPTY, lines)
            case Ok(st) => Knows(c, lines, st)
            case Err(fault) => Refused(c, lines, fault)
  {
    if lines == [] {
      assert FirstsAt(c, [], [], []);
    } else {
      var front, line := lines[..|lines| - 1], lines[|lines| - 1];
      assert lines == front + [line];
      ParsedIs(c, front);
      var r := ParseLines(c, EMPTY, front);
      match r
      case Ok(st) =>
        OneMoreLine(c, front, line, st);
        assert ParseLine(c, st, line).Err? ==> Refused(c, lines, ParseLine(c, st, line).error);
      case Err(fault) =>
        BadStays(c, front, line, fault);
    }
  }

  lemma BadStays(c: Codec, front: seq<string>, line: string, fault: Fault)
    requires Refused(c, front, fault)
    ensures Refused(c, front + [line], fault)
  {
    var k: nat :| FirstBad(c, front, k) && fault == FaultAt(c, front[k]);
    var lines := front + [line];
    forall i: nat | i <= k
      ensures Fine(c, lines, i) <==> Fine(c, front, i)
    {
      assert forall j :: 0 <= j <= i ==> lines[j] == front[j];
    }
    assert FirstBad(c, lines, k);
  }

  /**
   A ledger is read exactly when its last line is terminated, every line is an event and lines of
   one id agree; then the first line of each id is read, in order. Otherwise the torn tail, or
   the first offending line, is the fault.
   */
  lemma ReadIs(c: Codec, text: string)
    ensures Events(c, text) == Err(UncertainTail) <==> text != "" && text[|text| - 1] != '\n'
    ensures text == "" || text[|text| - 1] == '\n' ==> exists lines :: AreLines(lines) && FileOf(lines) == text
    ensures forall lines :: AreLines(lines) && FileOf(lines) == text ==> ReadsAs(c, lines, Events(c, text))
  {
    if text == "" || text[|text| - 1] == '\n' {
      var lines := FilesHaveLines(text);
      assert AreLines(lines) && FileOf(lines) == text;
      FileIsRead(c, lines);
    }
    forall lines | AreLines(lines) && FileOf(lines) == text
      ensures ReadsAs(c, lines, Events(c, text))
    {
      FileIsRead(c, lines);
    }
  }

  lemma {:induction false} FileIsRead(c: Codec, lines: seq<string>)
    requires AreLines(lines)
    ensures Events(c, FileOf(lines)) != Err(UncertainTail)
    ensures ReadsAs(c, lines, Events(c, FileOf(lines)))
  {
    FileReads(lines);
    ParsedIs(c, lines);
  }

  // Recording

  predicate AnswerFits(c: Codec, text: Option<string>, e: LedgerEvent, fate: Fate, others: Others, now: Option<string>, outcome: AppendOutcome) {
    match Events(c, if text == None then "" else text.value)
    case Err(_) => outcome == StorageError && now == text
    case Ok(events) =>
      if e in events then outcome == AlreadyPresent && now == text
      else if exists i :: 0 <= i < |events| && events[i].eventId == e.eventId then outcome == Conflict && now == text
      else
        match fate
        case Raised(left) => outcome == StorageError && now == Some(TextOf(text) + others.first + left)
        case Appended =>
          var persisted := TextOf(text) + others.first + c.encode(e) + "\n" + others.second;
          && now == Some(persisted)
          && outcome == (match Events(c, persisted)
                         case Ok(after) => if e in after then Created else StorageError
                         case Err(_) => StorageError)
  }

  /** Two events with one printed form are one event. */
  lemma FindsIt(c: Codec, text: string, e: LedgerEvent)
    requires Faithful(c) && Events(c, text).Ok?
    ensures var events, found := Events(c, text).value, FindEvent(Events(c, text).value, e.eventId);
            && (found.Some? <==> exists i :: 0 <= i < |events| && events[i].eventId == e.eventId)
            && (found.Some? && c.encode(found.value) == c.encode(e) <==> e in events)
  {
    var events := Events(c, text).value;
    var found := FindEvent(events, e.eventId);
    ParseGrows(c, EMPTY, Records(text));
    FindEventFinds(events, e.eventId);
    if found.Some? {
      assert c.decode(c.encode(found.value)) == Some(found.value) && c.decode(c.encode(e)) == Some(e);
      if e in events {
        ConsistentOnce(c, ParseText(c, text).value, e.eventId);
        FoundIsIt(events, e);
      }
    }
  }

  /** Every recording: what was there decides first, then the fault, then what the file reads as afterwards. */
  lemma RecordingIs(c: Codec, text: Option<string>, e: LedgerEvent, fate: Fate, others: Others)
    requires Faithful(c)
    ensures AnswerFits(c, text, e, fate, others, RecordEvent(c, text, e, fate, others).0, RecordEvent(c, text, e, fate, others).1)
  {
    if Events(c, TextOf(text)).Ok? {
      FindsIt(c, TextOf(text), e);
      var persisted := TextOf(text) + others.first + LineOf(c, e) + others.second;
      assert persisted == TextOf(text) + others.first + c.encode(e) + "\n" + others.second;
      if Events(c, persisted).Ok? {
        FindsIt(c, persisted, e);
      }
    }
  }
}
