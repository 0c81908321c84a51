/** Facts as Markdown bullets: how the repository appends one to a body and how the producers look for one. */
module FactLines {

  const LF: char := '\n'
  const CR: char := '\r'

  /** Python's `s.split("\n")`. */
  function Lines(s: string): (r: seq<string>)
    ensures r != []
  {
    if s == "" then [""]
    else if s[0] == LF then [""] + Lines(s[1..])
    else
      var rest := Lines(s[1..]);
      [[s[0]] + rest[0]] + rest[1..]
  }

  function StripCr(line: string): string {
    if EndsWithCr(line) then line[..|line| - 1] else line
  }

  predicate EndsWithCr(s: string) {
    s != "" && s[|s| - 1] == CR
  }

  predicate EndsWithLf(s: string) {
    s != "" && s[|s| - 1] == LF
  }

  function Bullet(fact: string): string {
    "- " + fact
  }

  /** The part of the fact contract that matters here: one non-empty line. */
  predicate SingleLine(fact: string) {
    fact != "" && LF !in fact && CR !in fact
  }

  predicate LineIn(lines: seq<string>, fact: string) {
    exists k :: 0 <= k < |lines| && StripCr(lines[k]) == Bullet(fact)
  }

  predicate BodyContains(body: string, fact: string) {
    LineIn(Lines(body), fact)
  }

  /** The line ending of the last LF in the body: CRLF if a CR stands before it. */
  function InferredSeparator(body: string): string {
    if body == "" then [LF]
    else if body[|body| - 1] == LF then
      if |body| > 1 && body[|body| - 2] == CR then [CR, LF] else [LF]
    else InferredSeparator(body[..|body| - 1])
  }

  function AppendFactToBody(body: string, fact: string): string {
    if body == "" then Bullet(fact) + [LF]
    else if |body| > 1 && body[|body| - 2..] == [CR, LF] then body + Bullet(fact) + [CR, LF]
    else if EndsWithLf(body) then body + Bullet(fact) + [LF]
    else if EndsWithCr(body) then body + Bullet(fact) + [CR]
    else body + InferredSeparator(body) + Bullet(fact) + InferredSeparator(body)
  }

  lemma {:induction false} LinesOfOneLine(s: string)
    requires LF !in s
    ensures Lines(s) == [s]
  {
    if s != "" {
      LinesOfOneLine(s[1..]);
      assert [s[0]] + s[1..] == s;
    }
  }

  lemma {:induction false} LinesSplitAtLf(a: string, b: string)
    ensures Lines(a + [LF] + b) == Lines(a) + Lines(b)
  {
    var s := a + [LF] + b;
    if a == "" {
      assert s[1..] == b;
    } else {
      assert s[1..] == a[1..] + [LF] + b;
      LinesSplitAtLf(a[1..], b);
    }
  }

  /** The lines with more text on the last of them. */
  function WithLast(lines: seq<string>, b: string): seq<string>
    requires lines != []
  {
    lines[..|lines| - 1] + [lines[|lines| - 1] + b]
  }

  lemma {:induction false} LinesCons(c: char, s: string)
    ensures Lines([c] + s) == if c == LF then [""] + Lines(s) else [[c] + Lines(s)[0]] + Lines(s)[1..]
  {
    assert ([c] + s)[1..] == s;
  }

  lemma WithLastBehind(first: string, lines: seq<string>, b: string)
    requires lines != []
    ensures WithLast([first] + lines, b) == [first] + WithLast(lines, b)
  {
  }

  lemma WithLastOnFirst(c: char, lines: seq<string>, b: string)
    requires lines != []
    ensures WithLast([[c] + lines[0]] + lines[1..], b) == [[c] + WithLast(lines, b)[0]] + WithLast(lines, b)[1..]
  {
    if |lines| == 1 {
      assert [c] + lines[0] + b == [c] + (lines[0] + b);
    }
  }

  lemma {:induction false} LinesExtendLast(a: string, b: string)
    requires LF !in b
    ensures Lines(a + b) == WithLast(Lines(a), b)
  {
    if a == "" {
      LinesOfOneLine(b);
      assert a + b == b;
    } else {
      var c, rest := a[0], a[1..];
      assert a == [c] + rest && a + b == [c] + (rest + b);
      LinesExtendLast(rest, b);
      LinesCons(c, rest);
      LinesCons(c, rest + b);
      if c == LF {
        WithLastBehind("", Lines(rest), b);
      } else {
        WithLastOnFirst(c, Lines(rest), b);
      }
    }
  }

  lemma LastLineOf(a: string)
    requires a != "" && !EndsWithLf(a)
    ensures var last := Lines(a)[|Lines(a)| - 1];
            last != "" && last[|last| - 1] == a[|a| - 1]
  {
    var front, end := a[..|a| - 1], [a[|a| - 1]];
    assert a == front + end;
    LinesExtendLast(front, end);
  }

  lemma LineInConcat(x: seq<string>, y: seq<string>, fact: string)
    ensures LineIn(x + y, fact) <==> LineIn(x, fact) || LineIn(y, fact)
  {
    if LineIn(x, fact) {
      var k :| 0 <= k < |x| && StripCr(x[k]) == Bullet(fact);
      assert (x + y)[k] == x[k];
    }
    if LineIn(y, fact) {
      var k :| 0 <= k < |y| && StripCr(y[k]) == Bullet(fact);
      assert (x + y)[|x| + k] == y[k];
    }
  }

  lemma BulletsDiffer(f: string, g: string)
    ensures Bullet(f) == Bullet(g) <==> f == g
  {
    assert Bullet(f)[2..] == f && Bullet(g)[2..] == g;
  }

  lemma OneLineIn(line: string, g: string)
    ensures LineIn([line], g) <==> StripCr(line) == Bullet(g)
  {
    assert [line][0] == line;
  }

  /** The line a bullet makes before its line feed. */
  lemma BulletLine(fact: string, end: string) returns (line: string)
    requires SingleLine(fact) && (end == [LF] || end == [CR, LF])
    ensures Bullet(fact) + end == line + [LF] + "" && LF !in line && StripCr(line) == Bullet(fact)
  {
    if end == [LF] {
      line := Bullet(fact);
    } else {
      line := Bullet(fact) + [CR];
      assert line[..|line| - 1] == Bullet(fact);
    }
  }

  /** The lines a bullet and its line ending contribute. */
  lemma {:induction false} BulletLines(fact: string, g: string, end: string)
    requires SingleLine(fact) && (end == [LF] || end == [CR, LF])
    ensures LineIn(Lines(Bullet(fact) + end), g) <==> g == fact
  {
    BulletsDiffer(fact, g);
    var line := BulletLine(fact, end);
    LinesSplitAtLf(line, "");
    LinesOfOneLine(line);
    LineInConcat([line], [""], g);
    OneLineIn(line, g);
    OneLineIn("", g);
    assert Lines(Bullet(fact) + end) == [line] + [""];
  }

  /** A bullet behind a line feed. */
  lemma {:induction false} BulletAfterLf(front: string, fact: string, end: string, g: string)
    requires SingleLine(fact) && (end == [LF] || end == [CR, LF])
    ensures LineIn(Lines(front + [LF] + (Bullet(fact) + end)), g) <==> LineIn(Lines(front), g) || g == fact
  {
    LinesSplitAtLf(front, Bullet(fact) + end);
    LineInConcat(Lines(front), Lines(Bullet(fact) + end), g);
    BulletLines(fact, g, end);
  }

  /** The empty line behind a final line feed holds no fact. */
  lemma {:induction false} FinalLf(front: string, g: string)
    ensures LineIn(Lines(front + [LF] + ""), g) <==> LineIn(Lines(front), g)
  {
    LinesSplitAtLf(front, "");
    LineInConcat(Lines(front), [""], g);
    OneLineIn("", g);
  }

  lemma AppendAfterLf(body: string, fact: string, g: string)
    requires SingleLine(fact) && EndsWithLf(body)
    ensures BodyContains(AppendFactToBody(body, fact), g) <==> BodyContains(body, g) || g == fact
    ensures !EndsWithCr(AppendFactToBody(body, fact))
  {
    var end := LfAppend(body, fact);
    var front := body[..|body| - 1];
    assert body == front + [LF] + "";
    FinalLf(front, g);
    BulletAfterLf(front, fact, end, g);
  }

  lemma LfAppend(body: string, fact: string) returns (end: string)
    requires EndsWithLf(body)
    ensures end == [LF] || end == [CR, LF]
    ensures AppendFactToBody(body, fact) == body[..|body| - 1] + [LF] + (Bullet(fact) + end)
    ensures !EndsWithCr(AppendFactToBody(body, fact))
  {
    end := if |body| > 1 && body[|body| - 2..] == [CR, LF] then [CR, LF] else [LF];
    assert body == body[..|body| - 1] + [LF];
    assert body + Bullet(fact) + end == body + (Bullet(fact) + end);
  }

  lemma AppendAfterText(body: string, fact: string, g: string)
    requires SingleLine(fact) && body != "" && !EndsWithLf(body) && !EndsWithCr(body)
    ensures BodyContains(AppendFactToBody(body, fact), g) <==> BodyContains(body, g) || g == fact
    ensures !EndsWithCr(AppendFactToBody(body, fact))
  {
    var sep := InferredSeparator(body);
    SeparatorIsLineEnding(body);
    var pad := sep[..|sep| - 1];
    assert sep == pad + [LF];
    assert AppendFactToBody(body, fact) == (body + pad) + [LF] + (Bullet(fact) + sep);
    BulletAfterLf(body + pad, fact, sep, g);
    PaddedLines(body, pad, g);
  }

  /**
   A body that does not end in a carriage return keeps every fact it had and
   gains exactly the appended one.
   */
  lemma AppendAddsExactly(body: string, fact: string, g: string)
    requires SingleLine(fact) && !EndsWithCr(body)
    ensures BodyContains(AppendFactToBody(body, fact), g) <==> BodyContains(body, g) || g == fact
    ensures !EndsWithCr(AppendFactToBody(body, fact))
  {
    if body == "" {
      BulletLines(fact, g, [LF]);
      OneLineIn("", g);
    } else if EndsWithLf(body) {
      AppendAfterLf(body, fact, g);
    } else {
      AppendAfterText(body, fact, g);
    }
  }

  lemma {:induction false} SeparatorIsLineEnding(body: string)
    ensures InferredSeparator(body) == [LF] || InferredSeparator(body) == [CR, LF]
  {
    if body != "" && body[|body| - 1] != LF {
      SeparatorIsLineEnding(body[..|body| - 1]);
    }
  }

  lemma StripPadding(line: string, pad: string)
    requires !EndsWithCr(line) && (pad == "" || pad == [CR])
    ensures StripCr(line + pad) == line
  {
    if pad == "" {
      assert line + pad == line;
    } else {
      assert (line + pad)[..|line + pad| - 1] == line;
    }
  }

  /** Looking at a body through its last line. */
  lemma {:induction false} BodyByLastLine(body: string, more: string, g: string)
    requires LF !in more
    ensures var lines := Lines(body);
            LineIn(Lines(body + more), g) <==>
            LineIn(lines[..|lines| - 1], g) || StripCr(lines[|lines| - 1] + more) == Bullet(g)
  {
    var lines := Lines(body);
    LinesExtendLast(body, more);
    LineInConcat(lines[..|lines| - 1], [lines[|lines| - 1] + more], g);
    OneLineIn(lines[|lines| - 1] + more, g);
  }

  lemma {:induction false} PaddedLines(body: string, pad: string, g: string)
    requires body != "" && !EndsWithLf(body) && !EndsWithCr(body)
    requires pad == "" || pad == [CR]
    ensures LineIn(Lines(body + pad), g) <==> LineIn(Lines(body), g)
  {
    var lines := Lines(body);
    LastLineOf(body);
    StripPadding(lines[|lines| - 1], pad);
    StripPadding(lines[|lines| - 1], "");
    BodyByLastLine(body, pad, g);
    BodyByLastLine(body, "", g);
    assert body + "" == body;
  }

  lemma GluedLine(last: string, fact: string, g: string)
    requires EndsWithCr(last) && CR !in g
    ensures StripCr(last + (Bullet(fact) + [CR])) != Bullet(g)
  {
    var line := last + (Bullet(fact) + [CR]);
    assert line == last + Bullet(fact) + [CR];
    assert StripCr(line) == last + Bullet(fact);
    assert StripCr(line)[|last| - 1] == CR;
    assert CR !in Bullet(g);
  }

  /** After a lone carriage return an append makes no fact findable. */
  lemma AppendAfterLoneCrAddsNothing(body: string, fact: string, g: string)
    requires SingleLine(fact) && SingleLine(g) && EndsWithCr(body)
    ensures BodyContains(AppendFactToBody(body, fact), g) ==> BodyContains(body, g)
    ensures EndsWithCr(AppendFactToBody(body, fact))
  {
    LoneCrAppend(body, fact);
    GluedBody(body, fact, g);
  }

  lemma {:induction false} GluedBody(body: string, fact: string, g: string)
    requires EndsWithCr(body) && LF !in fact && CR !in g
    ensures LineIn(Lines(body + (Bullet(fact) + [CR])), g) ==> LineIn(Lines(body), g)
  {
    LastLineOf(body);
    BodyByLastLine(body, Bullet(fact) + [CR], g);
    GluedLines(Lines(body), fact, g);
  }

  lemma GluedLines(lines: seq<string>, fact: string, g: string)
    requires lines != [] && EndsWithCr(lines[|lines| - 1]) && CR !in g
    ensures StripCr(lines[|lines| - 1] + (Bullet(fact) + [CR])) != Bullet(g)
    ensures LineIn(lines[..|lines| - 1], g) ==> LineIn(lines, g)
  {
    GluedLine(lines[|lines| - 1], fact, g);
    FrontLinesCount(lines, g);
  }

  lemma FrontLinesCount(lines: seq<string>, g: string)
    requires lines != []
    ensures LineIn(lines[..|lines| - 1], g) ==> LineIn(lines, g)
  {
    LineInConcat(lines[..|lines| - 1], [lines[|lines| - 1]], g);
    assert lines == lines[..|lines| - 1] + [lines[|lines| - 1]];
  }

  lemma LoneCrAppend(body: string, fact: string)
    requires EndsWithCr(body)
    ensures AppendFactToBody(body, fact) == body + (Bullet(fact) + [CR])
    ensures EndsWithCr(AppendFactToBody(body, fact))
  {
    assert body + Bullet(fact) + [CR] == body + (Bullet(fact) + [CR]);
    var end := AppendFactToBody(body, fact);
    assert end[|end| - 1] == CR;
  }

  /**
   The lookup finds the fact just appended if and only if the body did not end
   in a lone carriage return.
   */
  lemma AppendedFactIsFound(body: string, fact: string)
    requires SingleLine(fact) && !BodyContains(body, fact)
    ensures BodyContains(AppendFactToBody(body, fact), fact) <==> !EndsWithCr(body)
  {
    if EndsWithCr(body) {
      AppendAfterLoneCrAddsNothing(body, fact, fact);
    } else {
      AppendAddsExactly(body, fact, fact);
    }
  }
}
