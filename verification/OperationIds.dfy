/** The operation-id format `<changeset_id>:<index>`; the id may itself contain colons, so the parser splits at the last one. */
module OperationIds {
  import opened Wrappers

  const SEPARATOR: char := ':'

  datatype Parsed = Parsed(changesetId: string, index: nat)

  predicate IsDigit(c: char) {
    '0' <= c <= '9'
  }

  predicate AllDigits(s: string) {
    forall k :: 0 <= k < |s| ==> IsDigit(s[k])
  }

  function DigitChar(d: nat): char
    requires d < 10
  {
    '0' + d as char
  }

  function DigitValue(c: char): nat
    requires IsDigit(c)
  {
    (c - '0') as nat
  }

  /** The canonical decimal form: no sign, no leading zero. */
  function Decimal(n: nat): string {
    if n < 10 then [DigitChar(n)] else Decimal(n / 10) + [DigitChar(n % 10)]
  }

  /** The value of a string of ASCII digits. */
  function Value(s: string): nat
    requires AllDigits(s)
  {
    if s == "" then 0 else 10 * Value(s[..|s| - 1]) + DigitValue(s[|s| - 1])
  }

  lemma {:induction false} DecimalIsDigits(n: nat)
    ensures AllDigits(Decimal(n)) && Decimal(n) != ""
    ensures Value(Decimal(n)) == n
  {
    if n >= 10 {
      DecimalIsDigits(n / 10);
      var s := Decimal(n);
      assert s[..|s| - 1] == Decimal(n / 10);
    } else {
      var s := Decimal(n);
      assert s[..|s| - 1] == "";
    }
  }

  function Format(changesetId: string, index: nat): string {
    changesetId + [SEPARATOR] + Decimal(index)
  }

  /** The position of the last `c` in `s`, if any. */
  function LastIndexOf(s: string, c: char): (r: Option<nat>)
    ensures r.None? <==> c !in s
    ensures r.Some? ==> r.value < |s| && s[r.value] == c && c !in s[r.value + 1..]
  {
    if s == "" then None
    else if s[|s| - 1] == c then Some(|s| - 1)
    else
      assert s == s[..|s| - 1] + [s[|s| - 1]];
      var r := LastIndexOf(s[..|s| - 1], c);
      assert r.Some? ==> s[r.value + 1..] == s[..|s| - 1][r.value + 1..] + [s[|s| - 1]];
      r
  }

  function Parse(operationId: string): Option<Parsed> {
    match LastIndexOf(operationId, SEPARATOR)
    case None => None
    case Some(cut) =>
      var changesetId, suffix := operationId[..cut], operationId[cut + 1..];
      if changesetId == "" || suffix == "" || !AllDigits(suffix) then None
      else
        var index := Value(suffix);
        if Decimal(index) != suffix then None else Some(Parsed(changesetId, index))
  }

  /** Every formatted id is read back exactly, colons in the ChangeSet id included. */
  lemma ParseFormat(changesetId: string, index: nat)
    requires changesetId != ""
    ensures Parse(Format(changesetId, index)) == Some(Parsed(changesetId, index))
  {
    DecimalIsDigits(index);
    var s := Format(changesetId, index);
    assert s[|changesetId|] == SEPARATOR;
    assert s[..|changesetId|] == changesetId && s[|changesetId| + 1..] == Decimal(index);
    assert LastIndexOf(s, SEPARATOR) == Some(|changesetId|);
  }

  /** Nothing but a formatted id is accepted: the grammar has one spelling per pair. */
  lemma FormatParse(operationId: string)
    requires Parse(operationId).Some?
    ensures var p := Parse(operationId).value;
            p.changesetId != "" && Format(p.changesetId, p.index) == operationId
  {
    var cut := LastIndexOf(operationId, SEPARATOR).value;
    assert operationId == operationId[..cut] + [SEPARATOR] + operationId[cut + 1..];
  }

  /** Two ChangeSets never share an operation id, even when one id is a prefix of the other. */
  lemma FormatInjective(a: string, i: nat, b: string, j: nat)
    ensures Format(a, i) == Format(b, j) ==> a == b && i == j
  {
    if Format(a, i) == Format(b, j) {
      SameSplit(a, Decimal(i), b, Decimal(j)) by {
        DecimalIsDigits(i);
        DecimalIsDigits(j);
      }
      DecimalIsDigits(i);
      DecimalIsDigits(j);
    }
  }

  lemma SameSplit(a: string, x: string, b: string, y: string)
    requires a + [SEPARATOR] + x == b + [SEPARATOR] + y
    requires AllDigits(x) && AllDigits(y)
    ensures a == b && x == y
  {
    var s := a + [SEPARATOR] + x;
    assert s[|a|] == SEPARATOR && s[|b|] == SEPARATOR;
    assert |a| == |b|;
    assert a == s[..|a|] && b == s[..|b|] && x == s[|a| + 1..] && y == s[|b| + 1..];
  }
}
