/** The appends among proposed operations. */
module Proposed {
  import opened Domain

  predicate AppendsTo(op: Operation, id: string) {
    op.AppendFact? && op.entityId == id
  }

  ghost predicate AlreadyProposed(ops: seq<Operation>, id: string, fact: string) {
    exists n :: 0 <= n < |ops| && AppendsTo(ops[n], id) && ops[n].fact == fact
  }

  function CountAppends(ops: seq<Operation>, id: string): nat {
    if ops == [] then 0 else CountAppends(ops[..|ops| - 1], id) + (if AppendsTo(ops[|ops| - 1], id) then 1 else 0)
  }

  lemma {:induction false} CountedSnoc(ops: seq<Operation>, op: Operation, id: string, fact: string)
    ensures AlreadyProposed(ops + [op], id, fact) <==> AlreadyProposed(ops, id, fact) || (AppendsTo(op, id) && op.fact == fact)
    ensures CountAppends(ops + [op], id) == CountAppends(ops, id) + (if AppendsTo(op, id) then 1 else 0)
  {
    var more := ops + [op];
    assert more[..|ops|] == ops && more[|ops|] == op;
    if AlreadyProposed(ops, id, fact) {
      var n :| 0 <= n < |ops| && AppendsTo(ops[n], id) && ops[n].fact == fact;
      assert AppendsTo(more[n], id) && more[n].fact == fact;
    }
  }

  lemma HeadIsMember<T>(s: seq<T>)
    ensures s != [] ==> s[0] in s
  {
  }
}
