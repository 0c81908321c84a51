/** Exact name and alias binding: dictionaries of unique ids built in one pass, looked up by normalized text. */
module Binding {
  import opened Wrappers
  import opened Domain

  /** What the index keeps of one document; name and aliases are normalized. */
  datatype Row = Row(id: string, etype: EntityType, name: string, aliases: seq<string>)

  datatype Index = Index(
    typeName: map<(EntityType, string), seq<string>>,
    typeAlias: map<(EntityType, string), seq<string>>,
    nameAny: map<string, seq<string>>,
    aliasAny: map<string, seq<string>>)

  /** The four questions the dictionaries answer. */
  datatype Query =
    | TypeName(etype: EntityType, text: string)
    | TypeAlias(etype: EntityType, text: string)
    | NameAny(text: string)
    | AliasAny(text: string)

  predicate Hits(q: Query, row: Row) {
    match q
    case TypeName(etype, text) => row.etype == etype && row.name == text
    case TypeAlias(etype, text) => row.etype == etype && text in row.aliases
    case NameAny(text) => row.name == text
    case AliasAny(text) => text in row.aliases
  }

  function AddUnique(ids: seq<string>, id: string): seq<string> {
    if id in ids then ids else ids + [id]
  }

  function AddAllUnique(ids: seq<string>, more: seq<string>): seq<string> {
    if more == [] then ids else AddUnique(AddAllUnique(ids, more[..|more| - 1]), more[|more| - 1])
  }

  /** The linear scan the dictionaries stand for: ids of the rows that answer a question, first occurrence first. */
  function Scan(rows: seq<Row>, q: Query): seq<string> {
    if rows == [] then []
    else
      var before := Scan(rows[..|rows| - 1], q);
      if Hits(q, rows[|rows| - 1]) then AddUnique(before, rows[|rows| - 1].id) else before
  }

  function Bucket<K>(dictionary: map<K, seq<string>>, key: K): seq<string> {
    if key in dictionary then dictionary[key] else []
  }

  function Answer(index: Index, q: Query): seq<string> {
    match q
    case TypeName(etype, text) => Bucket(index.typeName, (etype, text))
    case TypeAlias(etype, text) => Bucket(index.typeAlias, (etype, text))
    case NameAny(text) => Bucket(index.nameAny, text)
    case AliasAny(text) => Bucket(index.aliasAny, text)
  }

  predicate Typed(q: Query) {
    q.TypeName? || q.TypeAlias?
  }

  /** What one more row makes of an answer; a row that only blocks is left out of the typed dictionaries. */
  function Grown(before: seq<string>, q: Query, row: Row, bindable: bool): seq<string> {
    if (bindable || !Typed(q)) && Hits(q, row) then AddUnique(before, row.id) else before
  }

  function AliasesUpTo(row: Row, n: nat): Row
    requires n <= |row.aliases|
  {
    row.(aliases := row.aliases[..n])
  }

  function WithName(index: Index, row: Row, bindable: bool): (r: Index)
    ensures forall q :: Answer(r, q) ==
              if (bindable && q == TypeName(row.etype, row.name)) || q == NameAny(row.name)
              then AddUnique(Answer(index, q), row.id) else Answer(index, q)
  {
    var key := (row.etype, row.name);
    index.(typeName := if bindable then index.typeName[key := AddUnique(Bucket(index.typeName, key), row.id)] else index.typeName,
           nameAny := index.nameAny[row.name := AddUnique(Bucket(index.nameAny, row.name), row.id)])
  }

  function WithAlias(index: Index, row: Row, alias: string, bindable: bool): (r: Index)
    ensures forall q :: Answer(r, q) ==
              if (bindable && q == TypeAlias(row.etype, alias)) || q == AliasAny(alias)
              then AddUnique(Answer(index, q), row.id) else Answer(index, q)
  {
    var key := (row.etype, alias);
    index.(typeAlias := if bindable then index.typeAlias[key := AddUnique(Bucket(index.typeAlias, key), row.id)] else index.typeAlias,
           aliasAny := index.aliasAny[alias := AddUnique(Bucket(index.aliasAny, alias), row.id)])
  }

  predicate AsksAlias(q: Query) {
    q.TypeAlias? || q.AliasAny?
  }

  /** The index after the name and the first `n` aliases of a row. */
  ghost predicate GrownTo(grown: Index, index: Index, row: Row, n: nat, bindable: bool)
    requires n <= |row.aliases|
  {
    && (forall q :: AsksAlias(q) ==> Answer(grown, q) == Grown(Answer(index, q), q, AliasesUpTo(row, n), bindable))
    && (forall q :: !AsksAlias(q) ==> Answer(grown, q) == Grown(Answer(index, q), q, row, bindable))
  }

  lemma OneAliasMore(grown: Index, index: Index, row: Row, n: nat, bindable: bool)
    requires n < |row.aliases| && GrownTo(grown, index, row, n, bindable)
    ensures GrownTo(WithAlias(grown, row, row.aliases[n], bindable), index, row, n + 1, bindable)
  {
    assert row.aliases[..n + 1] == row.aliases[..n] + [row.aliases[n]];
    var after := WithAlias(grown, row, row.aliases[n], bindable);
    forall q | AsksAlias(q)
      ensures Answer(after, q) == Grown(Answer(index, q), q, AliasesUpTo(row, n + 1), bindable)
    {
      assert Answer(grown, q) == Grown(Answer(index, q), q, AliasesUpTo(row, n), bindable);
    }
  }

  method AddRow(index: Index, row: Row, bindable: bool) returns (grown: Index)
    ensures forall q :: Answer(grown, q) == Grown(Answer(index, q), q, row, bindable)
  {
    grown := WithName(index, row, bindable);
    for n := 0 to |row.aliases|
      invariant GrownTo(grown, index, row, n, bindable)
    {
      OneAliasMore(grown, index, row, n, bindable);
      grown := WithAlias(grown, row, row.aliases[n], bindable);
    }
    assert AliasesUpTo(row, |row.aliases|) == row;
    forall q
      ensures Answer(grown, q) == Grown(Answer(index, q), q, row, bindable)
    {
      assert AsksAlias(q) || !AsksAlias(q);
    }
  }

  /** The index answers every question as the linear scan does: typed ones from the bindable rows only. */
  ghost predicate Indexes(index: Index, bindable: seq<Row>, blocking: seq<Row>) {
    forall q :: Answer(index, q) == Scan(if Typed(q) then bindable else bindable + blocking, q)
  }

  method BuildIndex(bindable: seq<Row>, blocking: seq<Row>) returns (index: Index)
    ensures Indexes(index, bindable, blocking)
  {
    index := Index(map[], map[], map[], map[]);
    for k := 0 to |bindable|
      invariant forall q :: Answer(index, q) == Scan(bindable[..k], q)
    {
      assert bindable[..k + 1][..k] == bindable[..k];
      index := AddRow(index, bindable[k], true);
    }
    assert bindable[..|bindable|] == bindable && bindable + blocking[..0] == bindable;
    for k := 0 to |blocking|
      invariant forall q :: Answer(index, q) == Scan(if Typed(q) then bindable else bindable + blocking[..k], q)
    {
      assert (bindable + blocking[..k + 1])[..|bindable| + k] == bindable + blocking[..k];
      index := AddRow(index, blocking[k], false);
    }
    assert blocking[..|blocking|] == blocking;
  }

  // Lookups

  function FirstOf(ids: seq<string>, otherwise: seq<string>): seq<string> {
    if ids != [] then ids else otherwise
  }

  /** Exact name first, then exact alias, both within the type. */
  function Resolve(index: Index, text: string, etype: EntityType): seq<string> {
    FirstOf(Answer(index, TypeName(etype, text)), Answer(index, TypeAlias(etype, text)))
  }

  function ResolveRows(rows: seq<Row>, text: string, etype: EntityType): seq<string> {
    FirstOf(Scan(rows, TypeName(etype, text)), Scan(rows, TypeAlias(etype, text)))
  }

  function MatchRows(rows: seq<Row>, text: string): seq<string> {
    AddAllUnique(AddAllUnique([], Scan(rows, NameAny(text))), Scan(rows, AliasAny(text)))
  }

  /** Any-type matches, for keeping duplicates out. */
  method AnyTypeMatches(index: Index, text: string, ghost bindable: seq<Row>, ghost blocking: seq<Row>)
    returns (matches: seq<string>)
    requires Indexes(index, bindable, blocking)
    ensures matches == MatchRows(bindable + blocking, text)
  {
    matches := [];
    var names, aliases := Answer(index, NameAny(text)), Answer(index, AliasAny(text));
    for k := 0 to |names|
      invariant matches == AddAllUnique([], names[..k])
    {
      assert names[..k + 1][..k] == names[..k];
      matches := AddUnique(matches, names[k]);
    }
    assert names[..|names|] == names;
    for k := 0 to |aliases|
      invariant matches == AddAllUnique(AddAllUnique([], names), aliases[..k])
    {
      assert aliases[..k + 1][..k] == aliases[..k];
      matches := AddUnique(matches, aliases[k]);
    }
    assert aliases[..|aliases|] == aliases;
  }

  // What the scans mean

  predicate NoRepeats(ids: seq<string>) {
    forall i, j :: 0 <= i < j < |ids| ==> ids[i] != ids[j]
  }

  ghost predicate HitBy(rows: seq<Row>, q: Query, id: string) {
    exists k :: 0 <= k < |rows| && Hits(q, rows[k]) && rows[k].id == id
  }

  /** A scan lists exactly the ids of the answering rows, each once. */
  lemma {:induction false} ScanIsExact(rows: seq<Row>, q: Query)
    ensures NoRepeats(Scan(rows, q))
    ensures forall id :: id in Scan(rows, q) <==> HitBy(rows, q, id)
  {
    if rows != [] {
      var front, last := rows[..|rows| - 1], rows[|rows| - 1];
      ScanIsExact(front, q);
      forall id
        ensures HitBy(rows, q, id) <==> HitBy(front, q, id) || (Hits(q, last) && last.id == id)
      {
        if HitBy(front, q, id) {
          var k :| 0 <= k < |front| && Hits(q, front[k]) && front[k].id == id;
          assert Hits(q, rows[k]);
        }
        if HitBy(rows, q, id) {
          var k :| 0 <= k < |rows| && Hits(q, rows[k]) && rows[k].id == id;
          assert k < |front| ==> Hits(q, front[k]);
        }
      }
    }
  }

  lemma {:induction false} AddAllIsExact(ids: seq<string>, more: seq<string>)
    requires NoRepeats(ids)
    ensures NoRepeats(AddAllUnique(ids, more))
    ensures forall id :: id in AddAllUnique(ids, more) <==> id in ids || id in more
  {
    if more != [] {
      AddAllIsExact(ids, more[..|more| - 1]);
      assert more == more[..|more| - 1] + [more[|more| - 1]];
    }
  }

  /** Nothing matches exactly when no row carries the text as its name or an alias. */
  lemma MatchesAreExact(rows: seq<Row>, text: string)
    ensures NoRepeats(MatchRows(rows, text))
    ensures forall id :: id in MatchRows(rows, text) <==> HitBy(rows, NameAny(text), id) || HitBy(rows, AliasAny(text), id)
    ensures MatchRows(rows, text) == [] <==> forall k :: 0 <= k < |rows| ==> rows[k].name != text && text !in rows[k].aliases
  {
    ScanIsExact(rows, NameAny(text));
    ScanIsExact(rows, AliasAny(text));
    AddAllIsExact([], Scan(rows, NameAny(text)));
    AddAllIsExact(AddAllUnique([], Scan(rows, NameAny(text))), Scan(rows, AliasAny(text)));
    var found := MatchRows(rows, text);
    if found != [] {
      assert found[0] in found;
    }
    forall k | 0 <= k < |rows| && (rows[k].name == text || text in rows[k].aliases)
      ensures rows[k].id in found
    {
      assert Hits(NameAny(text), rows[k]) ==> HitBy(rows, NameAny(text), rows[k].id);
      assert Hits(AliasAny(text), rows[k]) ==> HitBy(rows, AliasAny(text), rows[k].id);
    }
  }

  function Sole(ids: seq<string>): Option<string> {
    if |ids| == 1 then Some(ids[0]) else None
  }

  /** The id all answering rows share, when there is exactly one. */
  ghost predicate OnlyHit(rows: seq<Row>, q: Query, id: string) {
    HitBy(rows, q, id) && forall other :: HitBy(rows, q, other) ==> other == id
  }

  lemma {:induction false} SoleScan(rows: seq<Row>, q: Query, id: string)
    ensures Sole(Scan(rows, q)) == Some(id) <==> OnlyHit(rows, q, id)
    ensures Scan(rows, q) == [] <==> forall other :: !HitBy(rows, q, other)
  {
    ScanIsExact(rows, q);
    var ids := Scan(rows, q);
    if ids != [] {
      assert ids[0] in ids;
    }
    if |ids| > 1 {
      assert ids[1] in ids && ids[0] != ids[1];
    }
    assert OnlyHit(rows, q, id) ==> id in ids;
  }

  /** A reference binds to `id` exactly when `id` alone has the name, or no one has it and `id` alone has the alias. */
  lemma ResolvesIff(rows: seq<Row>, text: string, etype: EntityType, id: string)
    ensures Sole(ResolveRows(rows, text, etype)) == Some(id) <==>
            || OnlyHit(rows, TypeName(etype, text), id)
            || ((forall other :: !HitBy(rows, TypeName(etype, text), other)) && OnlyHit(rows, TypeAlias(etype, text), id))
  {
    SoleScan(rows, TypeName(etype, text), id);
    SoleScan(rows, TypeAlias(etype, text), id);
  }
}
