/** What an alteration of the profile schema makes of the identifiers of the workspace: those whose column is renamed
    follow it, those whose column is dropped are gone (core/core.go:1683-1709). */
module IdentifierRenaming {
  import opened Prelude
  import opened Strings
  import opened Schemas
  import opened SchemaCoverage

  datatype AlterOperation =
    | AddColumn(column: string)
    | DropColumn(column: string)
    | RenameColumn(column: string, newColumn: string)

  /** The column of a property path: its dots become underscores. */
  function Column(path: string): string { seq(|path|, i requires 0 <= i < |path| => if path[i] == '.' then '_' else path[i]) }

  predicate SuitableAsIdentifier(t: Type) {
    t.StringType? || t.IntType? || t.UUIDType? || t.IPType? || (t.DecimalType? && t.scale == 0)
  }

  /** What can be an identifier: text, integers, UUIDs, addresses, and decimals without a fraction. */
  lemma SuitableTypesAre(t: Type)
    ensures SuitableAsIdentifier(t) <==>
      match t
      case StringType(_) => true
      case IntType(_) => true
      case UUIDType => true
      case IPType => true
      case DecimalType(scale) => scale == 0
      case _ => false
  {
  }

  /** The path leads to a property that can be an identifier. */
  predicate SuitablePath(schema: seq<Property>, path: string) {
    ByPath(schema, Split(path)).Some? && SuitableAsIdentifier(ByPath(schema, Split(path)).value.typ)
  }

  /** The paths by their columns, of the properties that can be identifiers; later ones win. */
  function PathByColumn(visits: seq<Visit>): map<string, string> {
    if visits == [] then map[]
    else
      var rest, v := PathByColumn(visits[..|visits| - 1]), visits[|visits| - 1];
      if SuitableAsIdentifier(v.property.typ) then rest[Column(v.path) := v.path] else rest
  }

  lemma {:induction false} PathsByColumnAreVisited(visits: seq<Visit>, column: string)
    requires column in PathByColumn(visits)
    ensures exists v :: v in visits && SuitableAsIdentifier(v.property.typ)
                        && v.path == PathByColumn(visits)[column] && Column(v.path) == column
  {
    var init, last := visits[..|visits| - 1], visits[|visits| - 1];
    if SuitableAsIdentifier(last.property.typ) && Column(last.path) == column {
      assert last in visits;
    } else {
      PathsByColumnAreVisited(init, column);
      var v :| v in init && SuitableAsIdentifier(v.property.typ) && v.path == PathByColumn(init)[column]
               && Column(v.path) == column;
      assert v in visits;
    }
  }

  /** The path of a column is that of the last visit to it. */
  lemma {:induction false} LastVisitWins(visits: seq<Visit>, k: nat)
    requires k < |visits| && SuitableAsIdentifier(visits[k].property.typ)
    requires forall j :: k < j < |visits| && SuitableAsIdentifier(visits[j].property.typ) ==> Column(visits[j].path) != Column(visits[k].path)
    ensures Column(visits[k].path) in PathByColumn(visits) && PathByColumn(visits)[Column(visits[k].path)] == visits[k].path
  {
    if k < |visits| - 1 { LastVisitWins(visits[..|visits| - 1], k); }
  }

  /** The operation on a column: the first one that does not add it. */
  function OperationOn(operations: seq<AlterOperation>, column: string): (operation: Option<AlterOperation>)
    ensures operation.Some? ==> operation.value in operations && !operation.value.AddColumn?
    ensures operation.Some? ==> operation.value.column == column
  {
    if operations == [] then None
    else if !operations[0].AddColumn? && operations[0].column == column then Some(operations[0])
    else OperationOn(operations[1..], column)
  }

  /** What becomes of an identifier: itself, its new path, or nothing. A new column that no path has gives the empty
      path, as looking up a key that is not there does. */
  function RenamedOne(identifier: string, operations: seq<AlterOperation>, paths: map<string, string>): seq<string> {
    match OperationOn(operations, Column(identifier))
    case None => [identifier]
    case Some(operation) =>
      if operation.RenameColumn? then [if operation.newColumn in paths then paths[operation.newColumn] else ""] else []
  }

  function Renamed(identifiers: seq<string>, operations: seq<AlterOperation>, paths: map<string, string>): seq<string> {
    if identifiers == [] then []
    else
      Renamed(identifiers[..|identifiers| - 1], operations, paths)
      + RenamedOne(identifiers[|identifiers| - 1], operations, paths)
  }

  function RenamedIn(schema: seq<Property>, operations: seq<AlterOperation>, identifiers: seq<string>): seq<string> {
    Renamed(identifiers, operations, PathByColumn(Preorder(schema, "")))
  }

  /** The operations lead from a schema with these identifiers to the new one: an identifier that they leave alone
      can be one in the new schema, and a column that they rename one to belongs to a property that can. */
  ghost predicate LeadsTo(identifiers: seq<string>, operations: seq<AlterOperation>, schema: seq<Property>) {
    forall k :: 0 <= k < |identifiers| ==>
      match OperationOn(operations, Column(identifiers[k]))
      case None => SuitablePath(schema, identifiers[k])
      case Some(operation) =>
        operation.RenameColumn? ==> operation.newColumn in PathByColumn(Preorder(schema, ""))
  }

  /** Then every identifier after it leads to a property of the new schema that can be one. */
  lemma {:induction false} RenamedAreSuitable(identifiers: seq<string>, operations: seq<AlterOperation>,
                                             schema: seq<Property>)
    requires WellNamed(schema) && LeadsTo(identifiers, operations, schema)
    ensures forall path :: path in RenamedIn(schema, operations, identifiers) ==> SuitablePath(schema, path)
  {
    if identifiers != [] {
      var init, last := identifiers[..|identifiers| - 1], identifiers[|identifiers| - 1];
      forall k | 0 <= k < |init| ensures init[k] == identifiers[k] {}
      RenamedAreSuitable(init, operations, schema);
      var visits := Preorder(schema, "");
      match OperationOn(operations, Column(last))
      case None =>
      case Some(operation) =>
        if operation.RenameColumn? {
          PathsByColumnAreVisited(visits, operation.newColumn);
          var v :| v in visits && SuitableAsIdentifier(v.property.typ) && v.path == PathByColumn(visits)[operation.newColumn];
          assert v == Visit(v.path, v.property);
          WalkIsTheSchema(schema, v.path, v.property);
        }
    }
  }

  // ---- What becomes of each identifier -----------------------------------------------------------------------------

  /** The first operation on the column that does not add it. */
  predicate FirstOn(operations: seq<AlterOperation>, column: string, k: int) {
    && 0 <= k < |operations| && operations[k].column == column && !operations[k].AddColumn?
    && forall j :: 0 <= j < k && operations[j].column == column ==> operations[j].AddColumn?
  }

  lemma {:induction false} OperationIsFirst(operations: seq<AlterOperation>, column: string, k: int)
    requires FirstOn(operations, column, k)
    ensures OperationOn(operations, column) == Some(operations[k])
  {
    if k > 0 {
      assert forall j :: 0 <= j < k - 1 ==> operations[1..][j] == operations[j + 1];
      OperationIsFirst(operations[1..], column, k - 1);
    }
  }

  /** The column of a path, letter by letter. */
  lemma ColumnIs(path: string)
    ensures |Column(path)| == |path|
    ensures forall i :: 0 <= i < |path| ==> Column(path)[i] == if path[i] == '.' then '_' else path[i]
  {
  }

  ghost predicate Stays(operations: seq<AlterOperation>, identifier: string) {
    !exists k :: FirstOn(operations, Column(identifier), k)
  }

  /** The identifier is renamed: the first operation on its column says to what column. */
  ghost predicate MovesTo(operations: seq<AlterOperation>, identifier: string, column: string) {
    exists k :: FirstOn(operations, Column(identifier), k) && operations[k] == RenameColumn(Column(identifier), column)
  }

  ghost predicate Remains(operations: seq<AlterOperation>, identifier: string) {
    Stays(operations, identifier) || exists column :: MovesTo(operations, identifier, column)
  }

  /** What becomes of one identifier: it stays, it moves with its column, or it is gone. */
  lemma OneIsRenamed(identifier: string, operations: seq<AlterOperation>, paths: map<string, string>)
    ensures Stays(operations, identifier) ==> Renamed([identifier], operations, paths) == [identifier]
    ensures forall column :: MovesTo(operations, identifier, column) ==>
      Renamed([identifier], operations, paths) == [if column in paths then paths[column] else ""]
    ensures !Remains(operations, identifier) ==> Renamed([identifier], operations, paths) == []
  {
    assert [identifier][..0] == [] && Renamed([], operations, paths) == [];
    var column := Column(identifier);
    forall k | FirstOn(operations, column, k) ensures OperationOn(operations, column) == Some(operations[k]) {
      OperationIsFirst(operations, column, k);
    }
    if OperationOn(operations, column).Some? {
      SomeIsFirst(operations, column);
      var k :| FirstOn(operations, column, k);
      if operations[k].RenameColumn? { assert MovesTo(operations, identifier, operations[k].newColumn); }
    }
  }

  lemma {:induction false} SomeIsFirst(operations: seq<AlterOperation>, column: string)
    requires OperationOn(operations, column).Some?
    ensures exists k :: FirstOn(operations, column, k)
  {
    if operations[0].column == column && !operations[0].AddColumn? {
      assert FirstOn(operations, column, 0);
    } else {
      SomeIsFirst(operations[1..], column);
      var k :| FirstOn(operations[1..], column, k);
      assert forall j :: 0 <= j < |operations[1..]| ==> operations[1..][j] == operations[j + 1];
      assert operations[k + 1] == operations[1..][k];
      assert FirstOn(operations, column, k + 1);
    }
  }

  /** The identifiers after the operations are exactly those, in order. */
  /** The identifiers are renamed one by one, in their order. */
  lemma {:induction false} RenamedInOrder(a: seq<string>, b: seq<string>, operations: seq<AlterOperation>,
                                          paths: map<string, string>)
    ensures Renamed(a + b, operations, paths) == Renamed(a, operations, paths) + Renamed(b, operations, paths)
  {
    if b == [] {
      assert a + b == a;
    } else {
      assert (a + b)[..|a + b| - 1] == a + b[..|b| - 1];
      RenamedInOrder(a, b[..|b| - 1], operations, paths);
    }
  }

  // ---- The loops -----------------------------------------------------------------------------------------------------

  method ColumnPaths(schema: seq<Property>) returns (paths: map<string, string>)
    ensures paths == PathByColumn(Preorder(schema, ""))
  {
    var visits := WalkObjects(schema);
    paths := map[];
    for i := 0 to |visits|
      invariant paths == PathByColumn(visits[..i])
    {
      assert visits[..i + 1][..i] == visits[..i];
      if SuitableAsIdentifier(visits[i].property.typ) {
        paths := paths[Column(visits[i].path) := visits[i].path];
      }
    }
    assert visits[..|visits|] == visits;
  }

  /** Goes through the operations until one is about the column. */
  method FindOperation(operations: seq<AlterOperation>, column: string) returns (j: nat)
    ensures j <= |operations|
    ensures OperationOn(operations, column) == if j < |operations| then Some(operations[j]) else None
  {
    assert operations[0..] == operations;
    for i := 0 to |operations|
      invariant OperationOn(operations, column) == OperationOn(operations[i..], column)
    {
      if !operations[i].AddColumn? && operations[i].column == column {
        return i;
      }
      assert operations[i..][1..] == operations[i + 1..];
    }
    return |operations|;
  }

  /** For each identifier looks for the operation on its column. */
  method RenameIdentifiers(identifiers: seq<string>, operations: seq<AlterOperation>, schema: seq<Property>)
    returns (renamed: seq<string>)
    ensures renamed == RenamedIn(schema, operations, identifiers)
  {
    var paths := ColumnPaths(schema);
    renamed := [];
    for i := 0 to |identifiers|
      invariant renamed == Renamed(identifiers[..i], operations, paths)
    {
      assert identifiers[..i + 1][..i] == identifiers[..i];
      var j := FindOperation(operations, Column(identifiers[i]));
      if j == |operations| {
        renamed := renamed + [identifiers[i]];
      } else if operations[j].RenameColumn? {
        var c := operations[j].newColumn;
        renamed := renamed + [if c in paths then paths[c] else ""];
      }
    }
    assert identifiers[..|identifiers|] == identifiers;
  }
}
