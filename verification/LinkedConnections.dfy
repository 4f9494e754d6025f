/** The link between source and destination connections, which each of the two rows stores as a sorted list
    (core/connection.go:705-725, core/connection.go:1101-1153, core/connection.go:1851-1906,
    core/connection.go:2291-2350, core/workspace.go:668-757). */
module LinkedConnections {
  import opened Prelude
  import opened Strings

  /** What never changes in a connection; `events` says that its connector supports events in this role. */
  datatype Kind = Kind(workspace: string, source: bool, events: bool)

  /** `kinds` has every connection there has ever been, `rows` the linked connections of those that exist; none
      is the null list. A node decides on what it has seen, which may no longer exist. */
  datatype State = State(kinds: map<string, Kind>, rows: map<string, Option<seq<string>>>)

  const INITIAL := State(map[], map[])

  /** A transaction. `stale` is what the node believes about the link, before it reads the rows. */
  datatype Step =
    | Create(id: string, kind: Kind, links: Option<seq<string>>)
    | Link(src: string, dst: string, stale: bool)
    | Unlink(src: string, dst: string, stale: bool)
    | Delete(id: string)

  function List(links: Option<seq<string>>): seq<string> { if links.Some? then links.value else [] }

  /** The list with an element more, in order and without a repetition. */
  function Insert(ids: seq<string>, id: string): (r: seq<string>)
    ensures forall x :: x in r <==> x in ids || x == id
  {
    if ids == [] then [id]
    else if ids[0] == id then ids
    else if Less(id, ids[0]) then [id] + ids
    else [ids[0]] + Insert(ids[1..], id)
  }

  function Without(ids: seq<string>, id: string): (r: seq<string>)
    ensures forall x :: x in r <==> x in ids && x != id
  {
    if ids == [] then []
    else if ids[0] == id then Without(ids[1..], id)
    else [ids[0]] + Without(ids[1..], id)
  }

  /** An emptied list becomes null. */
  function ArrayRemove(links: Option<seq<string>>, id: string): Option<seq<string>> {
    if links.None? || Without(links.value, id) == [] then None else Some(Without(links.value, id))
  }

  function Sort(ids: seq<string>): (r: seq<string>)
    ensures forall x :: x in r <==> x in ids
  {
    if ids == [] then []
    else
      assert ids == ids[..|ids| - 1] + [ids[|ids| - 1]];
      Insert(Sort(ids[..|ids| - 1]), ids[|ids| - 1])
  }

  /** One can be linked to the other. */
  predicate Linkable(a: Kind, b: Kind) { a.workspace == b.workspace && a.source != b.source && a.events && b.events }

  /** The links of a new connection that are accepted, for what the node has seen. Where the connector does not
      support events, no list is. */
  ghost predicate ValidLinks(s: State, kind: Kind, links: Option<seq<string>>) {
    && (links.Some? ==> kind.events && Distinct(links.value))
    && forall id :: id in List(links) ==> id in s.kinds && Linkable(kind, s.kinds[id])
  }

  /** The pair is a source and a destination that support events. */
  predicate ValidPair(s: State, src: string, dst: string) {
    && src in s.kinds && dst in s.kinds && s.kinds[src].source && Linkable(s.kinds[src], s.kinds[dst])
  }

  /** Adds an element to the lists of all these rows. */
  function AddTo(rows: map<string, Option<seq<string>>>, ids: seq<string>, id: string): map<string, Option<seq<string>>> {
    map x | x in rows :: if x in ids then Some(Insert(List(rows[x]), id)) else rows[x]
  }

  ghost function Apply(s: State, step: Step): State {
    match step
    case Create(id, kind, links) =>
      if id in s.kinds || !ValidLinks(s, kind, links) || exists x :: x in List(links) && x !in s.rows then s
      else
        var stored := if kind.events then Some(Sort(List(links))) else None;
        State(s.kinds[id := kind], AddTo(s.rows[id := stored], List(links), id))
    case Link(src, dst, stale) =>
      if stale || !ValidPair(s, src, dst) || src !in s.rows || dst in List(s.rows[src]) || dst !in s.rows then s
      else s.(rows := s.rows[src := Some(Insert(List(s.rows[src]), dst))][dst := Some(Insert(List(s.rows[dst]), src))])
    case Unlink(src, dst, stale) =>
      if stale || !ValidPair(s, src, dst) || src !in s.rows || dst !in List(s.rows[src]) then s
      else
        var rows := s.rows[src := ArrayRemove(s.rows[src], dst)];
        s.(rows := if dst in rows then rows[dst := ArrayRemove(rows[dst], src)] else rows)
    case Delete(id) =>
      if id !in s.rows || id !in s.kinds then s
      else
        s.(rows := map x | x in s.rows && x != id ::
          if x in s.kinds && s.kinds[x].workspace == s.kinds[id].workspace && s.kinds[x].source != s.kinds[id].source
             && id in List(s.rows[x])
          then ArrayRemove(s.rows[x], id) else s.rows[x])
  }

  ghost function Run(steps: seq<Step>): State {
    if steps == [] then INITIAL else Apply(Run(steps[..|steps| - 1]), steps[|steps| - 1])
  }

  // ---- Order -----------------------------------------------------------------------------------------------------

  lemma {:induction false} InsertSorted(ids: seq<string>, id: string)
    requires Sorted(ids)
    ensures Sorted(Insert(ids, id))
  {
    if ids != [] && ids[0] != id {
      LessTotal(id, ids[0]);
      if Less(id, ids[0]) {
        forall j | 0 <= j < |ids| ensures Less(id, ids[j]) { if j > 0 { LessTransitive(id, ids[0], ids[j]); } }
      } else {
        InsertSorted(ids[1..], id);
        var rest := Insert(ids[1..], id);
        forall j | 0 <= j < |rest| ensures Less(ids[0], rest[j]) {
          assert rest[j] in rest;
          if rest[j] != id {
            var k :| 0 <= k < |ids[1..]| && ids[1..][k] == rest[j];
            assert ids[1..][k] == ids[k + 1];
          }
        }
        PrependSorted(ids[0], rest);
      }
    }
  }

  lemma PrependSorted(id: string, rest: seq<string>)
    requires Sorted(rest) && forall j :: 0 <= j < |rest| ==> Less(id, rest[j])
    ensures Sorted([id] + rest)
  {
  }

  lemma {:induction false} WithoutSorted(ids: seq<string>, id: string)
    requires Sorted(ids)
    ensures Sorted(Without(ids, id))
  {
    if ids != [] {
      WithoutSorted(ids[1..], id);
      var rest := Without(ids[1..], id);
      forall j | 0 <= j < |rest| ensures Less(ids[0], rest[j]) {
        assert rest[j] in rest;
        var k :| 0 <= k < |ids[1..]| && ids[1..][k] == rest[j];
        assert ids[1..][k] == ids[k + 1];
      }
      if ids[0] != id { PrependSorted(ids[0], rest); }
    }
  }

  lemma {:induction false} SortSorted(ids: seq<string>)
    ensures Sorted(Sort(ids))
  {
    if ids != [] {
      SortSorted(ids[..|ids| - 1]);
      InsertSorted(Sort(ids[..|ids| - 1]), ids[|ids| - 1]);
    }
  }

  lemma {:induction false} WithoutAbsent(ids: seq<string>, id: string)
    requires id !in ids
    ensures Without(ids, id) == ids
  {
    if ids != [] {
      WithoutAbsent(ids[1..], id);
      assert ids == [ids[0]] + ids[1..];
    }
  }

  lemma {:induction false} WithoutInserted(ids: seq<string>, id: string)
    requires id !in ids
    ensures Without(Insert(ids, id), id) == ids
  {
    if ids != [] {
      WithoutAbsent(ids, id);
      if Less(id, ids[0]) {
        assert ([id] + ids)[1..] == ids;
      } else {
        var rest := Insert(ids[1..], id);
        WithoutInserted(ids[1..], id);
        assert ([ids[0]] + rest)[1..] == rest;
        assert ids == [ids[0]] + ids[1..];
      }
    }
  }

  // ---- The relation ----------------------------------------------------------------------------------------------

  predicate Linked(s: State, a: string, b: string) { a in s.rows && b in List(s.rows[a]) }

  /** The link is symmetric, leads to connections that exist, with opposite roles and in one workspace, and every
      list is sorted, without repetitions. */
  ghost predicate Inv(s: State) {
    && s.rows.Keys <= s.kinds.Keys
    && (forall a, b :: Linked(s, a, b) ==> Linked(s, b, a) && Linkable(s.kinds[a], s.kinds[b]))
    && (forall a :: a in s.rows ==> Sorted(List(s.rows[a])))
  }

  predicate Pair(a: string, b: string, x: string, y: string) { (a == x && b == y) || (a == y && b == x) }

  /** A link of connections that both exist adds the pair, in both directions, and nothing else; whatever else they are
      linked with. */
  lemma LinkAdds(s: State, src: string, dst: string, a: string, b: string)
    requires Inv(s) && ValidPair(s, src, dst)
    ensures Linked(Apply(s, Link(src, dst, false)), a, b) <==>
      Linked(s, a, b) || (src in s.rows && dst in s.rows && Pair(a, b, src, dst))
  {
    if src in s.rows && dst in List(s.rows[src]) { assert Linked(s, src, dst); }
  }

  /** An unlink removes the pair, and nothing else. */
  lemma UnlinkRemoves(s: State, src: string, dst: string, a: string, b: string)
    requires Inv(s) && ValidPair(s, src, dst)
    ensures Linked(Apply(s, Unlink(src, dst, false)), a, b) <==> Linked(s, a, b) && !Pair(a, b, src, dst)
  {
    assert Linked(s, src, dst) <==> src in s.rows && dst in List(s.rows[src]);
    if Linked(s, src, dst) { assert Linked(s, dst, src); }
    if Linked(s, dst, src) { assert Linked(s, src, dst); }
  }

  /** Neither creates or deletes a connection; and one that the node takes for done, or that is not of a source and a
      destination, changes nothing. */
  lemma RowsStay(s: State, src: string, dst: string, stale: bool)
    ensures Apply(s, Link(src, dst, stale)).kinds == s.kinds && Apply(s, Link(src, dst, stale)).rows.Keys == s.rows.Keys
    ensures Apply(s, Unlink(src, dst, stale)).kinds == s.kinds && Apply(s, Unlink(src, dst, stale)).rows.Keys == s.rows.Keys
    ensures stale || !ValidPair(s, src, dst) ==> Apply(s, Link(src, dst, stale)) == s && Apply(s, Unlink(src, dst, stale)) == s
    ensures forall x :: x in s.rows && x != src && x != dst ==>
      Apply(s, Link(src, dst, stale)).rows[x] == s.rows[x] && Apply(s, Unlink(src, dst, stale)).rows[x] == s.rows[x]
  {
  }

  lemma DeleteRemoves(s: State, id: string, a: string, b: string)
    requires Inv(s) && id in s.rows
    ensures Linked(Apply(s, Delete(id)), a, b) <==> Linked(s, a, b) && a != id && b != id
  {
    if Linked(s, a, id) { assert Linkable(s.kinds[a], s.kinds[id]); }
  }

  lemma DeleteTakes(s: State, id: string)
    requires Inv(s) && id in s.rows
    ensures Apply(s, Delete(id)).kinds == s.kinds && Apply(s, Delete(id)).rows.Keys == s.rows.Keys - {id}
  {
  }

  /** A connection can be created: its links are valid, and still exist. */
  ghost predicate Creatable(s: State, id: string, kind: Kind, links: Option<seq<string>>) {
    && id !in s.kinds && ValidLinks(s, kind, links)
    && forall x :: x in List(links) ==> x in s.rows
  }

  /** Exactly then it is, linked with each of its links and with nothing else; its list is null if its connector does not
      support events. */
  lemma CreateAdds(s: State, id: string, kind: Kind, links: Option<seq<string>>, a: string, b: string)
    requires Inv(s) && Creatable(s, id, kind, links)
    ensures Linked(Apply(s, Create(id, kind, links)), a, b) <==>
      Linked(s, a, b) || (a == id && b in List(links)) || (b == id && a in List(links))
  {
    assert Linked(s, a, id) ==> Linked(s, id, a);
  }

  lemma CreateInserts(s: State, id: string, kind: Kind, links: Option<seq<string>>)
    requires Inv(s)
    ensures
      var t := Apply(s, Create(id, kind, links));
      if Creatable(s, id, kind, links) then
        && t.kinds == s.kinds[id := kind] && t.rows.Keys == s.rows.Keys + {id} && (t.rows[id].Some? <==> kind.events)
        && forall x :: x in s.rows && x !in List(links) ==> t.rows[x] == s.rows[x]
      else t == s
  {
  }

  lemma CreateKeeps(s: State, id: string, kind: Kind, links: Option<seq<string>>)
    requires Inv(s)
    ensures Inv(Apply(s, Create(id, kind, links)))
  {
    var t := Apply(s, Create(id, kind, links));
    if t != s {
      CreateInserts(s, id, kind, links);
      forall a, b | Linked(t, a, b) ensures Linked(t, b, a) && Linkable(t.kinds[a], t.kinds[b]) {
        CreateAdds(s, id, kind, links, a, b);
        CreateAdds(s, id, kind, links, b, a);
      }
      SortSorted(List(links));
      forall a | a in t.rows ensures Sorted(List(t.rows[a])) {
        if a != id { InsertSorted(List(s.rows[a]), id); }
      }
    }
  }

  lemma LinkKeeps(s: State, src: string, dst: string)
    requires Inv(s)
    ensures Inv(Apply(s, Link(src, dst, false)))
  {
    var t := Apply(s, Link(src, dst, false));
    if t != s {
      forall a, b | Linked(t, a, b) ensures Linked(t, b, a) && Linkable(t.kinds[a], t.kinds[b]) {
        LinkAdds(s, src, dst, a, b);
        LinkAdds(s, src, dst, b, a);
      }
      InsertSorted(List(s.rows[src]), dst);
      InsertSorted(List(s.rows[dst]), src);
    }
  }

  lemma UnlinkKeeps(s: State, src: string, dst: string)
    requires Inv(s)
    ensures Inv(Apply(s, Unlink(src, dst, false)))
  {
    var t := Apply(s, Unlink(src, dst, false));
    if t != s {
      forall a, b | Linked(t, a, b) ensures Linked(t, b, a) && Linkable(t.kinds[a], t.kinds[b]) {
        UnlinkRemoves(s, src, dst, a, b);
        UnlinkRemoves(s, src, dst, b, a);
      }
      assert Linked(s, src, dst);
      WithoutSorted(List(s.rows[src]), dst);
      WithoutSorted(List(s.rows[dst]), src);
    }
  }

  lemma DeleteKeeps(s: State, id: string)
    requires Inv(s)
    ensures Inv(Apply(s, Delete(id)))
  {
    var t := Apply(s, Delete(id));
    if t != s {
      forall a, b | Linked(t, a, b) ensures Linked(t, b, a) && Linkable(t.kinds[a], t.kinds[b]) {
        DeleteRemoves(s, id, a, b);
        DeleteRemoves(s, id, b, a);
      }
      forall a | a in t.rows ensures Sorted(List(t.rows[a])) { WithoutSorted(List(s.rows[a]), id); }
    }
  }

  lemma InvKept(s: State, step: Step)
    requires Inv(s)
    ensures Inv(Apply(s, step))
  {
    match step
    case Create(id, kind, links) => CreateKeeps(s, id, kind, links);
    case Link(src, dst, stale) => if !stale { LinkKeeps(s, src, dst); }
    case Unlink(src, dst, stale) => if !stale { UnlinkKeeps(s, src, dst); }
    case Delete(id) => DeleteKeeps(s, id);
  }

  lemma {:induction false} ReachableInv(steps: seq<Step>)
    ensures Inv(Run(steps))
  {
    if steps != [] {
      ReachableInv(steps[..|steps| - 1]);
      InvKept(Run(steps[..|steps| - 1]), steps[|steps| - 1]);
    }
  }

  /** The first update of an unlink finds a row only if the second, whose count nobody looks at, does as well. */
  lemma SecondUpdateFindsItsRow(steps: seq<Step>, src: string, dst: string)
    requires
      var s := Run(steps);
      src in s.rows && dst in List(s.rows[src])
    ensures
      var s := Run(steps);
      dst in s.rows && src in List(s.rows[dst])
  {
    ReachableInv(steps);
    assert Linked(Run(steps), src, dst);
  }

  function Restored(links: Option<seq<string>>): Option<seq<string>> { if links == Some([]) then None else links }

  /** Unlinking undoes linking, but for a list that was empty and not null: it becomes null. */
  lemma UnlinkUndoesLink(s: State, src: string, dst: string)
    requires Inv(s) && ValidPair(s, src, dst) && src in s.rows && dst in s.rows && !Linked(s, src, dst)
    ensures
      Apply(Apply(s, Link(src, dst, false)), Unlink(src, dst, false))
      == s.(rows := s.rows[src := Restored(s.rows[src])][dst := Restored(s.rows[dst])])
  {
    var m := Apply(s, Link(src, dst, false));
    assert src !in List(s.rows[dst]) by { assert Linked(s, dst, src) ==> Linked(s, src, dst); }
    WithoutInserted(List(s.rows[src]), dst);
    WithoutInserted(List(s.rows[dst]), src);
    assert m.rows[src] == Some(Insert(List(s.rows[src]), dst)) && m.rows[dst] == Some(Insert(List(s.rows[dst]), src));
    assert ArrayRemove(m.rows[src], dst) == Restored(s.rows[src]);
    assert ArrayRemove(m.rows[dst], src) == Restored(s.rows[dst]);
    LaterUpdatesWin(s.rows, src, m.rows[src], dst, m.rows[dst], Restored(s.rows[src]), Restored(s.rows[dst]));
  }

  lemma LaterUpdatesWin<V>(m: map<string, V>, a: string, x: V, b: string, y: V, u: V, v: V)
    ensures m[a := x][b := y][a := u][b := v] == m[a := u][b := v]
  {
  }

  /** The rows that the deletion updates, by workspace and role, are all that have the connection in their list. */
  lemma RemovedFromThoseLinked(s: State, id: string)
    requires Inv(s) && id in s.rows
    ensures Apply(s, Delete(id)).rows ==
      map x | x in s.rows && x != id :: if id in List(s.rows[x]) then ArrayRemove(s.rows[x], id) else s.rows[x]
  {
    assert forall x :: Linked(s, x, id) ==> Linkable(s.kinds[x], s.kinds[id]);
  }

  // ---- The rows, updated in sequence -----------------------------------------------------------------------------

  /** The table. Each method is a transaction: its statements run one after the other, or are rolled back. */
  class ConnectionStore {
    ghost var kinds: map<string, Kind>
    var rows: map<string, Option<seq<string>>>

    ghost function Value(): State
      reads this
    {
      State(kinds, rows)
    }

    /** Inserts the row, and adds it to the linked connections: the number of rows that were updated shows whether
        all of these still exist. The identifier is new. */
    method CreateConnection(id: string, kind: Kind, links: Option<seq<string>>) returns (found: bool)
      requires Inv(Value()) && id !in kinds && ValidLinks(Value(), kind, links)
      modifies this
      ensures Inv(Value()) && Value() == Apply(old(Value()), Create(id, kind, links))
      ensures found <==> forall x :: x in List(links) ==> x in old(rows)
    {
      CreateKeeps(Value(), id, kind, links);
      var before := rows;
      rows := rows[id := if kind.events then Some(Sort(List(links))) else None];
      var affected := 0;
      for i := 0 to |List(links)|
        invariant affected <= i && (affected == i <==> forall k :: 0 <= k < i ==> List(links)[k] in before)
        invariant rows == before[id := if kind.events then Some(Sort(List(links))) else None]
      {
        assert List(links)[i] in kinds;
        if List(links)[i] in rows {
          affected := affected + 1;
        }
      }
      if affected < |List(links)| {
        rows := before;
        return false;
      }
      rows := AddTo(rows, List(links), id);
      kinds := kinds[id := kind];
      return true;
    }

    method DeleteConnection(id: string) returns (found: bool)
      requires Inv(Value())
      modifies this`rows
      ensures Inv(Value()) && Value() == Apply(old(Value()), Delete(id)) && found == (id in old(rows))
    {
      DeleteKeeps(Value(), id);
      if id !in rows {
        return false;
      }
      ghost var deleted := Apply(Value(), Delete(id)).rows;
      RemovedFromThoseLinked(Value(), id);
      rows := rows - {id};
      rows := map x | x in rows :: if id in List(rows[x]) then ArrayRemove(rows[x], id) else rows[x];
      assert rows == deleted;
      return true;
    }

    /** The first statement is guarded; the second, in a rolled back transaction, has found no row. */
    method LinkConnection(src: string, dst: string) returns (found: bool)
      requires Inv(Value()) && ValidPair(Value(), src, dst)
      modifies this`rows
      ensures Inv(Value()) && Value() == Apply(old(Value()), Link(src, dst, false))
      ensures found <==> old(src in rows && dst !in List(rows[src]) ==> dst in rows)
      ensures rows.Keys == old(rows).Keys && forall x :: x in rows && x != src && x != dst ==> rows[x] == old(rows)[x]
      ensures old(src in rows && dst in rows) ==> dst in List(rows[src]) && src in List(rows[dst])
      ensures old(src in rows && dst in rows) ==>
        && (forall x :: x != dst ==> (x in List(rows[src]) <==> x in List(old(rows)[src])))
        && (forall x :: x != src ==> (x in List(rows[dst]) <==> x in List(old(rows)[dst])))
    {
      LinkKeeps(Value(), src, dst);
      if src in rows && dst in List(rows[src]) { assert Linked(Value(), src, dst); }
      var before := rows;
      if src !in rows || dst in List(rows[src]) {
        return true;
      }
      rows := rows[src := Some(Insert(List(rows[src]), dst))];
      if dst !in rows {
        rows := before;
        return false;
      }
      rows := rows[dst := Some(Insert(List(rows[dst]), src))];
      return true;
    }

    /** The second statement has no guard, and its result is not looked at. */
    method UnlinkConnection(src: string, dst: string)
      requires Inv(Value()) && ValidPair(Value(), src, dst)
      modifies this`rows
      ensures Inv(Value()) && Value() == Apply(old(Value()), Unlink(src, dst, false))
      ensures rows.Keys == old(rows).Keys && forall x :: x in rows && x != src && x != dst ==> rows[x] == old(rows)[x]
      ensures src in rows ==> dst !in List(rows[src]) && forall x :: x != dst ==> (x in List(rows[src]) <==> x in List(old(rows)[src]))
      ensures dst in rows ==> src !in List(rows[dst]) && forall x :: x != src ==> (x in List(rows[dst]) <==> x in List(old(rows)[dst]))
    {
      UnlinkKeeps(Value(), src, dst);
      if dst in rows && src in List(rows[dst]) { assert Linked(Value(), dst, src); }
      if src !in rows || dst !in List(rows[src]) {
        return;
      }
      assert Linked(Value(), src, dst);
      rows := rows[src := ArrayRemove(rows[src], dst)];
      if dst in rows {
        rows := rows[dst := ArrayRemove(rows[dst], src)];
      }
    }
  }

  // ---- Validation ------------------------------------------------------------------------------------------------

  /** Checks the links of a new connection against the connections that the node knows in the workspace, and sorts
      them. `valid` is the syntax of identifiers. */
  method ValidateLinkedConnections(connections: Option<seq<string>>, kind: Kind, known: map<string, Kind>,
                                   valid: string -> bool)
    returns (ok: bool, links: Option<seq<string>>)
    requires forall id :: id in known ==> known[id].workspace == kind.workspace
    ensures ok <==>
      && (connections.Some? ==> kind.events && Distinct(connections.value))
      && forall id :: id in List(connections) ==> valid(id) && id in known && Linkable(kind, known[id])
    ensures ok ==> (links.Some? <==> kind.events) && List(links) == Sort(List(connections))
  {
    links := None;
    if !kind.events {
      return connections.None?, None;
    }
    var ids := List(connections);
    for i := 0 to |ids|
      invariant forall k :: 0 <= k < i ==> valid(ids[k]) && ids[k] in known && Linkable(kind, known[ids[k]])
      invariant forall k, l :: 0 <= k < i && k < l < |ids| ==> ids[k] != ids[l]
    {
      var id := ids[i];
      if !valid(id) {
        return false, None;
      }
      for j := i + 1 to |ids|
        invariant forall l :: i < l < j ==> ids[i] != ids[l]
      {
        if ids[j] == id {
          return false, None;
        }
      }
      if id !in known || !known[id].events || known[id].source == kind.source {
        return false, None;
      }
    }
    return true, Some(Sort(ids));
  }
}
