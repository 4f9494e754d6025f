/** The transactions on linked connections, statement by statement under their row locks
    (core/connection.go:679-740, core/connection.go:1133-1152, core/connection.go:1884-1906,
    core/workspace.go:692-757). They do no more than transactions that run one at a time.

    A transaction has two statements. The first takes the lock of one row, and writes what nobody else sees. The
    second waits until no other transaction holds a row that it updates, and with it the transaction commits, or
    is rolled back. A transaction can be aborted at any time, as when it waits in a circle. */
module ConnectionTransactions {
  import opened Prelude
  import opened LinkedConnections

  datatype Transaction =
    | CreateTx(id: string, kind: Kind, links: Option<seq<string>>, half: bool)
    | LinkTx(src: string, dst: string, half: bool)
    | UnlinkTx(src: string, dst: string, half: bool)
    | DeleteTx(id: string, half: bool)

  /** The committed rows, and the open transactions; `half` of one is done when it holds its lock. */
  datatype System = System(store: State, open: map<nat, Transaction>)

  const EMPTY := System(LinkedConnections.INITIAL, map[])

  datatype Move =
    | Begin(t: nat, tx: Transaction)
    | Advance(t: nat)
    | Abort(t: nat)

  /** The row that a transaction holds between its statements. That of a creation is the one it inserts. */
  function Held(tx: Transaction): string {
    match tx
    case CreateTx(id, _, _, _) => id
    case LinkTx(src, _, _) => src
    case UnlinkTx(src, _, _) => src
    case DeleteTx(id, _) => id
  }

  predicate Holds(tx: Transaction, id: string) { tx.half && Held(tx) == id }

  /** No other transaction holds the row. */
  predicate Free(s: System, t: nat, id: string) { forall u :: u in s.open && u != t ==> !Holds(s.open[u], id) }

  /** What the transaction does as one step. */
  function StepOf(tx: Transaction): Step {
    match tx
    case CreateTx(id, kind, links, _) => Create(id, kind, links)
    case LinkTx(src, dst, _) => Link(src, dst, false)
    case UnlinkTx(src, dst, _) => Unlink(src, dst, false)
    case DeleteTx(id, _) => Delete(id)
  }

  /** A transaction that was validated by its node. */
  ghost predicate Valid(s: State, tx: Transaction) {
    match tx
    case CreateTx(id, kind, links, _) => ValidLinks(s, kind, links)
    case LinkTx(src, dst, _) => ValidPair(s, src, dst)
    case UnlinkTx(src, dst, _) => ValidPair(s, src, dst)
    case DeleteTx(_, _) => true
  }

  /** Whether the first statement finds what it updates, deletes or can insert. */
  predicate FindsFirst(s: State, tx: Transaction) {
    match tx
    case CreateTx(id, _, _, _) => id !in s.kinds
    case LinkTx(src, dst, _) => src in s.rows && dst !in List(s.rows[src])
    case UnlinkTx(src, dst, _) => src in s.rows && dst in List(s.rows[src])
    case DeleteTx(id, _) => id in s.rows
  }

  /** The rows, besides its own, that the second statement updates. */
  predicate UpdatesSecond(s: State, tx: Transaction, x: string) {
    match tx
    case CreateTx(_, _, links, _) => x in List(links)
    case LinkTx(_, dst, _) => x == dst
    case UnlinkTx(_, dst, _) => x == dst
    case DeleteTx(id, _) => x in s.rows && id in List(s.rows[x])
  }

  /** Whether the second statement commits: the rows it is to update, all of them, are there. */
  ghost predicate Commits(s: State, tx: Transaction) {
    match tx
    case CreateTx(_, _, links, _) => forall x :: x in List(links) ==> x in s.rows
    case LinkTx(_, dst, _) => dst in s.rows
    case _ => true
  }

  /** What the commit writes: the row that the first statement wrote, and those of the second. */
  function Written(s: State, tx: Transaction): State {
    match tx
    case CreateTx(id, kind, links, _) =>
      State(s.kinds[id := kind],
            AddTo(s.rows[id := if kind.events then Some(Sort(List(links))) else None], List(links), id))
    case LinkTx(src, dst, _) =>
      if src !in s.rows || dst !in s.rows then s
      else s.(rows := s.rows[src := Some(Insert(List(s.rows[src]), dst))][dst := Some(Insert(List(s.rows[dst]), src))])
    case UnlinkTx(src, dst, _) =>
      if src !in s.rows then s
      else
        var rows := s.rows[src := ArrayRemove(s.rows[src], dst)];
        s.(rows := if dst in rows then rows[dst := ArrayRemove(rows[dst], src)] else rows)
    case DeleteTx(id, _) =>
      s.(rows := map x | x in s.rows && x != id :: if id in List(s.rows[x]) then ArrayRemove(s.rows[x], id) else s.rows[x])
  }

  /** A statement that has to wait changes nothing. */
  ghost function Apply(s: System, move: Move): System {
    match move
    case Begin(t, tx) => if t in s.open || tx.half || !Valid(s.store, tx) then s else s.(open := s.open[t := tx])
    case Abort(t) => s.(open := s.open - {t})
    case Advance(t) =>
      if t !in s.open then s
      else
        var tx := s.open[t];
        if !tx.half then
          if !Free(s, t, Held(tx)) then s
          else if FindsFirst(s.store, tx) then s.(open := s.open[t := tx.(half := true)])
          else s.(open := s.open - {t})
        else if exists x :: UpdatesSecond(s.store, tx, x) && !Free(s, t, x) then s
        else if Commits(s.store, tx) then System(Written(s.store, tx), s.open - {t})
        else s.(open := s.open - {t})
  }

  ghost function Run(moves: seq<Move>): System {
    if moves == [] then EMPTY else Apply(Run(moves[..|moves| - 1]), moves[|moves| - 1])
  }

  // ---- What every statement keeps --------------------------------------------------------------------------------

  /** No two transactions hold the same row, and what the first statement of each found is still there. */
  ghost predicate Isolated(s: System) {
    && (forall t, u :: t in s.open && u in s.open && t != u && s.open[t].half ==> !Holds(s.open[u], Held(s.open[t])))
    && (forall t :: t in s.open ==> TxOk(s.store, s.open[t]))
  }

  ghost predicate TxOk(s: State, tx: Transaction) { Valid(s, tx) && (tx.half ==> FindsFirst(s, tx)) }

  ghost predicate SystemInv(s: System) { Inv(s.store) && Isolated(s) }

  /** A commit writes what the transaction does as one step. */
  lemma CommitIsTheStep(s: State, tx: Transaction)
    requires Inv(s) && TxOk(s, tx) && tx.half && Commits(s, tx)
    ensures Written(s, tx) == LinkedConnections.Apply(s, StepOf(tx))
  {
    match tx
    case DeleteTx(id, _) => RemovedFromThoseLinked(s, id);
    case _ =>
  }

  /** Rows that a commit does not own or update stay as they are, and so does what others found in them. */
  lemma OthersUndisturbed(s: System, t: nat, u: nat)
    requires SystemInv(s) && t in s.open && u in s.open && u != t && s.open[t].half
    requires forall x :: UpdatesSecond(s.store, s.open[t], x) ==> Free(s, t, x)
    requires Commits(s.store, s.open[t])
    ensures TxOk(Written(s.store, s.open[t]), s.open[u])
  {
    var tx, other := s.open[t], s.open[u];
    assert TxOk(s.store, tx) && TxOk(s.store, other);
    assert other.half ==> Held(other) != Held(tx) && !UpdatesSecond(s.store, tx, Held(other));
  }

  lemma SystemInvKept(s: System, move: Move)
    requires SystemInv(s)
    ensures SystemInv(Apply(s, move))
  {
    var r := Apply(s, move);
    if move.Advance? && r.store != s.store {
      var tx := s.open[move.t];
      CommitIsTheStep(s.store, tx);
      InvKept(s.store, StepOf(tx));
      forall u | u in r.open ensures TxOk(r.store, r.open[u]) { OthersUndisturbed(s, move.t, u); }
    }
  }

  lemma {:induction false} ReachableSystemInv(moves: seq<Move>)
    ensures SystemInv(Run(moves))
  {
    if moves != [] {
      ReachableSystemInv(moves[..|moves| - 1]);
      SystemInvKept(Run(moves[..|moves| - 1]), moves[|moves| - 1]);
    }
  }

  // ---- What holds over every interleaving ------------------------------------------------------------------------

  /** For every interleaving there is a sequence of whole transactions that leads to the same rows. */
  lemma {:induction false} Serializable(moves: seq<Move>) returns (steps: seq<Step>)
    ensures Run(moves).store == LinkedConnections.Run(steps)
  {
    if moves == [] {
      steps := [];
    } else {
      var init, move := moves[..|moves| - 1], moves[|moves| - 1];
      steps := Serializable(init);
      var s := Run(init);
      ReachableSystemInv(init);
      if move.Advance? && Apply(s, move).store != s.store {
        CommitIsTheStep(s.store, s.open[move.t]);
        var longer := steps + [StepOf(s.open[move.t])];
        assert longer[..|longer| - 1] == steps;
        steps := longer;
      }
    }
  }

  /** The first statement waits exactly while somebody else holds its row. Then it goes on or, if as one step the transaction
      would change nothing, it may give up, and leaves the rows as they are. */
  lemma FirstStatement(moves: seq<Move>, t: nat)
    requires t in Run(moves).open && !Run(moves).open[t].half
    ensures
      var s, u, tx := Run(moves), Apply(Run(moves), Advance(t)), Run(moves).open[t];
      && u.store == s.store
      && if exists o :: o in s.open && o != t && s.open[o].half && Held(s.open[o]) == Held(tx) then u == s
         else
           && (t in u.open ==> u.open == s.open[t := tx.(half := true)])
           && (t !in u.open ==> u.open == s.open - {t} && LinkedConnections.Apply(s.store, StepOf(tx)) == s.store)
  {
    ReachableSystemInv(moves);
    assert TxOk(Run(moves).store, Run(moves).open[t]);
  }

  /** The second waits exactly while somebody else holds a row that it updates. Then the transaction is over, and has done
      all that it does as one step. */
  lemma SecondStatement(moves: seq<Move>, t: nat)
    requires t in Run(moves).open && Run(moves).open[t].half
    ensures
      var s, u, tx := Run(moves), Apply(Run(moves), Advance(t)), Run(moves).open[t];
      if exists o :: o in s.open && o != t && s.open[o].half && UpdatesSecond(s.store, tx, Held(s.open[o])) then u == s
      else u.open == s.open - {t} && u.store == LinkedConnections.Apply(s.store, StepOf(tx))
  {
    ReachableSystemInv(moves);
    var s, tx := Run(moves), Run(moves).open[t];
    assert TxOk(s.store, tx);
    if Commits(s.store, tx) { CommitIsTheStep(s.store, tx); }
    assert (exists x :: UpdatesSecond(s.store, tx, x) && !Free(s, t, x)) <==>
      exists o :: o in s.open && o != t && s.open[o].half && UpdatesSecond(s.store, tx, Held(s.open[o])) by {
      if o :| o in s.open && o != t && s.open[o].half && UpdatesSecond(s.store, tx, Held(s.open[o])) {
        assert !Free(s, t, Held(s.open[o]));
      }
    }
  }

  /** Between the two statements of an unlink the destination is there, and linked: the second update, whose count
      nobody looks at, finds its row. */
  lemma UnlinkFindsBothRows(moves: seq<Move>, t: nat)
    requires t in Run(moves).open && Run(moves).open[t].UnlinkTx? && Run(moves).open[t].half
    ensures
      var s, tx := Run(moves).store, Run(moves).open[t];
      tx.dst in s.rows && tx.src in List(s.rows[tx.dst])
  {
    ReachableSystemInv(moves);
    var s, tx := Run(moves).store, Run(moves).open[t];
    assert TxOk(s, tx);
    assert Linked(s, tx.src, tx.dst);
  }

  /** So are the rows from which a deletion removes its connection: nobody links to it, or unlinks from it, meanwhile. */
  lemma DeletionFindsTheSameRows(moves: seq<Move>, t: nat, move: Move, x: string)
    requires t in Run(moves).open && Run(moves).open[t].DeleteTx? && Run(moves).open[t].half
    requires move != Advance(t) && move != Abort(t)
    ensures
      var s, r, id := Run(moves).store, Apply(Run(moves), move).store, Run(moves).open[t].id;
      Linked(r, x, id) <==> Linked(s, x, id)
  {
    ReachableSystemInv(moves);
    var s := Run(moves);
    var id := s.open[t].id;
    if move.Advance? && Apply(s, move).store != s.store {
      var tx := s.open[move.t];
      assert TxOk(s.store, tx) && TxOk(s.store, s.open[t]);
      assert Held(tx) != id && !UpdatesSecond(s.store, tx, id);
      CommitIsTheStep(s.store, tx);
      match tx
      case CreateTx(created, kind, links, _) => CreateAdds(s.store, created, kind, links, x, id);
      case LinkTx(src, dst, _) => LinkAdds(s.store, src, dst, x, id);
      case UnlinkTx(src, dst, _) => UnlinkRemoves(s.store, src, dst, x, id);
      case DeleteTx(gone, _) => DeleteRemoves(s.store, gone, x, id);
    }
  }
}
