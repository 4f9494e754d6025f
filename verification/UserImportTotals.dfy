/** What an import comes to, record by record: which records are written, as what and in which order, which identities are
    kept, and what each counter counts (core/run_import.go:104-216). */
module UserImportTotals {
  import opened Prelude
  import opened UserImport

  // ---- Where a record ends -----------------------------------------------------------------------------------------

  datatype End =
    | NotRead | NotFitting | FilteredOut | NotTransformed | NotValid | NoConsent | Written(identity: Identity)

  /** The end of a record, by what the pipeline makes of it. */
  predicate EndsAs(p: Pipeline, u: User, end: End) {
    match end
    case NotRead => u.fault == Unreadable
    case NotFitting => u.fault == Invalid
    case FilteredOut => u.fault == Sound && !p.database && !p.filter(u.values)
    case NotTransformed => Accepted(p, u) && p.transform(u.values) == TransformationError
    case NotValid => Accepted(p, u) && p.transform(u.values) == ValidationError
    case NoConsent =>
      Accepted(p, u) && p.transform(u.values).Transformed? && !p.consents(p.transform(u.values).values)
    case Written(identity) =>
      Accepted(p, u) && p.transform(u.values).Transformed? && p.consents(p.transform(u.values).values)
      && identity == Identity(u.id, p.transform(u.values).values, u.updatedAt)
  }

  /** The filter applies, but to the records of a database. */
  predicate Accepted(p: Pipeline, u: User) { u.fault == Sound && (p.database || p.filter(u.values)) }

  predicate IsWritten(p: Pipeline, u: User) {
    Accepted(p, u) && p.transform(u.values).Transformed? && p.consents(p.transform(u.values).values)
  }

  predicate IsKept(p: Pipeline, u: User) {
    EndsAs(p, u, NotRead) || EndsAs(p, u, NotFitting) || EndsAs(p, u, NotTransformed) || EndsAs(p, u, NotValid)
  }

  /** Every record has exactly one end. */
  lemma OneEnd(p: Pipeline, u: User)
    ensures exists end :: EndsAs(p, u, end)
    ensures forall a, b :: EndsAs(p, u, a) && EndsAs(p, u, b) ==> a == b
  {
    assert IsWritten(p, u) ==> EndsAs(p, u, Written(Identity(u.id, p.transform(u.values).values, u.updatedAt)));
    assert EndsAs(p, u, NotRead) || EndsAs(p, u, NotFitting) || EndsAs(p, u, FilteredOut) || EndsAs(p, u, NotTransformed)
           || EndsAs(p, u, NotValid) || EndsAs(p, u, NoConsent) || IsWritten(p, u);
  }

  /** The records, by their positions, of which a test holds. */
  function Those(users: seq<User>, test: User -> bool): set<nat> { set k: nat | k < |users| && test(users[k]) }

  lemma ThoseGrow(users: seq<User>, test: User -> bool)
    requires users != []
    ensures |Those(users, test)| == |Those(users[..|users| - 1], test)| + if test(users[|users| - 1]) then 1 else 0
  {
    var init, last := users[..|users| - 1], |users| - 1;
    assert Those(users, test) == Those(init, test) + if test(users[last]) then {last} else {};
    assert last !in Those(init, test);
  }

  // ---- What is written ---------------------------------------------------------------------------------------------

  /** The positions, in order, of the records that are written. */
  predicate Positions(p: Pipeline, users: seq<User>, positions: seq<nat>) {
    && (forall i, j :: 0 <= i < j < |positions| ==> positions[i] < positions[j])
    && (forall i :: 0 <= i < |positions| ==> positions[i] < |users| && IsWritten(p, users[positions[i]]))
    && (forall k :: 0 <= k < |users| && IsWritten(p, users[k]) ==> k in positions)
  }

  lemma OneMoreHandled(p: Pipeline, start: nat, users: seq<User>)
    requires users != []
    ensures OneByOne(p, start, users) == Handle(p, users[|users| - 1], OneByOne(p, start, users[..|users| - 1]))
  {
  }

  lemma HandleWrites(p: Pipeline, u: User, e: Effects)
    ensures Handle(p, u, e).batches.writes ==
      if IsWritten(p, u) then e.batches.writes + [Identity(u.id, p.transform(u.values).values, u.updatedAt)]
      else e.batches.writes
  {
  }

  /** The identities written are those of the records that can be read, fit the schema, pass the filter, are transformed and
      have their consents: each with its transformed values and its time, in the order of the records. */
  lemma {:induction false} WritesAre(p: Pipeline, start: nat, users: seq<User>) returns (positions: seq<nat>)
    ensures Positions(p, users, positions) && |OneByOne(p, start, users).batches.writes| == |positions|
    ensures forall i :: 0 <= i < |positions| ==>
      EndsAs(p, users[positions[i]], Written(OneByOne(p, start, users).batches.writes[i]))
  {
    positions := [];
    if users != [] {
      var init, last := users[..|users| - 1], |users| - 1;
      positions := WritesAre(p, start, init);
      HandleWrites(p, users[last], OneByOne(p, start, init));
      if IsWritten(p, users[last]) { positions := positions + [last]; }
    }
  }

  // ---- What is kept ------------------------------------------------------------------------------------------------

  lemma HandleKeeps(p: Pipeline, u: User, e: Effects)
    ensures Keeps(Handle(p, u, e)) == Keeps(e) + if IsKept(p, u) then multiset{u.id} else multiset{}
  {
  }

  /** Each identity is kept as often as a record of it could not be read, does not fit, or failed in the transformation. */
  lemma {:induction false} KeepsAre(p: Pipeline, start: nat, users: seq<User>, id: string)
    ensures Keeps(OneByOne(p, start, users))[id] == |Those(users, (u: User) => u.id == id && IsKept(p, u))|
  {
    var test := (u: User) => u.id == id && IsKept(p, u);
    if users == [] {
      assert Those(users, test) == {};
    } else {
      KeepsAre(p, start, users[..|users| - 1], id);
      ThoseGrow(users, test);
      HandleKeeps(p, users[|users| - 1], OneByOne(p, start, users[..|users| - 1]));
    }
  }

  // ---- What is counted ---------------------------------------------------------------------------------------------

  /** How many of the records end like that. */
  function Ending(p: Pipeline, users: seq<User>, end: End): nat { |Those(users, (u: User) => EndsAs(p, u, end))| }

  lemma EndingGrows(p: Pipeline, users: seq<User>, end: End)
    requires users != []
    ensures Ending(p, users, end)
         == Ending(p, users[..|users| - 1], end) + if EndsAs(p, users[|users| - 1], end) then 1 else 0
  {
    ThoseGrow(users, (u: User) => EndsAs(p, u, end));
  }

  lemma HandleCounts(p: Pipeline, u: User, e: Effects)
    ensures
      var f := Handle(p, u, e);
      var c, d := e.receipt.received, f.receipt.received;
      && d.receiveFailed == c.receiveFailed + (if EndsAs(p, u, NotRead) then 1 else 0)
      && d.inputFailed == c.inputFailed + (if EndsAs(p, u, NotFitting) then 1 else 0)
      && d.filterFailed == c.filterFailed + (if EndsAs(p, u, FilteredOut) then 1 else 0)
    ensures
      var f := Handle(p, u, e);
      var c, d := e.batches.processed, f.batches.processed;
      && d.transformationFailed == c.transformationFailed + (if EndsAs(p, u, NotTransformed) then 1 else 0)
      && d.outputFailed == c.outputFailed + (if EndsAs(p, u, NotValid) then 1 else 0)
      && d.consentFailed == c.consentFailed + (if EndsAs(p, u, NoConsent) then 1 else 0)
  {
  }

  lemma NoneEnds(p: Pipeline, end: End)
    ensures Ending(p, [], end) == 0
  {
    assert Those([], (u: User) => EndsAs(p, u, end)) == {};
  }

  lemma {:induction false} ReceiptFailuresAre(p: Pipeline, start: nat, users: seq<User>)
    ensures
      var c := OneByOne(p, start, users).receipt.received;
      && c.receiveFailed == Ending(p, users, NotRead) && c.inputFailed == Ending(p, users, NotFitting)
      && c.filterFailed == Ending(p, users, FilteredOut)
  {
    if users == [] {
      NoneEnds(p, NotRead);
      NoneEnds(p, NotFitting);
      NoneEnds(p, FilteredOut);
    } else {
      var init, last := users[..|users| - 1], users[|users| - 1];
      ReceiptFailuresAre(p, start, init);
      HandleCounts(p, last, OneByOne(p, start, init));
      EndingGrows(p, users, NotRead);
      EndingGrows(p, users, NotFitting);
      EndingGrows(p, users, FilteredOut);
    }
  }

  lemma {:induction false} BatchFailuresAre(p: Pipeline, start: nat, users: seq<User>)
    ensures
      var c := OneByOne(p, start, users).batches.processed;
      && c.transformationFailed == Ending(p, users, NotTransformed) && c.outputFailed == Ending(p, users, NotValid)
      && c.consentFailed == Ending(p, users, NoConsent)
  {
    if users == [] {
      NoneEnds(p, NotTransformed);
      NoneEnds(p, NotValid);
      NoneEnds(p, NoConsent);
    } else {
      var init, last := users[..|users| - 1], users[|users| - 1];
      BatchFailuresAre(p, start, init);
      HandleCounts(p, last, OneByOne(p, start, init));
      EndingGrows(p, users, NotTransformed);
      EndingGrows(p, users, NotValid);
      EndingGrows(p, users, NoConsent);
    }
  }

  /** Each step fails for exactly the records that end at it, and passes for those that get beyond it. */
  lemma CountersAre(p: Pipeline, start: nat, users: seq<User>)
    ensures
      var e := OneByOne(p, start, users);
      var r, c := e.receipt.received, e.batches.processed;
      && r.receiveFailed == Ending(p, users, NotRead) && r.receivePassed == |users| - r.receiveFailed
      && r.inputFailed == Ending(p, users, NotFitting) && r.inputPassed == r.receivePassed - r.inputFailed
      && r.filterFailed == Ending(p, users, FilteredOut)
      && r.filterPassed == (if p.database then 0 else r.inputPassed - r.filterFailed)
      && c.transformationFailed == Ending(p, users, NotTransformed)
      && c.transformationPassed == r.inputPassed - r.filterFailed - c.transformationFailed
      && c.outputFailed == Ending(p, users, NotValid) && c.outputPassed == c.transformationPassed - c.outputFailed
      && c.consentFailed == Ending(p, users, NoConsent) && c.consentPassed == c.outputPassed - c.consentFailed
      && c.consentPassed == |e.batches.writes|
  {
    ReceiptFailuresAre(p, start, users);
    BatchFailuresAre(p, start, users);
    OneByOneTakenApart(p, start, users);
    ReceiptBalances(p, users);
    BatchesBalance(p, Passing(p, users));
  }

  /** The cursor is the latest time of a record that is accepted, or where it started. */
  lemma {:induction false} CursorIs(p: Pipeline, start: nat, users: seq<User>)
    ensures
      var cursor := OneByOne(p, start, users).cursor;
      && cursor >= start
      && (forall k :: 0 <= k < |users| && Accepted(p, users[k]) ==> users[k].updatedAt <= cursor)
      && (cursor == start || exists k :: 0 <= k < |users| && Accepted(p, users[k]) && users[k].updatedAt == cursor)
  {
    if users != [] {
      var init, last := users[..|users| - 1], |users| - 1;
      CursorIs(p, start, init);
      assert forall k :: 0 <= k < last ==> init[k] == users[k];
      assert Passes(p, users[last]) <==> Accepted(p, users[last]);
    }
  }
}
