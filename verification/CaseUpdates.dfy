/** What the one write does, told from the stored cases: which are refused and why, which rows
    change, and to what. */
module CaseUpdates {
  import opened Wrappers
  import opened Relational
  import opened Repository
  import opened NonInterference
  import opened Scoping

  /** The value a list of assignments leaves in a column: that of the last to name it. */
  ghost predicate Gives(changes: Dict<Arg>, column: string, v: Value) {
    exists i :: 0 <= i < |changes| && changes[i].0 == column && Bind(changes[i].1) == v
                && forall j | i < j < |changes| :: changes[j].0 != column
  }

  /** A row with the assigned columns as assigned, and no other column touched. */
  ghost predicate Edited(before: Row, after: Row, changes: Dict<Arg>) {
    forall column ::
      if column in Names(changes) then column in after && Gives(changes, column, after[column])
      else (column in after <==> column in before) && Cell(after, column) == Cell(before, column)
  }

  lemma {:induction false} NamesSplit(changes: Dict<Arg>)
    requires changes != []
    ensures Names(changes) == {changes[0].0} + Names(changes[1..])
  {
    forall name | name in Names(changes)
      ensures name in {changes[0].0} + Names(changes[1..])
    {
      var i :| 0 <= i < |changes| && changes[i].0 == name;
      assert i > 0 ==> changes[1..][i - 1].0 == name;
    }
    forall name | name in Names(changes[1..])
      ensures name in Names(changes)
    {
      var i :| 0 <= i < |changes[1..]| && changes[1..][i].0 == name;
      assert changes[i + 1].0 == name;
    }
    assert changes[0].0 in Names(changes);
  }

  lemma {:induction false} LaterGives(changes: Dict<Arg>, column: string, v: Value)
    requires changes != [] && Gives(changes[1..], column, v)
    ensures Gives(changes, column, v)
  {
    var later := changes[1..];
    var i :| 0 <= i < |later| && later[i].0 == column && Bind(later[i].1) == v
             && forall j | i < j < |later| :: later[j].0 != column;
    assert changes[i + 1] == later[i];
    forall j | i + 1 < j < |changes|
      ensures changes[j].0 != column
    {
      assert changes[j] == later[j - 1];
    }
  }

  lemma {:induction false} FirstGives(changes: Dict<Arg>, column: string)
    requires changes != [] && changes[0].0 == column && column !in Names(changes[1..])
    ensures Gives(changes, column, Bind(changes[0].1))
  {
    forall j | 0 < j < |changes|
      ensures changes[j].0 != column
    {
      assert changes[1..][j - 1].0 in Names(changes[1..]);
    }
  }

  lemma {:induction false} AssignedIsEdited(row: Row, changes: Dict<Arg>)
    ensures Edited(row, Assigned(row, changes), changes)
    decreases |changes|
  {
    hide Gives, Bind, Names;
    if changes == [] {
      assert Names(changes) == {} by { NoNames(changes); }
    } else {
      var name, v := changes[0].0, Bind(changes[0].1);
      var step := row[name := v];
      AssignedIsEdited(step, changes[1..]);
      NamesSplit(changes);
      var after := Assigned(row, changes);
      forall column | column in Names(changes)
        ensures column in after && Gives(changes, column, after[column])
      {
        if column in Names(changes[1..]) {
          LaterGives(changes, column, after[column]);
        } else {
          FirstGives(changes, column);
        }
      }
    }
  }

  lemma {:induction false} NoNames(changes: Dict<Arg>)
    requires changes == []
    ensures Names(changes) == {}
  {
  }

  /** The cases after a write: those with the id edited, the others as they were. */
  ghost predicate OnlyEdited(before: seq<Row>, after: seq<Row>, id: string, changes: Dict<Arg>) {
    && |after| == |before|
    && forall k | 0 <= k < |before| ::
         if Cell(before[k], "case_id") == Text(id) then Edited(before[k], after[k], changes)
         else after[k] == before[k]
  }

  lemma {:induction false} UpdateWhereEdits(rows: seq<Row>, id: string, changes: Dict<Arg>)
    ensures OnlyEdited(rows, UpdateWhere(rows, id, changes), id, changes)
  {
    hide Edited, Assigned;
    if rows != [] {
      UpdateWhereEdits(rows[1..], id, changes);
      AssignedIsEdited(rows[0], changes);
    }
  }

  ghost predicate CaseInScope(db: Database, regions: set<string>, id: string, row: Row) {
    row in Rows(db, SupportCases) && InScope(db, regions, SupportCases, row) && Cell(row, "case_id") == Text(id)
  }

  ghost predicate Allowed(changes: Dict<Arg>) {
    forall name :: name in Names(changes) ==> name == "status" || name == "severity"
  }

  ghost predicate NullGiven(changes: Dict<Arg>) {
    exists i :: 0 <= i < |changes| && changes[i].1 == ArgNone
  }

  lemma {:induction false} CaseFetched(db: Database, regions: set<string>, id: string)
    ensures var found := FetchByKey(db, regions, SupportCases, id, true);
            && found.Ok?
            && (found.value.Some? ==> CaseInScope(db, regions, id, found.value.value))
            && (found.value.None? ==> forall row :: !CaseInScope(db, regions, id, row))
  {
    FetchIsInScope(db, regions, SupportCases, id, true);
    hide FetchByKey, InScope;
    var found := FetchByKey(db, regions, SupportCases, id, true);
    if found.value.Some? {
      var row :| row in Rows(db, SupportCases) && InScope(db, regions, SupportCases, row)
                 && Cell(row, "case_id") == Text(id) && Shows(SupportCases, true, row, found.value.value);
      assert row == found.value.value;
    }
  }

  lemma {:induction false} AllowedMeans(changes: Dict<Arg>)
    ensures Allowed(changes) <==> Names(changes) - UPDATABLE == {}
    ensures Allowed(changes) <==> Assignable(changes)
    ensures NullGiven(changes) <==> exists i :: 0 <= i < |changes| && Bind(changes[i].1) == Null
  {
    hide Names;
    if !Allowed(changes) {
      var name :| name in Names(changes) && name != "status" && name != "severity";
      assert name in Names(changes) - UPDATABLE;
    }
    forall i | 0 <= i < |changes|
      ensures Bind(changes[i].1) == Null <==> changes[i].1 == ArgNone
    {
    }
  }

  lemma {:induction false} NoChangesEdit(rows: seq<Row>, id: string)
    ensures OnlyEdited(rows, rows, id, []) && forall row :: Edited(row, row, [])
  {
    NoNames([]);
  }

  /** Main result on the write: refused, and nothing written, for a case that is not in scope, a
      column other than the two, or a null; otherwise the cases with that id are edited, nothing
      else is, and the caller is shown an edited case that was in scope. */
  lemma {:induction false} UpdateMeans(db: Database, regions: set<string>, id: string, changes: Dict<Arg>)
    ensures var (after, r) := UpdateSupportCase(db, regions, id, changes);
            var visible := exists row :: CaseInScope(db, regions, id, row);
            && (r == Err(NoVisibleCase(id)) <==> !visible)
            && ((r.Err? && r.error.NotUpdatable?) <==> visible && !Allowed(changes))
            && (r == Err(NullAssigned) <==> visible && Allowed(changes) && NullGiven(changes))
            && (r.Ok? <==> visible && Allowed(changes) && !NullGiven(changes))
            && (r.Err? || changes == [] ==> after == db)
            && (r.Ok? ==>
                  && OnlyEdited(Rows(db, SupportCases), Rows(after, SupportCases), id, changes)
                  && (forall table :: table != SupportCases ==> Rows(after, table) == Rows(db, table))
                  && exists row :: CaseInScope(db, regions, id, row) && Edited(row, r.value, changes))
  {
    hide FetchByKey, Names, Bind, Assigned, UpdateWhere, CaseInScope, Allowed, NullGiven, OnlyEdited, Edited;
    hide Assignable;
    CaseFetched(db, regions, id);
    AllowedMeans(changes);
    UpdateSupportCaseEffect(db, regions, id, changes);
    UpdateWhereEdits(Rows(db, SupportCases), id, changes);
    NoChangesEdit(Rows(db, SupportCases), id);
    var found := FetchByKey(db, regions, SupportCases, id, true);
    if found.value.Some? {
      AssignedIsEdited(found.value.value, changes);
    }
  }
}
