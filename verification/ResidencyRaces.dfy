/**
 The statements of two overlapping residency requests, interleaved in any way. Only the row of one rule and
 one datasource is followed: the other statements of the requests touch other rows. Nothing fails, the
 lists are complete, and the rule does not allow the empty region.
 */
module ResidencyRaces {
  import opened Prelude
  import Residency

  predicate Outside(allowed: seq<string>, region: string) {
    Residency.Violates(Residency.Rule(allowed, true), region)
  }

  /** The row a recomputation finds. */
  function Right(allowed: seq<string>, region: string): Option<string> {
    if Outside(allowed, region) then Some(region) else None
  }

  /** INSERT ... ON CONFLICT DO NOTHING, when the evaluator wants a row. */
  function InsertRow(row: Option<string>, allowed: seq<string>, region: string): Option<string> {
    if row.Some? then row else Right(allowed, region)
  }

  datatype Turn = Left | Other   // which of the two requests executes its next statement

  // ---- creating the rule while the datasource's region changes from `before` to `after`

  datatype Setting = Setting(allowed: seq<string>, before: string, after: string)

  // `create` and `update` count the statements executed: insert the rule, list the datasources, insert the row;
  // and: write the region, delete the rows, list the rules, insert the row.
  datatype Race = Race(
    create: nat, update: nat,
    ruleExists: bool, region: string, row: Option<string>,
    listed: string,         // the region the rule's creation has read
    seesRule: bool,         // whether the region change has read the rule
    listedOld: bool,        // history: the datasources were listed before the region was written
    insertedLate: bool,     // history: the creation inserted after the old rows were deleted
    insertedFirst: bool)    // history: and before the region change inserted

  function Create(s: Race, x: Setting): Race {
    if s.create == 0 then s.(create := 1, ruleExists := true)
    else if s.create == 1 then s.(create := 2, listed := s.region, listedOld := s.update == 0)
    else s.(create := 3, row := InsertRow(s.row, x.allowed, s.listed),
            insertedLate := s.update >= 2, insertedFirst := s.update < 4)
  }

  function Update(s: Race, x: Setting): Race {
    if s.update == 0 then s.(update := 1, region := x.after)
    else if s.update == 1 then s.(update := 2, row := None)
    else if s.update == 2 then s.(update := 3, seesRule := s.ruleExists)
    else s.(update := 4, row := if s.seesRule then InsertRow(s.row, x.allowed, x.after) else s.row)
  }

  predicate CanRun(s: Race, turn: Turn) {
    if turn == Left then s.create < 3 else s.update < 4
  }

  function Next(s: Race, turn: Turn, x: Setting): Race {
    if turn == Left then Create(s, x) else Update(s, x)
  }

  /** Without the rule there is no row. */
  function Start(x: Setting): Race {
    Race(0, 0, false, x.before, None, "", false, false, false, false)
  }

  predicate Run(states: seq<Race>, turns: seq<Turn>, x: Setting) {
    && |states| == |turns| + 1
    && states[0] == Start(x)
    && forall i | 0 <= i < |turns| :: CanRun(states[i], turns[i]) && states[i + 1] == Next(states[i], turns[i], x)
  }

  function RowOfUpdate(s: Race, x: Setting): Option<string> {
    if s.update == 4 && s.seesRule then Right(x.allowed, x.after) else None
  }

  predicate RowIs(s: Race, x: Setting) {
    if s.create < 3 then s.row == RowOfUpdate(s, x)
    else if !s.insertedLate then s.row == if s.update < 2 then Right(x.allowed, s.listed) else RowOfUpdate(s, x)
    else if s.insertedFirst then
      var late := Right(x.allowed, s.listed);
      s.row == if late.Some? then late else RowOfUpdate(s, x)
    else s.row == InsertRow(RowOfUpdate(s, x), x.allowed, s.listed)
  }

  predicate Inv(s: Race, x: Setting) {
    && s.create <= 3 && s.update <= 4
    && s.region == (if s.update == 0 then x.before else x.after)
    && s.ruleExists == (s.create >= 1)
    && (s.create >= 2 ==> s.listed == if s.listedOld then x.before else x.after)
    && (s.create >= 2 && !s.listedOld ==> s.update >= 1)
    && (s.create >= 2 && s.listedOld && s.update >= 3 ==> s.seesRule)
    && (s.create == 3 && !s.insertedLate && s.update >= 3 ==> s.seesRule)
    && (s.create == 3 && s.insertedLate ==> s.update >= 2)
    && (s.create == 3 && !s.insertedFirst ==> s.insertedLate && s.update == 4)
    && RowIs(s, x)
  }

  lemma InvStep(s: Race, turn: Turn, x: Setting)
    requires Inv(s, x) && CanRun(s, turn)
    ensures Inv(Next(s, turn, x), x)
  {
  }

  lemma {:induction false} RunsKeepInv(states: seq<Race>, turns: seq<Turn>, x: Setting)
    requires Run(states, turns, x)
    ensures Inv(states[|turns|], x)
    decreases |turns|
  {
    hide Inv, Next, CanRun;
    var n := |turns|;
    if n == 0 {
      StartsWell(x);
    } else {
      assert Run(states[..n], turns[..n - 1], x);
      RunsKeepInv(states[..n], turns[..n - 1], x);
      assert states[..n][n - 1] == states[n - 1];
      InvStep(states[n - 1], turns[n - 1], x);
    }
  }

  lemma StartsWell(x: Setting)
    ensures Inv(Start(x), x)
  {
  }

  /** When both requests are done the row is wrong exactly when the creation listed the datasource before its
      region was written, inserted after the old rows were deleted, found the old region outside the rule, and
      either came before the other insert or met none because the new region is allowed. */
  lemma CreateRaceBreaksIff(states: seq<Race>, turns: seq<Turn>, x: Setting)
    requires Run(states, turns, x) && states[|turns|].create == 3 && states[|turns|].update == 4
    ensures var s := states[|turns|];
            s.row != Right(x.allowed, x.after) <==>
              && s.listedOld && s.insertedLate
              && x.before != x.after && Outside(x.allowed, x.before)
              && (s.insertedFirst || !Outside(x.allowed, x.after))
  {
    RunsKeepInv(states, turns, x);
  }

  /** Such a run: a rule for "eu" is created while the datasource moves there from "us", and "us" is stored. */
  lemma CreateRaceStoresOldRegion() returns (states: seq<Race>, turns: seq<Turn>)
    ensures var x := Setting(["eu"], "us", "eu");
            && Run(states, turns, x) && states[|turns|].create == 3 && states[|turns|].update == 4
            && states[|turns|].region == "eu" && states[|turns|].row == Some("us")
  {
    var x := Setting(["eu"], "us", "eu");
    var a := Start(x);
    var b := Create(Create(a, x), x);
    var c := Update(Update(b, x), x);
    var d := Update(Update(c, x), x);
    turns := [Left, Left, Other, Other, Other, Other, Left];
    states := [a, Create(a, x), b, Update(b, x), c, Update(c, x), d, Create(d, x)];
    assert "eu" in ["eu"] && "us" !in ["eu"];
  }

  // ---- two changes of the region, to `first` and to `second`, the latter written last

  datatype Change = Change(allowed: seq<string>, first: string, second: string)

  // Each change writes the region, deletes the rows and inserts its row.
  datatype Duel = Duel(
    one: nat, two: nat, row: Option<string>,
    oneDeletedLast: bool,     // history: the first change deleted after the second had inserted
    oneInsertedLate: bool,    // history: the first change inserted after the second had deleted
    oneInsertedFirst: bool)   // history: and before the second inserted

  function One(s: Duel, x: Change): Duel {
    if s.one == 0 then s.(one := 1)
    else if s.one == 1 then s.(one := 2, row := None, oneDeletedLast := s.two == 3)
    else s.(one := 3, row := InsertRow(s.row, x.allowed, x.first), oneInsertedLate := s.two >= 2,
            oneInsertedFirst := s.two < 3)
  }

  function Two(s: Duel, x: Change): Duel {
    if s.two == 0 then s.(two := 1)
    else if s.two == 1 then s.(two := 2, row := None)
    else s.(two := 3, row := InsertRow(s.row, x.allowed, x.second))
  }

  predicate CanMove(s: Duel, turn: Turn) {
    if turn == Left then s.one < 3 else s.one >= 1 && s.two < 3
  }

  function Move(s: Duel, turn: Turn, x: Change): Duel {
    if turn == Left then One(s, x) else Two(s, x)
  }

  predicate DuelRun(states: seq<Duel>, turns: seq<Turn>, x: Change, row: Option<string>) {
    && |states| == |turns| + 1
    && states[0] == Duel(0, 0, row, false, false, false)
    && forall i | 0 <= i < |turns| :: CanMove(states[i], turns[i]) && states[i + 1] == Move(states[i], turns[i], x)
  }

  /** The row once both changes have deleted: what was inserted since, the earlier insert first. */
  function Survivor(s: Duel, x: Change): Option<string> {
    var one, two := Right(x.allowed, x.first), Right(x.allowed, x.second);
    if s.oneDeletedLast then (if s.one == 3 then one else None)
    else if s.two < 3 then (if s.one == 3 && s.oneInsertedLate then one else None)
    else if s.one < 3 || !s.oneInsertedLate then two
    else if s.oneInsertedFirst then (if one.Some? then one else two)
    else if two.Some? then two else one
  }

  predicate DuelInv(s: Duel, x: Change) {
    && s.one <= 3 && s.two <= 3
    && (s.oneDeletedLast ==> s.one >= 2 && s.two == 3)
    && (s.one == 3 && s.oneInsertedLate ==> s.two >= 2)
    && (s.one == 3 && !s.oneInsertedLate ==> s.oneInsertedFirst)
    && (s.one == 3 && !s.oneInsertedFirst ==> s.two == 3)
    && (s.one == 3 && s.oneDeletedLast ==> s.oneInsertedLate && !s.oneInsertedFirst)
    && (s.one >= 2 && s.two >= 2 ==> s.row == Survivor(s, x))
    && (s.one < 2 && s.two >= 2 ==> s.row == if s.two == 3 then Right(x.allowed, x.second) else None)
  }

  lemma DuelStep(s: Duel, turn: Turn, x: Change)
    requires DuelInv(s, x) && CanMove(s, turn)
    ensures DuelInv(Move(s, turn, x), x)
  {
  }

  lemma {:induction false} DuelsKeepInv(states: seq<Duel>, turns: seq<Turn>, x: Change, row: Option<string>)
    requires DuelRun(states, turns, x, row)
    ensures DuelInv(states[|turns|], x)
    decreases |turns|
  {
    hide Move, CanMove;
    var n := |turns|;
    if n > 0 {
      assert DuelRun(states[..n], turns[..n - 1], x, row);
      DuelsKeepInv(states[..n], turns[..n - 1], x, row);
      assert states[..n][n - 1] == states[n - 1];
      hide DuelInv;
      DuelStep(states[n - 1], turns[n - 1], x);
    }
  }

  /** Two overlapping changes leave a wrong row exactly when the first-written one deletes after the other has
      inserted and one of the two regions is outside the rule, or when it inserts its outside region after the
      other's delete and before the other's insert, or with no insert of the other to meet. */
  lemma ChangeRaceBreaksIff(states: seq<Duel>, turns: seq<Turn>, x: Change, row: Option<string>)
    requires DuelRun(states, turns, x, row) && states[|turns|].one == 3 && states[|turns|].two == 3
    ensures var s := states[|turns|];
            s.row != Right(x.allowed, x.second) <==>
              && x.first != x.second
              && if s.oneDeletedLast then Outside(x.allowed, x.first) || Outside(x.allowed, x.second)
                 else s.oneInsertedLate && Outside(x.allowed, x.first)
                      && (s.oneInsertedFirst || !Outside(x.allowed, x.second))
  {
    DuelsKeepInv(states, turns, x, row);
  }

  // ---- a change of another column, which writes back the region it has read

  // `edit` reads the datasource and writes it; `change` writes the region `after`, deletes and inserts.
  datatype Edit = Edit(
    edit: nat, change: nat, region: string, row: Option<string>, read: string,
    reverted: bool)   // history: read before the region was written, written back afterwards

  function EditNext(s: Edit, turn: Turn, x: Setting): Edit {
    if turn == Left then
      if s.edit == 0 then s.(edit := 1, read := s.region, reverted := s.change == 0)
      else s.(edit := 2, region := s.read, reverted := s.reverted && s.change >= 1)
    else if s.change == 0 then s.(change := 1, region := x.after)
    else if s.change == 1 then s.(change := 2, row := None)
    else s.(change := 3, row := InsertRow(s.row, x.allowed, x.after))
  }

  predicate EditRun(states: seq<Edit>, turns: seq<Turn>, x: Setting) {
    && |states| == |turns| + 1
    && states[0] == Edit(0, 0, x.before, Right(x.allowed, x.before), "", false)
    && forall i | 0 <= i < |turns| ::
         && (if turns[i] == Left then states[i].edit < 2 else states[i].change < 3)
         && states[i + 1] == EditNext(states[i], turns[i], x)
  }

  predicate EditInv(s: Edit, x: Setting) {
    && s.edit <= 2 && s.change <= 3
    && (s.edit == 1 ==> s.read == (if s.reverted then x.before else x.after))
    && (s.edit == 1 && !s.reverted ==> s.change >= 1)
    && (s.edit == 2 && s.reverted ==> s.change >= 1)
    && s.region == (if s.change == 0 || (s.edit == 2 && s.reverted) then x.before else x.after)
    && s.row == (if s.change < 2 then Right(x.allowed, x.before) else if s.change == 2 then None
                 else Right(x.allowed, x.after))
  }

  lemma {:induction false} EditsKeepInv(states: seq<Edit>, turns: seq<Turn>, x: Setting)
    requires EditRun(states, turns, x)
    ensures EditInv(states[|turns|], x)
    decreases |turns|
  {
    var n := |turns|;
    if n > 0 {
      assert EditRun(states[..n], turns[..n - 1], x);
      EditsKeepInv(states[..n], turns[..n - 1], x);
      assert states[..n][n - 1] == states[n - 1];
    }
  }

  /** A request that sends no region still writes the whole row back: the row and the region disagree afterwards
      exactly when it read the datasource before the other request wrote the new region and wrote it after, and
      the two regions are judged differently or stored differently. */
  lemma EditRaceBreaksIff(states: seq<Edit>, turns: seq<Turn>, x: Setting)
    requires EditRun(states, turns, x) && states[|turns|].edit == 2 && states[|turns|].change == 3
    ensures var s := states[|turns|];
            s.row != Right(x.allowed, s.region) <==>
              s.reverted && x.before != x.after && (Outside(x.allowed, x.before) || Outside(x.allowed, x.after))
  {
    EditsKeepInv(states, turns, x);
  }
}
