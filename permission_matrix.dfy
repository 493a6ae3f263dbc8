/**
 * The role permission matrix: for each role its permission flags in key order, one cell
 * changed per checkbox click, and the "enabled/total" summary of each role.
 */
module PermissionMatrix {
  import opened Seqs

  /** One permission flag of a role. */
  datatype Flag = Flag(perm: string, on: bool)

  /** One role's flags, in the order of the object's keys. */
  type Row = seq<Flag>

  /** The matrix, keyed by role id. */
  type Matrix = map<string, Row>

  const AdminRow: Row := [
    Flag("user_management", true), Flag("team_scheduling", true), Flag("media_library", true),
    Flag("communication", true), Flag("system_settings", true), Flag("reports", true),
    Flag("bulk_actions", true), Flag("export_data", true)]

  const MediaLeadRow: Row := [
    Flag("user_management", false), Flag("team_scheduling", true), Flag("media_library", true),
    Flag("communication", true), Flag("system_settings", false), Flag("reports", true),
    Flag("bulk_actions", true), Flag("export_data", true)]

  const VolunteerRow: Row := [
    Flag("user_management", false), Flag("team_scheduling", false), Flag("media_library", false),
    Flag("communication", false), Flag("system_settings", false), Flag("reports", false),
    Flag("bulk_actions", false), Flag("export_data", false)]

  /** The matrix the dialog starts from. */
  const InitialPermissions: Matrix := map["admin" := AdminRow, "media_lead" := MediaLeadRow, "volunteer" := VolunteerRow]

  /** The keys of a row, in order. */
  function Keys(row: Row): (ks: seq<string>)
    ensures |ks| == |row| && forall i :: 0 <= i < |row| ==> ks[i] == row[i].perm
  {
    Map(row, (f: Flag) => f.perm)
  }

  /** `row[perm]` read as a checkbox: a missing key is unticked. */
  function Get(row: Row, perm: string): (b: bool)
    ensures b ==> perm in Keys(row)
  {
    if row == [] then false
    else if row[0].perm == perm then row[0].on
    else Get(row[1..], perm)
  }

  /** `{ ...row, [perm]: v }`: an existing key keeps its place, a new one goes last. */
  function Put(row: Row, perm: string, v: bool): (r: Row)
    ensures Get(r, perm) == v
    ensures forall q :: q != perm ==> Get(r, q) == Get(row, q)
    ensures perm in Keys(row) ==> Keys(r) == Keys(row)
    ensures perm !in Keys(row) ==> r == row + [Flag(perm, v)]
  {
    if row == [] then [Flag(perm, v)]
    else if row[0].perm == perm then [Flag(perm, v)] + row[1..]
    else
      var rest := Put(row[1..], perm, v);
      assert Keys(row) == [row[0].perm] + Keys(row[1..]);
      assert Keys([row[0]] + rest) == [row[0].perm] + Keys(rest);
      [row[0]] + rest
  }

  /** A row read as a checkbox per key; the keys of a JavaScript object are distinct. */
  ghost predicate ValidRow(row: Row) {
    NoDuplicates(Keys(row))
  }

  /** Putting a key keeps the keys distinct. */
  lemma {:induction false} PutKeepsValid(row: Row, perm: string, v: bool)
    requires ValidRow(row)
    ensures ValidRow(Put(row, perm, v))
  {
    var r := Put(row, perm, v);
    if perm !in Keys(row) {
      assert Keys(r) == Keys(row) + [perm];
    }
  }

  /** A checkbox is ticked when the role's row has the permission set to true. */
  predicate Cell(m: Matrix, role: string, perm: string) {
    role in m && Get(m[role], perm)
  }

  /** The role's row, or the empty row that spreading `undefined` gives. */
  function RowOf(m: Matrix, role: string): Row {
    if role in m then m[role] else []
  }

  /** `handlePermissionChange(role, permission, checked)`: the role's row with that one key put. */
  function Change(m: Matrix, role: string, perm: string, checked: bool): (r: Matrix)
    ensures r.Keys == m.Keys + {role}
    ensures r[role] == Put(RowOf(m, role), perm, checked)
    ensures forall other :: other in m && other != role ==> r[other] == m[other]
  {
    m[role := Put(RowOf(m, role), perm, checked)]
  }

  /** The changed cell reads as the new value and every other cell as before. */
  lemma ChangeSetsOneCell(m: Matrix, role: string, perm: string, checked: bool, ro: string, pe: string)
    ensures Cell(Change(m, role, perm, checked), ro, pe) ==
      (if ro == role && pe == perm then checked else Cell(m, ro, pe))
  {
  }

  /** Putting the value a key already has gives back the same row. */
  lemma {:induction false} PutSameValue(row: Row, perm: string)
    requires perm in Keys(row) && ValidRow(row)
    ensures Put(row, perm, Get(row, perm)) == row
  {
    if row[0].perm != perm {
      assert Keys(row) == [row[0].perm] + Keys(row[1..]);
      assert NoDuplicates(Keys(row[1..])) by {
        assert forall i :: 0 <= i < |row| - 1 ==> Keys(row[1..])[i] == Keys(row)[i + 1];
      }
      PutSameValue(row[1..], perm);
    }
  }

  /** Putting a key twice is putting it once. */
  lemma {:induction false} PutTwice(row: Row, perm: string, v: bool)
    ensures Put(Put(row, perm, v), perm, v) == Put(row, perm, v)
  {
    if row != [] && row[0].perm != perm {
      PutTwice(row[1..], perm, v);
    }
  }

  /** Repeating a click is clicking once. */
  lemma ChangeIdempotent(m: Matrix, role: string, perm: string, checked: bool)
    ensures Change(Change(m, role, perm, checked), role, perm, checked) == Change(m, role, perm, checked)
  {
    var once := Change(m, role, perm, checked);
    assert RowOf(once, role) == Put(RowOf(m, role), perm, checked);
    PutTwice(RowOf(m, role), perm, checked);
    assert once[role := Put(RowOf(once, role), perm, checked)] == once;
  }

  /** Clicking a listed cell to the value it already has gives back the same matrix. */
  lemma ChangeToSameValue(m: Matrix, role: string, perm: string)
    requires role in m && ValidRow(m[role]) && perm in Keys(m[role])
    ensures Change(m, role, perm, Get(m[role], perm)) == m
  {
    PutSameValue(m[role], perm);
    assert m[role := m[role]] == m;
  }

  // ---------------------------------------------------------------------
  // The summary

  /** `Object.values(row).filter(Boolean).length`. */
  function EnabledCount(row: Row): (n: nat)
    ensures n <= |row|
  {
    if row == [] then 0 else (if row[0].on then 1 else 0) + EnabledCount(row[1..])
  }

  /** `Object.keys(row).length`. */
  function TotalCount(row: Row): nat {
    |row|
  }

  /**
   * On a listed permission, ticking an unticked box adds one to the role's enabled count,
   * unticking a ticked one takes one away, and the total stays.
   */
  lemma {:induction false} PutCounts(row: Row, perm: string, v: bool)
    requires perm in Keys(row) && ValidRow(row)
    ensures TotalCount(Put(row, perm, v)) == TotalCount(row)
    ensures EnabledCount(Put(row, perm, v)) ==
      EnabledCount(row) + (if v && !Get(row, perm) then 1 else 0) - (if !v && Get(row, perm) then 1 else 0)
  {
    if row[0].perm != perm {
      assert Keys(row) == [row[0].perm] + Keys(row[1..]);
      assert NoDuplicates(Keys(row[1..])) by {
        assert forall i :: 0 <= i < |row| - 1 ==> Keys(row[1..])[i] == Keys(row)[i + 1];
      }
      PutCounts(row[1..], perm, v);
      assert Put(row, perm, v)[1..] == Put(row[1..], perm, v);
    } else {
      assert Put(row, perm, v)[1..] == row[1..];
    }
  }

  /** The summary of the changed role after a click, from the summary before it. */
  lemma ChangeCounts(m: Matrix, role: string, perm: string, checked: bool)
    requires role in m && ValidRow(m[role]) && perm in Keys(m[role])
    ensures var row := Change(m, role, perm, checked)[role];
      && TotalCount(row) == TotalCount(m[role])
      && EnabledCount(row) == EnabledCount(m[role])
           + (if checked && !Get(m[role], perm) then 1 else 0) - (if !checked && Get(m[role], perm) then 1 else 0)
  {
    PutCounts(m[role], perm, checked);
  }

  /** The summary the dialog opens with: admin 8/8, media lead 6/8, volunteer 0/8. */
  lemma InitialSummary()
    ensures EnabledCount(AdminRow) == 8 && TotalCount(AdminRow) == 8
    ensures EnabledCount(MediaLeadRow) == 6 && TotalCount(MediaLeadRow) == 8
    ensures EnabledCount(VolunteerRow) == 0 && TotalCount(VolunteerRow) == 8
  {
    AdminSummary();
    MediaLeadSummary();
    VolunteerSummary();
  }

  lemma AdminSummary()
    ensures EnabledCount(AdminRow) == 8 && TotalCount(AdminRow) == 8
  {
  }

  lemma MediaLeadSummary()
    ensures EnabledCount(MediaLeadRow) == 6 && TotalCount(MediaLeadRow) == 8
  {
  }

  lemma VolunteerSummary()
    ensures EnabledCount(VolunteerRow) == 0 && TotalCount(VolunteerRow) == 8
  {
  }

  /** Every row of the matrix has distinct keys. */
  ghost predicate ValidMatrix(m: Matrix) {
    forall role :: role in m ==> ValidRow(m[role])
  }

  /** The permission ids of every initial row, which start with eight different letters. */
  const PermissionIds: seq<string> := [
    "user_management", "team_scheduling", "media_library", "communication",
    "system_settings", "reports", "bulk_actions", "export_data"]

  lemma PermissionIdsDistinct()
    ensures NoDuplicates(PermissionIds)
  {
    var initials := "utmcsrbe";
    assert forall i :: 0 <= i < 8 ==> |PermissionIds[i]| > 0 && PermissionIds[i][0] == initials[i];
    forall i, j | 0 <= i < j < |PermissionIds| ensures PermissionIds[i] != PermissionIds[j] {
      assert initials[i] != initials[j];
    }
  }

  /** A row whose keys are the eight ids is valid. */
  lemma RowOverIdsValid(row: Row)
    requires |row| == |PermissionIds| && forall i :: 0 <= i < |row| ==> row[i].perm == PermissionIds[i]
    ensures ValidRow(row)
  {
    PermissionIdsDistinct();
    assert Keys(row) == PermissionIds;
  }

  lemma AdminRowValid()
    ensures ValidRow(AdminRow)
  {
    RowOverIdsValid(AdminRow);
  }

  lemma MediaLeadRowValid()
    ensures ValidRow(MediaLeadRow)
  {
    RowOverIdsValid(MediaLeadRow);
  }

  lemma VolunteerRowValid()
    ensures ValidRow(VolunteerRow)
  {
    RowOverIdsValid(VolunteerRow);
  }

  /** A matrix of the three roles is valid when each of its rows is. */
  lemma ThreeRolesValid(admin: Row, mediaLead: Row, volunteer: Row)
    requires ValidRow(admin) && ValidRow(mediaLead) && ValidRow(volunteer)
    ensures ValidMatrix(map["admin" := admin, "media_lead" := mediaLead, "volunteer" := volunteer])
  {
  }

  /** The initial matrix is a valid one. */
  lemma InitialValid()
    ensures ValidMatrix(InitialPermissions)
  {
    AdminRowValid();
    MediaLeadRowValid();
    VolunteerRowValid();
    ThreeRolesValid(AdminRow, MediaLeadRow, VolunteerRow);
  }

  class Dialog {
    var permissions: Matrix

    /** The matrix starts at the initial grants and is kept while the dialog is closed. */
    constructor ()
      ensures permissions == InitialPermissions && ValidMatrix(permissions)
    {
      permissions := InitialPermissions;
      InitialValid();
    }

    method PermissionChange(role: string, perm: string, checked: bool)
      modifies this
      ensures permissions == Change(old(permissions), role, perm, checked)
      ensures ValidMatrix(old(permissions)) ==> ValidMatrix(permissions)
    {
      if ValidMatrix(permissions) {
        PutKeepsValid(RowOf(permissions, role), perm, checked);
      }
      permissions := Change(permissions, role, perm, checked);
    }

    /** `handleSave`: the whole matrix is handed to `onSave`, unchanged, before the dialog closes. */
    method Save() returns (saved: Matrix)
      ensures saved == permissions
    {
      saved := permissions;
    }
  }
}
