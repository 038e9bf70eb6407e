/** components/users/columns.tsx: what each cell of a users-table row shows, and which
    row actions it offers, as functions of the row's User record. */
module Columns {
  import opened JsText
  import opened UserTypes

  /** The short id in the "User ID" cell: `userId.slice(-6).toUpperCase()`, or "N/A"
      for an empty id. */
  function DisplayId(userId: string): (r: string)
    ensures userId == "" ==> r == "N/A"
    ensures userId != "" ==> |r| == if |userId| < 6 then |userId| else 6
  {
    if userId == "" then "N/A"
    else
      var n := if |userId| < 6 then |userId| else 6;
      Upper(userId[|userId| - n..])
  }

  /** The short id is the tail of the id, character by character, with lower-case
      ASCII letters raised: the last |r| characters, never more than six. */
  lemma DisplayIdIsUpperTail(userId: string)
    requires userId != ""
    ensures var r := DisplayId(userId);
            && 1 <= |r| <= 6
            && forall k :: 0 <= k < |r| ==> r[k] == UpperChar(userId[|userId| - |r| + k])
  {
    var r := DisplayId(userId);
    var tail := userId[|userId| - |r|..];
    assert r == Upper(tail);
    forall k | 0 <= k < |r|
      ensures r[k] == UpperChar(userId[|userId| - |r| + k])
    {
      assert tail[k] == userId[|userId| - |r| + k];
    }
  }

  /** What the "Roles" cell shows. */
  datatype RolesCell =
    | NoRoles
    | OneRole(role: string)
    | FirstAndMore(first: string, more: int, all: seq<string>)

  function RolesSummary(roles: Option<seq<string>>): (c: RolesCell)
    ensures c.NoRoles? <==> roles.None? || roles.value == []
    ensures c.OneRole? <==> roles.Some? && |roles.value| == 1
    ensures c.OneRole? ==> c.role == roles.value[0]
    ensures c.FirstAndMore? ==> roles.Some? && |roles.value| > 1
                                && c.first == roles.value[0] && c.more == |roles.value| - 1
                                && c.all == roles.value
  {
    if roles.None? || |roles.value| == 0 then NoRoles
    else if |roles.value| == 1 then OneRole(roles.value[0])
    else FirstAndMore(roles.value[0], |roles.value| - 1, roles.value)
  }

  datatype Tone = Green | Yellow | Gray | Red

  /** getStatusConfig: the badge for a user status. */
  datatype StatusConfig = StatusConfig(text: string, tone: Tone)

  function StatusBadge(status: string): (b: StatusConfig)
    ensures status == "CONFIRMED" ==> b == StatusConfig("Confirmed", Green)
    ensures status == "UNCONFIRMED" ==> b == StatusConfig("Unconfirmed", Yellow)
    ensures status == "ARCHIVED" ==> b == StatusConfig("Archived", Gray)
    ensures status == "COMPROMISED" ==> b == StatusConfig("Compromised", Red)
    ensures status !in {"CONFIRMED", "UNCONFIRMED", "ARCHIVED", "COMPROMISED"} ==>
              b.tone == Gray && b.text == (if status == "" then "Unknown" else status)
  {
    match status
    case "CONFIRMED" => StatusConfig("Confirmed", Green)
    case "UNCONFIRMED" => StatusConfig("Unconfirmed", Yellow)
    case "ARCHIVED" => StatusConfig("Archived", Gray)
    case "COMPROMISED" => StatusConfig("Compromised", Red)
    case _ => StatusConfig(Or(status, "Unknown"), Gray)
  }

  /** A badge label is never empty, so every row shows some status. */
  lemma StatusLabelNonEmpty(status: string)
    ensures StatusBadge(status).text != ""
  {
  }

  // ---------------------------------------------------------------------------
  // Row actions

  /** A control in the "Actions" cell, with the arguments its click passes on. */
  datatype RowAction =
    | Restore(userId: string)
    | Delete(userId: string)
    | Verify(userId: string)
    | UpdateRole(userId: string, roles: seq<string>)
    | UpdateStatus(userId: string)
    | UpdateKyc(userId: string)
    | UpdateFraudRisk(userId: string, risk: string)

  /** The roles argument of "Update Role": `user.roles || ["USER"]`, so only a missing
      list is replaced; an empty list is truthy in JavaScript and passes through. */
  function RoleArgument(roles: Option<seq<string>>): (r: seq<string>)
    ensures roles.None? ==> r == ["USER"]
    ensures roles.Some? ==> r == roles.value
  {
    if roles.None? then ["USER"] else roles.value
  }

  /** Where a control sits in the "Actions" cell: the Restore/Delete button, the
      Verify button, then the More-Actions menu items Update Role, Update Status,
      Verify KYC and Update Fraud Risk. */
  function DisplayRank(a: RowAction): nat
  {
    match a
    case Restore(_) => 0
    case Delete(_) => 0
    case Verify(_) => 1
    case UpdateRole(_, _) => 2
    case UpdateStatus(_) => 3
    case UpdateKyc(_) => 4
    case UpdateFraudRisk(_, _) => 5
  }

  /** The controls offered for a row, in display order: Restore or Delete, then Verify,
      then the items of the More-Actions menu. What each row is offered is stated by
      RowActionsOffered and RowActionsInDisplayOrder below; here, how many there are. */
  function RowActions(u: User): (acts: seq<RowAction>)
    ensures |acts| == if u.deleteStatus.isDeleted then 1
                      else 4 + (if u.userStatus != "CONFIRMED" then 1 else 0) + (if u.kycVerified then 0 else 1)
  {
    var id := u.userId;
    if u.deleteStatus.isDeleted then [Restore(id)]
    else
      [Delete(id)]
      + (if u.userStatus != "CONFIRMED" then [Verify(id)] else [])
      + [UpdateRole(id, RoleArgument(u.roles)), UpdateStatus(id)]
      + (if !u.kycVerified then [UpdateKyc(id)] else [])
      + [UpdateFraudRisk(id, u.fraudRisk)]
  }

  /** Ranks that rise from each control to the next rise across any two of them. */
  lemma {:induction false} RisingRanks(acts: seq<RowAction>)
    requires forall k :: 0 <= k < |acts| - 1 ==> DisplayRank(acts[k]) < DisplayRank(acts[k + 1])
    ensures forall i, j :: 0 <= i < j < |acts| ==> DisplayRank(acts[i]) < DisplayRank(acts[j])
  {
    if |acts| > 1 {
      RisingRanks(acts[1..]);
      forall i, j | 0 <= i < j < |acts|
        ensures DisplayRank(acts[i]) < DisplayRank(acts[j])
      {
        if i > 0 {
          assert acts[i] == acts[1..][i - 1] && acts[j] == acts[1..][j - 1];
        } else if j > 1 {
          assert acts[1] == acts[1..][0] && acts[j] == acts[1..][j - 1];
        }
      }
    }
  }

  /** The Actions cell of a live row, one lemma per combination of the Verify and
      Verify KYC conditions. */
  lemma UnconfirmedPendingKycRow(u: User)
    requires !u.deleteStatus.isDeleted && u.userStatus != "CONFIRMED" && !u.kycVerified
    ensures RowActions(u) == [Delete(u.userId), Verify(u.userId), UpdateRole(u.userId, RoleArgument(u.roles)),
                              UpdateStatus(u.userId), UpdateKyc(u.userId), UpdateFraudRisk(u.userId, u.fraudRisk)]
  {
  }

  lemma UnconfirmedKycVerifiedRow(u: User)
    requires !u.deleteStatus.isDeleted && u.userStatus != "CONFIRMED" && u.kycVerified
    ensures RowActions(u) == [Delete(u.userId), Verify(u.userId), UpdateRole(u.userId, RoleArgument(u.roles)),
                              UpdateStatus(u.userId), UpdateFraudRisk(u.userId, u.fraudRisk)]
  {
  }

  lemma ConfirmedPendingKycRow(u: User)
    requires !u.deleteStatus.isDeleted && u.userStatus == "CONFIRMED" && !u.kycVerified
    ensures RowActions(u) == [Delete(u.userId), UpdateRole(u.userId, RoleArgument(u.roles)),
                              UpdateStatus(u.userId), UpdateKyc(u.userId), UpdateFraudRisk(u.userId, u.fraudRisk)]
  {
  }

  lemma ConfirmedKycVerifiedRow(u: User)
    requires !u.deleteStatus.isDeleted && u.userStatus == "CONFIRMED" && u.kycVerified
    ensures RowActions(u) == [Delete(u.userId), UpdateRole(u.userId, RoleArgument(u.roles)),
                              UpdateStatus(u.userId), UpdateFraudRisk(u.userId, u.fraudRisk)]
  {
  }

  /** On a live row the controls run from Delete to Update Fraud Risk, each ranked
      after the one before it. */
  lemma LiveRowNeighbours(u: User)
    requires !u.deleteStatus.isDeleted
    ensures var acts := RowActions(u);
      |acts| >= 2 && acts[0] == Delete(u.userId)
      && acts[|acts| - 1] == UpdateFraudRisk(u.userId, u.fraudRisk)
      && forall k :: 0 <= k < |acts| - 1 ==> DisplayRank(acts[k]) < DisplayRank(acts[k + 1])
  {
    if u.userStatus != "CONFIRMED" {
      if !u.kycVerified { UnconfirmedPendingKycRow(u); } else { UnconfirmedKycVerifiedRow(u); }
    } else {
      if !u.kycVerified { ConfirmedPendingKycRow(u); } else { ConfirmedKycVerifiedRow(u); }
    }
  }

  /** The controls come in display order, each at most once: Restore or Delete first,
      Update Fraud Risk last on a live row. */
  lemma RowActionsInDisplayOrder(u: User)
    ensures var acts := RowActions(u);
      |acts| >= 1
      && acts[0] == (if u.deleteStatus.isDeleted then Restore(u.userId) else Delete(u.userId))
      && (!u.deleteStatus.isDeleted ==> acts[|acts| - 1] == UpdateFraudRisk(u.userId, u.fraudRisk))
      && (forall i, j :: 0 <= i < j < |acts| ==> DisplayRank(acts[i]) < DisplayRank(acts[j]))
      && (forall i, j :: 0 <= i < j < |acts| ==> acts[i] != acts[j])
  {
    var acts := RowActions(u);
    if u.deleteStatus.isDeleted {
      assert acts == [Restore(u.userId)];
    } else {
      LiveRowNeighbours(u);
      RisingRanks(acts);
    }
  }

  /** Which controls a row is offered: Restore exactly on a deleted row; Delete, the
      status, role and fraud-risk items exactly on a live one; Verify only for a live
      user not yet CONFIRMED; Verify KYC only while KYC is pending. */
  lemma RowActionsOffered(u: User)
    ensures var acts := RowActions(u);
      (Restore(u.userId) in acts <==> u.deleteStatus.isDeleted)
      && (Delete(u.userId) in acts <==> !u.deleteStatus.isDeleted)
      && (Verify(u.userId) in acts <==> !u.deleteStatus.isDeleted && u.userStatus != "CONFIRMED")
      && (UpdateStatus(u.userId) in acts <==> !u.deleteStatus.isDeleted)
      && (UpdateRole(u.userId, RoleArgument(u.roles)) in acts <==> !u.deleteStatus.isDeleted)
      && (UpdateFraudRisk(u.userId, u.fraudRisk) in acts <==> !u.deleteStatus.isDeleted)
      && (UpdateKyc(u.userId) in acts <==> !u.deleteStatus.isDeleted && !u.kycVerified)
  {
    if u.deleteStatus.isDeleted {
      DeletedRowOnlyRestores(u);
    } else if u.userStatus != "CONFIRMED" {
      if !u.kycVerified { UnconfirmedPendingKycRow(u); } else { UnconfirmedKycVerifiedRow(u); }
    } else {
      if !u.kycVerified { ConfirmedPendingKycRow(u); } else { ConfirmedKycVerifiedRow(u); }
    }
  }

  /** Every control carries the row's id, and the role and risk items carry the row's
      current roles and risk. */
  lemma RowActionArguments(u: User)
    ensures forall a :: a in RowActions(u) ==>
              a.userId == u.userId
              && (a.UpdateRole? ==> a.roles == RoleArgument(u.roles))
              && (a.UpdateFraudRisk? ==> a.risk == u.fraudRisk)
  {
    if u.deleteStatus.isDeleted {
      DeletedRowOnlyRestores(u);
    } else if u.userStatus != "CONFIRMED" {
      if !u.kycVerified { UnconfirmedPendingKycRow(u); } else { UnconfirmedKycVerifiedRow(u); }
    } else {
      if !u.kycVerified { ConfirmedPendingKycRow(u); } else { ConfirmedKycVerifiedRow(u); }
    }
  }

  /** Exactly one of Restore and Delete is offered for every row. */
  lemma RestoreXorDelete(u: User)
    ensures (Restore(u.userId) in RowActions(u)) != (Delete(u.userId) in RowActions(u))
  {
    RowActionsOffered(u);
  }

  /** A deleted row offers Restore and nothing else. */
  lemma DeletedRowOnlyRestores(u: User)
    requires u.deleteStatus.isDeleted
    ensures RowActions(u) == [Restore(u.userId)]
    ensures forall a :: a in RowActions(u) ==> a == Restore(u.userId)
  {
    assert RowActions(u) == [Restore(u.userId)];
  }

  // ---------------------------------------------------------------------------
  // Created / updated cell

  /** The badge beside the creation date: `createdBy || "System"`. */
  function CreatedByLabel(u: User): (badge: string)
    ensures badge != ""
    ensures u.createdBy != "" ==> badge == u.createdBy
    ensures u.createdBy == "" ==> badge == "System"
  {
    Or(u.createdBy, "System")
  }

  /** Whether the "Updated: ..." line appears under the creation date: only for a
      record with an update time different from its creation time. */
  function ShowsUpdated(u: User): (shown: bool)
    ensures shown ==> u.updatedAt != "" && u.updatedAt != u.createdAt
    ensures u.updatedAt != "" && u.updatedAt != u.createdAt ==> shown
  {
    u.updatedAt != "" && u.updatedAt != u.createdAt
  }

  /** A record never updated since creation (same timestamp) shows no "Updated" line. */
  lemma UnchangedRecordHidesUpdated(u: User)
    requires u.updatedAt == u.createdAt
    ensures !ShowsUpdated(u)
  {
  }
}
