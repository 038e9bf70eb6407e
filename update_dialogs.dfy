/** components/users/update-dialogs.tsx: the roles, fraud-risk and status dialogs of
    the users page. Each keeps one piece of state, its current selection; the roles
    dialog edits it by toggling roles, the other two by picking one option. */
module UpdateDialogs {
  import opened JsText
  import Columns

  // ---------------------------------------------------------------------------
  // Role toggling

  /** The role checkboxes offered, in display order. */
  const AvailableRoles: seq<string> := ["USER", "ADMIN", "SUPPORT", "MODERATOR", "MANAGER"]

  /** `roles.filter(r => r !== role)`: every occurrence of `role` dropped, the other
      entries kept with their multiplicities. */
  function RemoveAll(roles: seq<string>, role: string): (r: seq<string>)
    ensures role !in r
    ensures multiset(r) == multiset(roles)[role := 0]
    ensures role !in roles ==> r == roles
  {
    if roles == [] then []
    else
      var rest := RemoveAll(roles[1..], role);
      assert roles == [roles[0]] + roles[1..];
      if roles[0] == role then rest else [roles[0]] + rest
  }

  /** The filter works entry by entry: on a one-element list it keeps the entry or
      drops it, ... */
  lemma RemoveAllSingle(x: string, role: string)
    ensures RemoveAll([x], role) == if x == role then [] else [x]
  {
    assert [x][1..] == [];
  }

  /** ... and on a concatenation it filters each part in place, so the kept roles stay
      in their original order. */
  lemma {:induction false} RemoveAllConcat(a: seq<string>, b: seq<string>, role: string)
    ensures RemoveAll(a + b, role) == RemoveAll(a, role) + RemoveAll(b, role)
  {
    if a == [] {
      assert a + b == b;
    } else {
      assert (a + b)[0] == a[0];
      assert (a + b)[1..] == a[1..] + b;
      RemoveAllConcat(a[1..], b, role);
    }
  }

  /** handleRoleToggle: a selected role is removed (every copy of it), an unselected
      one is appended at the end. */
  function ToggleRole(selected: seq<string>, role: string): (next: seq<string>)
    ensures role in selected ==> next == RemoveAll(selected, role)
    ensures role in selected ==> role !in next && multiset(next) == multiset(selected)[role := 0]
    ensures role !in selected ==> next == selected + [role]
  {
    if role in selected then RemoveAll(selected, role) else selected + [role]
  }

  /** Dropping a role that was appended to a list without it gives the list back. */
  lemma {:induction false} RemoveAppended(roles: seq<string>, role: string)
    requires role !in roles
    ensures RemoveAll(roles + [role], role) == roles
  {
    if roles != [] {
      var appended := roles + [role];
      assert appended[0] == roles[0] && roles[0] != role;
      assert appended[1..] == roles[1..] + [role];
      RemoveAppended(roles[1..], role);
      assert RemoveAll(appended, role) == [roles[0]] + RemoveAll(appended[1..], role);
      assert roles == [roles[0]] + roles[1..];
    } else {
      assert RemoveAll([role], role) == RemoveAll([], role);
    }
  }

  /** Unticking a middle role keeps the others in order. */
  lemma UntickMiddleKeepsOrder()
    ensures ToggleRole(["USER", "ADMIN", "SUPPORT"], "ADMIN") == ["USER", "SUPPORT"]
  {
    var roles: seq<string> := ["USER", "ADMIN", "SUPPORT"];
    assert roles[1] == "ADMIN";
    assert roles[1..] == ["ADMIN", "SUPPORT"] && roles[1..][1..] == ["SUPPORT"];
    assert RemoveAll(["SUPPORT"], "ADMIN") == ["SUPPORT"] by {
      RemoveAllSingle("SUPPORT", "ADMIN");
    }
    assert RemoveAll(roles[1..], "ADMIN") == ["SUPPORT"];
    assert RemoveAll(roles, "ADMIN") == ["USER"] + ["SUPPORT"];
  }

  /** Ticking an unticked role and unticking it again restores the exact selection. */
  lemma ToggleAbsentTwice(selected: seq<string>, role: string)
    requires role !in selected
    ensures ToggleRole(ToggleRole(selected, role), role) == selected
  {
    RemoveAppended(selected, role);
  }

  /** Unticking a ticked role and ticking it again keeps the same set of roles (the role
      moves to the end). */
  lemma TogglePresentTwice(selected: seq<string>, role: string)
    requires role in selected
    ensures var twice := ToggleRole(ToggleRole(selected, role), role);
            (forall r :: r in twice <==> r in selected) && twice[|twice| - 1] == role
  {
    var once := ToggleRole(selected, role);
    var twice := ToggleRole(once, role);
    assert twice == once + [role];
    forall r
      ensures r in twice <==> r in selected
    {
      if r != role {
        assert r in once <==> r in multiset(once);
        assert r in selected <==> r in multiset(selected);
      }
    }
  }

  predicate NoDuplicates(s: seq<string>)
  {
    forall i, j :: 0 <= i < j < |s| ==> s[i] != s[j]
  }

  lemma {:induction false} RemoveAllKeepsNoDuplicates(roles: seq<string>, role: string)
    requires NoDuplicates(roles)
    ensures NoDuplicates(RemoveAll(roles, role))
  {
    if roles != [] {
      var rest := RemoveAll(roles[1..], role);
      assert NoDuplicates(roles[1..]) by {
        forall i, j | 0 <= i < j < |roles[1..]|
          ensures roles[1..][i] != roles[1..][j]
        {
          assert roles[1..][i] == roles[i + 1] && roles[1..][j] == roles[j + 1];
        }
      }
      RemoveAllKeepsNoDuplicates(roles[1..], role);
      if roles[0] != role {
        assert roles[0] !in roles[1..];
        assert roles[0] !in multiset(rest) by {
          assert multiset(rest)[roles[0]] == multiset(roles[1..])[roles[0]];
        }
        var r := [roles[0]] + rest;
        forall i, j | 0 <= i < j < |r|
          ensures r[i] != r[j]
        {
          if i == 0 {
            assert r[j] == rest[j - 1];
            assert r[j] in multiset(rest);
          }
        }
      }
    }
  }

  /** A duplicate-free selection stays duplicate-free under toggling. */
  lemma TogglePreservesNoDuplicates(selected: seq<string>, role: string)
    requires NoDuplicates(selected)
    ensures NoDuplicates(ToggleRole(selected, role))
  {
    if role in selected {
      RemoveAllKeepsNoDuplicates(selected, role);
    } else {
      var next := selected + [role];
      forall i, j | 0 <= i < j < |next|
        ensures next[i] != next[j]
      {
        if j == |selected| {
          assert next[i] == selected[i];
        }
      }
    }
  }

  // ---------------------------------------------------------------------------
  // Submit validation

  /** What a handleSubmit does: refuse with an error toast, or pass the selection on to
      onUpdate. */
  datatype Submission<T> = Rejected(message: string) | Forwarded(value: T)

  function RolesSubmit(selected: seq<string>): (s: Submission<seq<string>>)
    ensures s.Rejected? <==> selected == []
    ensures s.Rejected? ==> s.message == "Please select at least one role"
    ensures s.Forwarded? ==> s.value == selected
  {
    if |selected| == 0 then Rejected("Please select at least one role") else Forwarded(selected)
  }

  /** The two single-choice dialogs. */
  datatype ChoiceKind = RiskChoice | StatusChoice

  /** The error toast of a single-choice dialog submitted with nothing chosen. */
  function EmptyChoiceMessage(kind: ChoiceKind): string
  {
    match kind
    case RiskChoice => "Please select a fraud risk level"
    case StatusChoice => "Please select a status"
  }

  /** `if (!selected) reject; else onUpdate(selected)`: only the empty string is falsy. */
  function ChoiceSubmit(kind: ChoiceKind, selected: string): (s: Submission<string>)
    ensures s.Rejected? <==> selected == ""
    ensures s.Rejected? ==> s.message == EmptyChoiceMessage(kind)
    ensures s.Forwarded? ==> s.value == selected
  {
    if selected == "" then Rejected(EmptyChoiceMessage(kind)) else Forwarded(selected)
  }

  /** The Update Roles button: disabled while the update runs or nothing is selected,
      that is exactly when a click could not reach onUpdate. */
  function RolesSubmitDisabled(isLoading: bool, selected: seq<string>): (disabled: bool)
    ensures disabled <==> isLoading || RolesSubmit(selected).Rejected?
  {
    isLoading || |selected| == 0
  }

  /** The Update Risk Level / Update Status button, likewise. */
  function ChoiceSubmitDisabled(isLoading: bool, kind: ChoiceKind, selected: string): (disabled: bool)
    ensures disabled <==> isLoading || ChoiceSubmit(kind, selected).Rejected?
  {
    isLoading || selected == ""
  }

  // ---------------------------------------------------------------------------
  // Option tables

  /** One entry of a select: the value sent and the label shown. */
  datatype Choice = Choice(value: string, caption: string)

  const RiskLevels: seq<Choice> := [
    Choice("LOW", "Low Risk"),
    Choice("MEDIUM", "Medium Risk"),
    Choice("HIGH", "High Risk"),
    Choice("CRITICAL", "Critical Risk")
  ]

  const StatusOptions: seq<Choice> := [
    Choice("CONFIRMED", "Confirmed"),
    Choice("UNCONFIRMED", "Unconfirmed"),
    Choice("ARCHIVED", "Archived"),
    Choice("COMPROMISED", "Compromised"),
    Choice("RESET_REQUIRED", "Reset Required"),
    Choice("FORCE_CHANGE_PASSWORD", "Force Change Password")
  ]

  /** `table.find(c => c.value === v)?.label`: the label of the first entry with that
      value, or nothing when no entry has it. */
  function LabelOf(table: seq<Choice>, v: string): (r: Option<string>)
    ensures r.None? <==> forall k :: 0 <= k < |table| ==> table[k].value != v
    ensures r.Some? ==> exists k :: 0 <= k < |table| && table[k].value == v && table[k].caption == r.value
                                    && forall m :: 0 <= m < k ==> table[m].value != v
  {
    if table == [] then None
    else if table[0].value == v then Some(table[0].caption)
    else
      var r := LabelOf(table[1..], v);
      assert forall k :: 1 <= k < |table| ==> table[k] == table[1..][k - 1];
      r
  }

  /** The risk levels and their labels. */
  lemma RiskLabels()
    ensures LabelOf(RiskLevels, "LOW") == Some("Low Risk")
    ensures LabelOf(RiskLevels, "MEDIUM") == Some("Medium Risk")
    ensures LabelOf(RiskLevels, "HIGH") == Some("High Risk")
    ensures LabelOf(RiskLevels, "CRITICAL") == Some("Critical Risk")
    ensures forall v :: v !in {"LOW", "MEDIUM", "HIGH", "CRITICAL"} ==> LabelOf(RiskLevels, v).None?
  {
  }

  /** The status select offers exactly these six values, in this order, and a value
      outside them has no label. */
  lemma StatusChoices()
    ensures seq(|StatusOptions|, k requires 0 <= k < |StatusOptions| => StatusOptions[k].value)
         == ["CONFIRMED", "UNCONFIRMED", "ARCHIVED", "COMPROMISED", "RESET_REQUIRED", "FORCE_CHANGE_PASSWORD"]
    ensures forall v :: (v !in {"CONFIRMED", "UNCONFIRMED", "ARCHIVED", "COMPROMISED",
                                "RESET_REQUIRED", "FORCE_CHANGE_PASSWORD"}) ==> LabelOf(StatusOptions, v).None?
  {
  }

  /** For the four statuses the table badge knows, the status dialog shows the same
      label; the two statuses only the dialog offers get the raw value as their badge. */
  lemma StatusLabelsAgreeWithBadge(v: string)
    requires v in {"CONFIRMED", "UNCONFIRMED", "ARCHIVED", "COMPROMISED"}
    ensures LabelOf(StatusOptions, v) == Some(Columns.StatusBadge(v).text)
  {
  }

  lemma ExtraStatusesShowRawBadge()
    ensures LabelOf(StatusOptions, "RESET_REQUIRED") == Some("Reset Required")
    ensures Columns.StatusBadge("RESET_REQUIRED").text == "RESET_REQUIRED"
  {
  }

  // ---------------------------------------------------------------------------
  // Dialog state

  /** UpdateRolesDialog: the selection, and the props its effect depends on. */
  class RolesDialog {
    var selectedRoles: seq<string>
    var open: bool
    var currentRoles: seq<string>

    constructor (open: bool, currentRoles: seq<string>)
      ensures this.open == open && this.currentRoles == currentRoles
      ensures selectedRoles == currentRoles
    {
      this.open := open;
      this.currentRoles := currentRoles;
      selectedRoles := currentRoles;
    }

    /** A render with new props: the effect keyed on [currentRoles, open] resets the
        selection to currentRoles when either changed, and leaves it alone otherwise. */
    method Rerender(open: bool, currentRoles: seq<string>)
      modifies this
      ensures this.open == open && this.currentRoles == currentRoles
      ensures selectedRoles ==
                if open != old(this.open) || currentRoles != old(this.currentRoles) then currentRoles
                else old(selectedRoles)
    {
      if open != this.open || currentRoles != this.currentRoles {
        selectedRoles := currentRoles;
      }
      this.open := open;
      this.currentRoles := currentRoles;
    }

    method Toggle(role: string)
      modifies this
      ensures selectedRoles == ToggleRole(old(selectedRoles), role)
      ensures Checked(role) == !old(Checked(role))
      ensures forall other :: other != role ==> Checked(other) == old(Checked(other))
      ensures open == old(open) && currentRoles == old(currentRoles)
    {
      var prev := selectedRoles;
      if role in selectedRoles {
        selectedRoles := RemoveAll(selectedRoles, role);
      } else {
        selectedRoles := selectedRoles + [role];
      }
      forall other | other != role
        ensures (other in selectedRoles) == (other in prev)
      {
        ToggleFlipsOneCheckbox(prev, role, other);
      }
      ToggleFlipsOneCheckbox(prev, role, role);
    }

    /** The checkbox of `role` is ticked exactly when the role is selected. */
    function Checked(role: string): (checked: bool)
      reads this
      ensures checked <==> role in selectedRoles
    {
      role in selectedRoles
    }

    method Submit() returns (s: Submission<seq<string>>)
      ensures s == RolesSubmit(selectedRoles)
    {
      if |selectedRoles| == 0 {
        s := Rejected("Please select at least one role");
      } else {
        s := Forwarded(selectedRoles);
      }
    }
  }

  /** A toggle flips exactly the toggled role's checkbox. */
  lemma ToggleFlipsOneCheckbox(selected: seq<string>, role: string, other: string)
    ensures (role in ToggleRole(selected, role)) == (role !in selected)
    ensures other != role ==> ((other in ToggleRole(selected, role)) == (other in selected))
  {
    if role in selected && other != role {
      assert other in selected <==> other in multiset(selected);
      assert other in ToggleRole(selected, role) <==> other in multiset(ToggleRole(selected, role));
    }
  }

  /** UpdateFraudRiskDialog and UpdateStatusDialog: one chosen value, reset from the
      current value by the same kind of effect. */
  class ChoiceDialog {
    const kind: ChoiceKind
    var selected: string
    var open: bool
    var current: string

    constructor (kind: ChoiceKind, open: bool, current: string)
      ensures this.kind == kind && this.open == open && this.current == current
      ensures selected == current
    {
      this.kind := kind;
      this.open := open;
      this.current := current;
      selected := current;
    }

    method Rerender(open: bool, current: string)
      modifies this
      ensures this.open == open && this.current == current
      ensures selected ==
                if open != old(this.open) || current != old(this.current) then current
                else old(selected)
    {
      if open != this.open || current != this.current {
        selected := current;
      }
      this.open := open;
      this.current := current;
    }

    /** onValueChange of the select. */
    method Choose(v: string)
      modifies this
      ensures selected == v && open == old(open) && current == old(current)
    {
      selected := v;
    }

    /** The "Selected ...: <label>" line: shown only for a non-empty choice. */
    function SelectedCaption(): (line: Option<Option<string>>)
      reads this
      ensures line.None? <==> selected == ""
      ensures line.Some? ==> line.value == LabelOf(if kind == RiskChoice then RiskLevels else StatusOptions, selected)
    {
      if selected == "" then None
      else Some(LabelOf(if kind == RiskChoice then RiskLevels else StatusOptions, selected))
    }

    method Submit() returns (s: Submission<string>)
      ensures s == ChoiceSubmit(kind, selected)
    {
      if selected == "" {
        s := Rejected(EmptyChoiceMessage(kind));
      } else {
        s := Forwarded(selected);
      }
    }
  }
}
