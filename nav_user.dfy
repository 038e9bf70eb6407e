/** components/nav-user.tsx: the signed-in user's entry in the sidebar. It redirects to
    the login page on the same errors as the guard, and shows a name, an e-mail
    address, initials, a status icon and a role, each with a default. */
module NavUser {
  import opened JsText
  import opened UseAuth
  import AuthGuard

  /** The effect's decision: push /login exactly on a 401 or 503 error. */
  function RedirectsToLogin(error: Option<HttpError>): (redirect: bool)
    ensures redirect <==> error.Some? && IsAuthFailure(error.value)
  {
    error.Some? && error.value.Response? && (error.value.status == 401 || error.value.status == 503)
  }

  /** The sidebar entry and the page guard agree on when to send the user to login. */
  lemma RedirectAgreesWithGuard(error: Option<HttpError>)
    ensures RedirectsToLogin(error) == AuthGuard.Guard(error).redirectToLogin
  {
  }

  datatype StatusIcon = ConfirmedIcon | PendingIcon | DisabledIcon | DefaultIcon

  /** getStatusIcon. */
  function IconFor(status: string): (icon: StatusIcon)
    ensures status == "CONFIRMED" <==> icon == ConfirmedIcon
    ensures status == "PENDING" <==> icon == PendingIcon
    ensures status == "DISABLED" <==> icon == DisabledIcon
  {
    match status
    case "CONFIRMED" => ConfirmedIcon
    case "PENDING" => PendingIcon
    case "DISABLED" => DisabledIcon
    case _ => DefaultIcon
  }

  /** The fields of `data.data.data` the entry reads; the endpoint's answer is untyped,
      so each may be missing. */
  datatype MeInfo = MeInfo(
    name: Option<string>,
    email: Option<string>,
    userStatus: Option<string>,
    roles: Option<seq<string>>)

  /** What the entry shows once the query is no longer loading. */
  datatype Profile = Profile(name: string, email: string, initials: string, icon: StatusIcon, role: string)

  /** `name.split(" ").map(n => n[0]).join("") || "AD"`. */
  function Initials(name: string): (r: string)
    ensures r != ""
  {
    Or(FirstChars(Split(name)), "AD")
  }

  /** The initials are the characters that start a word of the name, in order, and "AD"
      when the name has none (empty, or only spaces). */
  lemma InitialsAreWordStarts(name: string)
    ensures WordStarts(name, true) != "" ==> Initials(name) == WordStarts(name, true)
    ensures WordStarts(name, true) == "" ==> Initials(name) == "AD"
    ensures |Initials(name)| <= |name| || Initials(name) == "AD"
  {
    FirstCharsOfSplit(name);
  }

  /** A name of single-space-separated words of letters gives one initial per word. */
  lemma InitialsOfTwoWords()
    ensures Initials("Jane Doe") == "JD"
  {
    FirstCharsOfSplit("Jane Doe");
    assert WordStarts("Jane Doe", true) == "JD";
  }

  /** `userInfo?.roles?.[0] || "ADMIN"`. */
  function RoleShown(roles: Option<seq<string>>): (role: string)
    ensures role != ""
    ensures roles.Some? && |roles.value| > 0 && roles.value[0] != "" ==> role == roles.value[0]
    ensures roles.None? || roles.value == [] || roles.value[0] == "" ==> role == "ADMIN"
  {
    if roles.None? || |roles.value| == 0 then "ADMIN" else Or(roles.value[0], "ADMIN")
  }

  /** The entry for the query's data (None when it has none): name "Admin" and address
      "admin@example.com" by default, a missing status shown as confirmed. */
  function ProfileOf(info: Option<MeInfo>): (p: Profile)
    ensures p.name != "" && p.email != "" && p.role != ""
    ensures info.None? ==> p == Profile("Admin", "admin@example.com", "A", ConfirmedIcon, "ADMIN")
    ensures info.Some? && info.value.name.Some? && info.value.name.value != "" ==> p.name == info.value.name.value
    ensures info.Some? && info.value.email.Some? && info.value.email.value != "" ==> p.email == info.value.email.value
    ensures info.Some? && (info.value.name.None? || info.value.name.value == "") ==> p.name == "Admin"
    ensures info.Some? && (info.value.email.None? || info.value.email.value == "") ==> p.email == "admin@example.com"
    ensures p.initials == Initials(p.name)
    ensures info.Some? ==> p.role == RoleShown(info.value.roles)
    ensures info.None? || info.value.userStatus.None? || info.value.userStatus.value == "" ==> p.icon == ConfirmedIcon
    ensures info.Some? && info.value.userStatus.Some? && info.value.userStatus.value != "" ==>
              p.icon == IconFor(info.value.userStatus.value)
  {
    var name := if info.None? then "Admin" else OrNull(info.value.name, "Admin");
    var email := if info.None? then "admin@example.com" else OrNull(info.value.email, "admin@example.com");
    var status := if info.None? then "CONFIRMED" else OrNull(info.value.userStatus, "CONFIRMED");
    var role := if info.None? then "ADMIN" else RoleShown(info.value.roles);
    assert info.None? ==> Initials(name) == "A" by {
      if info.None? {
        FirstCharsOfSplit("Admin");
        assert WordStarts("Admin", true) == "A";
      }
    }
    Profile(name, email, Initials(name), IconFor(status), role)
  }
}
