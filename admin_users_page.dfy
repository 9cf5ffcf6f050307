/**
 * The admin's user management page (app/dashboard/admin/users/page.tsx):
 * `handleRoleChange` refuses without a session, otherwise posts the change to the
 * role-update function and, when the response is ok, gives the user the new role
 * in the local list. Each outcome shows a toast. The session and the response are
 * inputs.
 */
module AdminUsersPage {
  import opened ClockText

  /** The roles of types/supabase.ts:95, offered by the select of lines 139-141. */
  datatype Role = Admin | Provider | Client

  function RoleName(role: Role): (name: string)
    ensures name in {"admin", "provider", "client"}
  {
    match role
    case Admin => "admin"
    case Provider => "provider"
    case Client => "client"
  }

  datatype Profile = Profile(
    id: string,
    email: string,
    firstName: Option<string>,
    lastName: Option<string>,
    role: Role,
    createdAt: string)

  /** The edge function's reply: its `ok` flag and the `error` field of its body. */
  datatype Response = Response(ok: bool, error: Option<string>)

  datatype Toast = Toast(title: string, description: string, destructive: bool)

  /** `data.error || "Failed to update role"`. */
  function FailureMessage(error: Option<string>): (m: string)
    ensures m != ""
    ensures error.Some? && error.value != "" ==> m == error.value
  {
    match error
    case Some(e) => if e != "" then e else "Failed to update role"
    case None => "Failed to update role"
  }

  /** The list after the local update of line 81. */
  function WithRole(users: seq<Profile>, userId: string, newRole: Role): (r: seq<Profile>)
    ensures |r| == |users|
    ensures forall i :: 0 <= i < |r| ==>
      r[i] == if users[i].id == userId then users[i].(role := newRole) else users[i]
  {
    if users == [] then []
    else
      var u := users[0];
      [if u.id == userId then u.(role := newRole) else u] + WithRole(users[1..], userId, newRole)
  }

  class AdminUsersView {
    var users: seq<Profile>

    constructor(fetched: seq<Profile>)
      ensures users == fetched
    {
      users := fetched;
    }

    /** Lines 55-96. `session` is the access token, if signed in; `response` is what
        the edge function returns when it is called. `requested` tells whether the
        request was sent. */
    method HandleRoleChange(userId: string, newRole: Role, session: Option<string>, response: Response)
      returns (requested: bool, toast: Toast)
      modifies this
      ensures requested <==> session.Some?
      ensures session.None? ==> toast == Toast("Error", "Not authenticated", true)
      ensures session.Some? && !response.ok ==> toast == Toast("Error", FailureMessage(response.error), true)
      ensures session.Some? && response.ok
        ==> toast == Toast("Success", "User role updated to " + RoleName(newRole), false)
      ensures session.Some? && response.ok ==> users == WithRole(old(users), userId, newRole)
      ensures !(session.Some? && response.ok) ==> users == old(users)
    {
      if session.None? {
        requested := false;
        toast := Toast("Error", "Not authenticated", true);
        return;
      }
      requested := true;
      if !response.ok {
        toast := Toast("Error", FailureMessage(response.error), true);
        return;
      }
      users := WithRole(users, userId, newRole);
      toast := Toast("Success", "User role updated to " + RoleName(newRole), false);
    }
  }

  /** The ids of the listed users, in list order. */
  function UserIds(users: seq<Profile>): seq<string>
  {
    if users == [] then [] else [users[0].id] + UserIds(users[1..])
  }

  /** A role change keeps the list's users and their order: the ids read the same. */
  lemma {:induction false} RoleChangeKeepsIds(users: seq<Profile>, userId: string, newRole: Role)
    ensures UserIds(WithRole(users, userId, newRole)) == UserIds(users)
  {
    if users != [] {
      RoleChangeKeepsIds(users[1..], userId, newRole);
    }
  }

  /** Two role changes of the same user: the later one wins. */
  lemma RoleChangeLastWins(users: seq<Profile>, userId: string, first: Role, second: Role)
    ensures WithRole(WithRole(users, userId, first), userId, second) == WithRole(users, userId, second)
  {
    var once := WithRole(users, userId, first);
    var twice := WithRole(once, userId, second);
    var direct := WithRole(users, userId, second);
    forall i | 0 <= i < |twice|
      ensures twice[i] == direct[i]
    {
    }
  }

  /** A user whose id is not in the list: the list is unchanged. */
  lemma {:induction false} RoleChangeOfUnknownUser(users: seq<Profile>, userId: string, newRole: Role)
    requires forall i :: 0 <= i < |users| ==> users[i].id != userId
    ensures WithRole(users, userId, newRole) == users
  {
    var r := WithRole(users, userId, newRole);
    assert forall i :: 0 <= i < |r| ==> r[i] == users[i];
  }
}
