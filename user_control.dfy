/** The user-administration panel: the users list it shows, and how each handler changes it and
    the panel's edit state after its server call succeeds or fails. */
module UserControl {
  import opened Common

  /** The roles the panel offers, in its order. */
  const Roles: seq<string> := ["Team Member", "Cluster Lead", "Manager"]

  /** A user as the list holds it; a user added from the form has no id and no IsDeleted flag. */
  datatype AdminUser = AdminUser(id: Option<int>, name: string, email: string, cluster: string,
                                 clusterLead: string, role: string, isDeleted: Option<bool>)

  /** The add-user form. */
  datatype NewUser = NewUser(name: string, email: string, cluster: string, clusterLead: string, role: string)

  datatype FormField = Name | Email | Cluster | ClusterLead | Role

  const BlankNewUser := NewUser("", "", "", "", "Team Member")

  /** The outcome of one server call; a failed call may carry the server's `message`. */
  datatype CallResult = Success | Failure(message: Option<string>)

  /** Which row's "Reports To" cell is being edited: `null`, or the (possibly undefined) id. */
  datatype EditTarget = NotEditing | Editing(id: Option<int>)

  /** `prevUsers.map(user => user.id === userId ? { ...user, role: newRole } : user)`. */
  function WithRole(users: seq<AdminUser>, userId: Option<int>, newRole: string): (r: seq<AdminUser>)
    ensures |r| == |users|
    ensures forall i :: 0 <= i < |users| && users[i].id == userId ==>
              r[i].role == newRole && r[i].(role := users[i].role) == users[i]
    ensures forall i :: 0 <= i < |users| && users[i].id != userId ==> r[i] == users[i]
  {
    seq(|users|, i requires 0 <= i < |users| =>
      if users[i].id == userId then users[i].(role := newRole) else users[i])
  }

  /** `prevUsers.map(user => user.id === userId ? { ...user, clusterLead: editClusterLead } : user)`. */
  function WithClusterLead(users: seq<AdminUser>, userId: Option<int>, lead: string): (r: seq<AdminUser>)
    ensures |r| == |users|
    ensures forall i :: 0 <= i < |users| && users[i].id == userId ==>
              r[i].clusterLead == lead && r[i].(clusterLead := users[i].clusterLead) == users[i]
    ensures forall i :: 0 <= i < |users| && users[i].id != userId ==> r[i] == users[i]
  {
    seq(|users|, i requires 0 <= i < |users| =>
      if users[i].id == userId then users[i].(clusterLead := lead) else users[i])
  }

  /** The form object as it is appended to the list. */
  function FromForm(u: NewUser): (r: AdminUser)
    ensures r.id.None? && r.isDeleted.None?
    ensures r.name == u.name && r.email == u.email && r.cluster == u.cluster
    ensures r.clusterLead == u.clusterLead && r.role == u.role
  {
    AdminUser(None, u.name, u.email, u.cluster, u.clusterLead, u.role, None)
  }

  /** The Add User button is rendered only for a Manager. */
  predicate AddUserShown(viewerRole: string)
  {
    viewerRole == "Manager"
  }

  class Panel {
    var users: seq<AdminUser>
    var error: string
    var showAddForm: bool
    var editMode: EditTarget
    var editClusterLead: string
    var newUser: NewUser

    constructor ()
      ensures users == [] && error == "" && !showAddForm
      ensures editMode == NotEditing && editClusterLead == "" && newUser == BlankNewUser
      ensures newUser.role in Roles
    {
      users, error, showAddForm := [], "", false;
      editMode, editClusterLead, newUser := NotEditing, "", BlankNewUser;
    }

    /** The fetch on mount: the list from the server, or an error message. */
    method Mount(fetched: Option<seq<AdminUser>>)
      modifies this
      ensures fetched.Some? ==> users == fetched.value && error == old(error)
      ensures fetched.None? ==> users == old(users) && error == "You are not Authorized"
      ensures showAddForm == old(showAddForm) && editMode == old(editMode)
      ensures editClusterLead == old(editClusterLead) && newUser == old(newUser)
    {
      if fetched.Some? {
        users := fetched.value;
      } else {
        error := "You are not Authorized";
      }
    }

    /** handleRoleChange, from a row's role selector, which offers only the panel's roles: on
        success the matching-id users get the new role; on failure only the error message changes. */
    method RoleChange(userId: Option<int>, newRole: string, call: CallResult)
      requires newRole in Roles
      modifies this
      ensures call.Success? ==> users == WithRole(old(users), userId, newRole) && error == old(error)
      ensures call.Success? ==> forall i :: 0 <= i < |users| && users[i].id == userId ==> users[i].role in Roles
      ensures call.Failure? ==> users == old(users) && error == "Error updating role"
      ensures showAddForm == old(showAddForm) && editMode == old(editMode)
      ensures editClusterLead == old(editClusterLead) && newUser == old(newUser)
    {
      if call.Success? {
        users := WithRole(users, userId, newRole);
      } else {
        error := "Error updating role";
      }
    }

    /** handleAddUser: on success the form is appended, the form hidden and reset; a duplicate
        email only raises an alert; any other failure sets the error message. */
    method AddUser(call: CallResult) returns (alert: Option<string>)
      modifies this
      ensures call.Success? ==>
                && users == old(users) + [FromForm(old(newUser))]
                && !showAddForm && newUser == BlankNewUser && error == old(error) && alert.None?
      ensures call.Failure? ==> users == old(users) && newUser == old(newUser)
                                && showAddForm == old(showAddForm)
      ensures call.Failure? && call.message == Some("Email already exists") ==>
                alert == Some("User with this email already exists.") && error == old(error)
      ensures call.Failure? && call.message != Some("Email already exists") ==>
                alert.None? && error == "Error adding user"
      ensures editMode == old(editMode) && editClusterLead == old(editClusterLead)
    {
      alert := None;
      if call.Success? {
        users := users + [FromForm(newUser)];
        showAddForm := false;
        newUser := BlankNewUser;
      } else if call.message == Some("Email already exists") {
        alert := Some("User with this email already exists.");
      } else {
        error := "Error adding user";
      }
    }

    /** handleToggleStatus: the toggle and the refetch both succeeded (the refetched list), or
        one of them failed. */
    method ToggleStatus(refetched: Option<seq<AdminUser>>)
      modifies this
      ensures refetched.Some? ==> users == refetched.value && error == old(error)
      ensures refetched.None? ==> users == old(users) && error == "Error toggling user status"
      ensures showAddForm == old(showAddForm) && editMode == old(editMode)
      ensures editClusterLead == old(editClusterLead) && newUser == old(newUser)
    {
      if refetched.Some? {
        users := refetched.value;
      } else {
        error := "Error toggling user status";
      }
    }

    /** handleEditClusterLead: open the row's editor with its current lead. */
    method EditClusterLead(userId: Option<int>, clusterLead: string)
      modifies this
      ensures editMode == Editing(userId) && editClusterLead == clusterLead
      ensures users == old(users) && error == old(error) && showAddForm == old(showAddForm)
      ensures newUser == old(newUser)
    {
      editMode := Editing(userId);
      editClusterLead := clusterLead;
    }

    method TypeClusterLead(v: string)
      modifies this
      ensures editClusterLead == v
      ensures users == old(users) && error == old(error) && showAddForm == old(showAddForm)
      ensures editMode == old(editMode) && newUser == old(newUser)
    {
      editClusterLead := v;
    }

    /** handleSaveClusterLead: on success the matching-id users get the edited lead and edit mode
        and its buffer are cleared; on failure only the error message changes. */
    method SaveClusterLead(userId: Option<int>, call: CallResult)
      modifies this
      ensures call.Success? ==>
                && users == WithClusterLead(old(users), userId, old(editClusterLead))
                && editMode == NotEditing && editClusterLead == "" && error == old(error)
      ensures call.Failure? ==>
                && users == old(users) && editMode == old(editMode)
                && editClusterLead == old(editClusterLead) && error == "Error updating cluster lead"
      ensures showAddForm == old(showAddForm) && newUser == old(newUser)
    {
      if call.Success? {
        users := WithClusterLead(users, userId, editClusterLead);
        editMode := NotEditing;
        editClusterLead := "";
      } else {
        error := "Error updating cluster lead";
      }
    }

    /** The Add User button toggles the form; it is rendered only for a viewer it is shown to. */
    method ToggleAddForm(viewerRole: string)
      requires AddUserShown(viewerRole)
      modifies this
      ensures showAddForm == !old(showAddForm)
      ensures users == old(users) && error == old(error) && editMode == old(editMode)
      ensures editClusterLead == old(editClusterLead) && newUser == old(newUser)
    {
      showAddForm := !showAddForm;
    }

    /** `setNewUser({ ...newUser, field: value })`; the role field is a selector over the panel's
        roles, so the form's role stays one of them. */
    method ChangeNewUser(f: FormField, v: string)
      requires f == Role ==> v in Roles
      modifies this
      ensures newUser == match f
                         case Name => old(newUser).(name := v)
                         case Email => old(newUser).(email := v)
                         case Cluster => old(newUser).(cluster := v)
                         case ClusterLead => old(newUser).(clusterLead := v)
                         case Role => old(newUser).(role := v)
      ensures old(newUser).role in Roles ==> newUser.role in Roles
      ensures users == old(users) && error == old(error) && showAddForm == old(showAddForm)
      ensures editMode == old(editMode) && editClusterLead == old(editClusterLead)
    {
      match f
      case Name => newUser := newUser.(name := v);
      case Email => newUser := newUser.(email := v);
      case Cluster => newUser := newUser.(cluster := v);
      case ClusterLead => newUser := newUser.(clusterLead := v);
      case Role => newUser := newUser.(role := v);
    }
  }
}
