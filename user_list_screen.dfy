/**
 * The user administration screen: who may open it, who may delete, the guards in front of a
 * role change, and the role-selection modal. `parseInt` stands for JavaScript's `parseInt`,
 * None being NaN.
 */
module UserListScreen {
  import opened Wrappers
  import JsArray
  import opened Http
  import opened Session

  datatype User = User(id: int, username: string, email: string, role: string)

  /** An entry of the role picker. */
  datatype RoleOption = RoleOption(id: int, value: string, caption: string)

  /** `ROLES`: the roles a user can be given. */
  const Roles: seq<RoleOption> := [
    RoleOption(2, AdminInventori, "Admin Inventori"),
    RoleOption(3, AdminResep, "Admin Resep"),
    RoleOption(4, AdminUser, "Admin User"),
    RoleOption(5, RegularUser, "Regular User")
  ]

  /** The picker offers exactly the four non-super roles, and never super administrator. */
  lemma RolesOffered()
    ensures forall i :: 0 <= i < |Roles| ==> Roles[i].value != SuperAdmin
    ensures forall v :: v in [AdminInventori, AdminResep, AdminUser, RegularUser] <==> exists i :: 0 <= i < |Roles| && Roles[i].value == v
  {
    assert Roles[0].value == AdminInventori && Roles[1].value == AdminResep;
    assert Roles[2].value == AdminUser && Roles[3].value == RegularUser;
  }

  /** `handleDeleteUser`: only a super administrator reaches the confirmation dialog. */
  datatype DeleteStep = DeleteRefused | ConfirmDelete

  function HandleDeleteUser(userRole: string): (r: DeleteStep)
    ensures r == ConfirmDelete <==> userRole == SuperAdmin
  {
    if userRole != SuperAdmin then DeleteRefused else ConfirmDelete
  }

  /** Why a role change was refused. */
  datatype Refusal = NotSuperAdmin | OwnRole | TargetIsSuperAdmin

  /** The user a role change is about, as the modal holds it. */
  datatype Selected = Selected(id: int, username: string)

  datatype PromoteStep = PromoteRefused(reason: Refusal) | OpenModal(user: Selected)

  /** `users.find(user => user.id === userId)` */
  function FindUser(users: seq<User>, userId: int): (r: Option<User>)
    ensures r.None? <==> forall i :: 0 <= i < |users| ==> users[i].id != userId
    ensures r.Some? ==> r.value.id == userId && r.value in users
    ensures r.Some? ==> exists i :: FirstWithId(users, userId, i) && r.value == users[i]
  {
    var p := (u: User) => u.id == userId;
    var k := JsArray.FindIndex(users, p);
    assert k < |users| ==> FirstWithId(users, userId, k);
    JsArray.Find(users, p)
  }

  /** `users[i]` is the first user with that id. */
  predicate FirstWithId(users: seq<User>, userId: int, i: int) {
    0 <= i < |users| && users[i].id == userId && forall j :: 0 <= j < i ==> users[j].id != userId
  }

  /** The stored id of the signed-in user names the target. */
  predicate IsSelf(currentUserId: Option<string>, parseInt: string -> Option<int>, userId: int): (b: bool)
    ensures currentUserId.None? || currentUserId == Some("") ==> !b
    ensures b ==> parseInt(currentUserId.value).Some? && parseInt(currentUserId.value).value == userId
  {
    Present(currentUserId) && parseInt(currentUserId.value) == Some(userId)
  }

  /** The first user with that id is a super administrator. */
  predicate TargetIsSuper(users: seq<User>, userId: int): (b: bool)
    ensures b <==> exists i :: FirstWithId(users, userId, i) && users[i].role == SuperAdmin
  {
    FindUser(users, userId).Some? && FindUser(users, userId).value.role == SuperAdmin
  }

  /**
   * `handlePromoteUser`: refused, in this order, unless the actor is a super administrator, when
   * the target is the actor, or when the target is a super administrator; otherwise the modal opens.
   */
  function HandlePromoteUser(userRole: string, currentUserId: Option<string>, parseInt: string -> Option<int>,
                             users: seq<User>, userId: int, username: string): (r: PromoteStep)
    ensures r == PromoteRefused(NotSuperAdmin) <==> userRole != SuperAdmin
    ensures r == PromoteRefused(OwnRole) <==> userRole == SuperAdmin && IsSelf(currentUserId, parseInt, userId)
    ensures r == PromoteRefused(TargetIsSuperAdmin) <==>
              userRole == SuperAdmin && !IsSelf(currentUserId, parseInt, userId) && TargetIsSuper(users, userId)
    ensures r.OpenModal? <==>
              userRole == SuperAdmin && !IsSelf(currentUserId, parseInt, userId) && !TargetIsSuper(users, userId)
    ensures r.OpenModal? ==> r.user == Selected(userId, username)
  {
    if userRole != SuperAdmin then PromoteRefused(NotSuperAdmin)
    else if Present(currentUserId) && parseInt(currentUserId.value) == Some(userId) then PromoteRefused(OwnRole)
    else
      var target := FindUser(users, userId);
      if target.Some? && target.value.role == SuperAdmin then PromoteRefused(TargetIsSuperAdmin)
      else OpenModal(Selected(userId, username))
  }

  /** A super administrator whose stored id names the target cannot change their own role. */
  lemma OwnRoleRefused(currentUserId: string, parseInt: string -> Option<int>, users: seq<User>, userId: int,
                       username: string)
    requires currentUserId != "" && parseInt(currentUserId) == Some(userId)
    ensures HandlePromoteUser(SuperAdmin, Some(currentUserId), parseInt, users, userId, username) == PromoteRefused(OwnRole)
  {
  }

  /** No role change reaches the modal for a user the list shows as a super administrator. */
  lemma SuperAdminsAreNeverPromoted(userRole: string, currentUserId: Option<string>, parseInt: string -> Option<int>,
                                    users: seq<User>, i: int, username: string)
    requires 0 <= i < |users| && users[i].role == SuperAdmin
    requires forall j :: 0 <= j < |users| && users[j].id == users[i].id ==> users[j] == users[i]
    ensures !HandlePromoteUser(userRole, currentUserId, parseInt, users, users[i].id, username).OpenModal?
  {
    var target := FindUser(users, users[i].id);
    var k :| 0 <= k < |users| && users[k] == target.value;
  }

  /** The request `handleRoleSelect` sends. */
  datatype PromoteRequest = PromoteRequest(targetUserId: int, newRoleName: string)

  /** What the user is told after the request. */
  datatype RoleChange = Changed | ChangeForbidden | ChangeFailed(message: Message)

  function RoleChangeOutcome(reply: Reply): (r: RoleChange)
    ensures r == Changed <==> reply.Answered?
    ensures r == ChangeForbidden <==> reply.Failed? && IsForbidden(reply.failure)
    ensures r.ChangeFailed? ==> r.message == ServerErrorOr(reply.failure, "Gagal mengubah role user")
  {
    match reply
    case Answered(_) => Changed
    case Failed(f) => if IsForbidden(f) then ChangeForbidden else ChangeFailed(ServerErrorOr(f, "Gagal mengubah role user"))
  }

  /** The modal state of the screen. */
  class RoleModal {
    var userRole: string
    var users: seq<User>
    var showRoleModal: bool
    var selectedUser: Option<Selected>

    /** The modal is shown only with a user selected. */
    ghost predicate Valid()
      reads this
    {
      showRoleModal ==> selectedUser.Some?
    }

    constructor (userRole: string, users: seq<User>)
      ensures Valid()
      ensures this.userRole == userRole && this.users == users
      ensures !showRoleModal && selectedUser.None?
    {
      this.userRole, this.users := userRole, users;
      showRoleModal, selectedUser := false, None;
    }

    /** `handlePromoteUser`: when no guard refuses, select the user and show the modal. */
    method Promote(currentUserId: Option<string>, parseInt: string -> Option<int>, userId: int, username: string)
      returns (step: PromoteStep)
      requires Valid()
      modifies this`showRoleModal, this`selectedUser
      ensures Valid()
      ensures step == HandlePromoteUser(userRole, currentUserId, parseInt, users, userId, username)
      ensures step.OpenModal? ==> showRoleModal && selectedUser == Some(step.user)
      ensures step.PromoteRefused? ==> showRoleModal == old(showRoleModal) && selectedUser == old(selectedUser)
    {
      step := HandlePromoteUser(userRole, currentUserId, parseInt, users, userId, username);
      if step.OpenModal? {
        selectedUser := Some(step.user);
        showRoleModal := true;
      }
    }

    /**
     * `handleRoleSelect`: nothing at all without a selected user; otherwise the request for the
     * selected user, and the modal closed and the selection cleared whatever the reply.
     */
    method RoleSelect(role: string, reply: Reply) returns (request: Option<PromoteRequest>, outcome: Option<RoleChange>)
      requires Valid()
      modifies this`showRoleModal, this`selectedUser
      ensures Valid()
      ensures old(selectedUser).None? ==>
                request.None? && outcome.None? && showRoleModal == old(showRoleModal) && selectedUser.None?
      ensures old(selectedUser).Some? ==>
                && request == Some(PromoteRequest(old(selectedUser).value.id, role))
                && outcome == Some(RoleChangeOutcome(reply))
                && !showRoleModal && selectedUser.None?
    {
      if selectedUser.None? {
        return None, None;
      }
      request := Some(PromoteRequest(selectedUser.value.id, role));
      outcome := Some(RoleChangeOutcome(reply));
      showRoleModal := false;
      selectedUser := None;
    }
  }
}
