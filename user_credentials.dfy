/**
 * `/api/user-credentials`: `GET` lists the dashboard's users in the shape
 * the branch-management page shows, `POST` creates a user. Neither answer
 * carries the password: the credential shape has no field for it.
 */
module UserCredentials {
  import opened Common

  const Admin := "admin"
  const Manager := "manager"
  /** The branch name shown for an administrator. */
  const NoBranch := "-"

  datatype Branch = Branch(id: int, name: string)

  /** A stored user with its branch relation loaded. */
  datatype User = User(id: int, username: string, password: string, role: string, branchId: Option<int>)

  /** `{ id, username, role, branchName }`. */
  datatype Credential = Credential(id: int, username: string, role: string, branchName: string)

  /** The branch with `id`, as `include: { branch: true }` loads it. */
  function BranchById(branches: seq<Branch>, id: Option<int>): (r: Option<Branch>)
    ensures r.Some? ==> id.Some? && r.value in branches && r.value.id == id.value
    ensures r.None? && id.Some? ==> forall b :: b in branches ==> b.id != id.value
  {
    if id.None? || branches == [] then None
    else if branches[0].id == id.value then Some(branches[0])
    else BranchById(branches[1..], id)
  }

  /** `user.role === 'admin' ? '-' : user.branch?.name || ''`. */
  function CredentialOf(u: User, branches: seq<Branch>): (c: Credential)
    ensures c.id == u.id && c.username == u.username && c.role == u.role
    ensures u.role == Admin ==> c.branchName == NoBranch
    ensures u.role != Admin ==>
      var b := BranchById(branches, u.branchId);
      c.branchName == (if b.Some? then b.value.name else "")
  {
    var b := BranchById(branches, u.branchId);
    Credential(u.id, u.username, u.role,
      if u.role == Admin then NoBranch else if b.Some? && b.value.name != "" then b.value.name else "")
  }

  datatype Listing = Credentials(list: seq<Credential>) | ListError

  /** `GET`: one credential per user, in the store's order; 500 when the store throws. */
  function Get(users: seq<User>, branches: seq<Branch>, fault: bool): (r: Listing)
    ensures r.ListError? <==> fault
    ensures r.Credentials? ==> (|r.list| == |users| &&
      forall i :: 0 <= i < |users| ==> r.list[i] == CredentialOf(users[i], branches))
  {
    if fault then ListError
    else Credentials(seq(|users|, i requires 0 <= i < |users| => CredentialOf(users[i], branches)))
  }

  /** The body; `None` marks an absent field. */
  datatype Body = Body(username: Option<string>, password: Option<string>, role: Option<string>, branchName: Option<string>)

  /** `!username || !password || !role` fails. */
  predicate HasRequired(b: Body)
  {
    b.username.Some? && b.username.value != "" &&
    b.password.Some? && b.password.value != "" &&
    b.role.Some? && b.role.value != ""
  }

  /** `prisma.branch.findUnique({ where: { name } })`: branch names are unique. */
  function BranchByName(branches: seq<Branch>, name: string): (r: Option<Branch>)
    ensures r.Some? ==> r.value in branches && r.value.name == name
    ensures r.None? ==> forall b :: b in branches ==> b.name != name
  {
    if branches == [] then None
    else if branches[0].name == name then Some(branches[0])
    else BranchByName(branches[1..], name)
  }

  /** The `branchId` the user is created with. */
  function BranchIdFor(role: string, branchName: Option<string>, branches: seq<Branch>): (id: Option<int>)
    ensures id.Some? <==>
      role == Manager && branchName.Some? && branchName.value != "" &&
      exists b :: b in branches && b.name == branchName.value
    ensures id.Some? ==> exists b :: b in branches && b.name == branchName.value && b.id == id.value
  {
    if role == Manager && branchName.Some? && branchName.value != "" then
      var b := BranchByName(branches, branchName.value);
      if b.Some? then Some(b.value.id) else None
    else None
  }

  /** `{ id, username, role, branchName }` of the answer; `None` is an absent branch name. */
  datatype Answer = Answer(id: int, username: string, role: string, branchName: Option<string>)

  datatype Reply = Created(answer: Answer) | BadRequest | ServerError

  /** The user table with its auto-increment counter. */
  class UserTable {
    var users: seq<User>
    var nextId: int

    ghost predicate Valid()
      reads this
    {
      forall i :: 0 <= i < |users| ==> users[i].id < nextId
    }

    constructor ()
      ensures Valid() && users == [] && nextId == 1
    {
      users := [];
      nextId := 1;
    }

    /**
     * `POST`. `hashed` is the bcrypt hash of the password, computed outside
     * the model; `fault` says whether the store throws.
     */
    method Post(b: Body, branches: seq<Branch>, hashed: string, fault: bool) returns (r: Reply)
      requires Valid()
      modifies this
      ensures Valid()
      ensures r.BadRequest? <==> !HasRequired(b)
      ensures r.ServerError? <==> HasRequired(b) && fault
      ensures !r.Created? ==> users == old(users) && nextId == old(nextId)
      ensures r.Created? ==>
        users == old(users) + [User(old(nextId), b.username.value, hashed, b.role.value,
                                    BranchIdFor(b.role.value, b.branchName, branches))] &&
        r.answer == Answer(old(nextId), b.username.value, b.role.value,
                           if b.role.value == Admin then Some(NoBranch) else b.branchName)
    {
      if !HasRequired(b) {
        return BadRequest;
      }
      var branchId := None;
      if b.role.value == Manager && b.branchName.Some? && b.branchName.value != "" {
        var branch := BranchByName(branches, b.branchName.value);
        if branch.Some? {
          branchId := Some(branch.value.id);
        }
      }
      if fault {
        return ServerError;
      }
      var user := User(nextId, b.username.value, hashed, b.role.value, branchId);
      users := users + [user];
      nextId := nextId + 1;
      r := Created(Answer(user.id, user.username, user.role,
        if b.role.value == Admin then Some(NoBranch) else b.branchName));
    }
  }

  /**
   * A user created with a branch id shows that branch's name once listed,
   * when branch ids are unique.
   */
  lemma ManagerBranchShown(role: string, name: string, branches: seq<Branch>, u: User)
    requires forall x, y :: x in branches && y in branches && x.id == y.id ==> x == y
    requires role != Admin && u.role == role && u.branchId == BranchIdFor(role, Some(name), branches)
    requires u.branchId.Some?
    ensures CredentialOf(u, branches).branchName == name
  {
    var b :| b in branches && b.name == name && b.id == u.branchId.value;
  }
}
