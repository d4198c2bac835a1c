/**
 The gomock example's user service: every method is a pass-through to one
 call on the UserRepository interface, with field projection on the way back.
 The repository is abstract: it is given as the reply it makes to each argument.
 */
module Gomock {
  import opened GoBase

  datatype User = User(id: int, name: string, email: string)

  /** What GetUser returns: a possibly nil user pointer and a possibly nil error. */
  datatype UserReply = UserReply(user: Option<User>, err: Option<Error>)

  /** What ListUsers returns: a slice of possibly nil user pointers and a possibly nil error. */
  datatype ListReply = ListReply(users: seq<Option<User>>, err: Option<Error>)

  datatype UserRepository = UserRepository(
    getUser: int -> UserReply,
    saveUser: User -> Option<Error>,
    deleteUser: int -> Option<Error>,
    listUsers: ListReply)

  /** A call the service makes on its repository, with its argument. */
  datatype Call = GetUser(id: int) | SaveUser(user: User) | DeleteUser(id: int) | ListUsers

  datatype UserService = UserService(repo: UserRepository)

  /** Fetches user `id` and projects its name; a repository error comes back unchanged with "". */
  function GetUserName(s: UserService, id: int): (t: Traced<Call, Returns<string>>)
    ensures t.calls == [GetUser(id)]
    ensures s.repo.getUser(id).err.Some? ==>
              t.outcome == Returned(Returns("", s.repo.getUser(id).err))
    ensures s.repo.getUser(id).err.None? && s.repo.getUser(id).user.Some? ==>
              t.outcome == Returned(Returns(s.repo.getUser(id).user.value.name, None))
    ensures t.outcome.NilDereference? <==> s.repo.getUser(id) == UserReply(None, None)
  {
    var reply := s.repo.getUser(id);
    var outcome :=
      if reply.err.Some? then Returned(Returns("", reply.err))
      else if reply.user.None? then NilDereference
      else Returned(Returns(reply.user.value.name, None));
    Traced([GetUser(id)], outcome)
  }

  /** Saves a new user carrying the given name and email and the zero ID, and returns SaveUser's error. */
  function CreateUser(s: UserService, name: string, email: string): (t: Traced<Call, Option<Error>>)
    ensures |t.calls| == 1 && t.calls[0].SaveUser?
    ensures t.calls[0].user.name == name && t.calls[0].user.email == email && t.calls[0].user.id == 0
    ensures t.outcome == Returned(s.repo.saveUser(t.calls[0].user))
  {
    var user := User(0, name, email);
    Traced([SaveUser(user)], Returned(s.repo.saveUser(user)))
  }

  /** Deletes user `id` and returns DeleteUser's error unchanged. */
  function RemoveUser(s: UserService, id: int): (t: Traced<Call, Option<Error>>)
    ensures t.calls == [DeleteUser(id)]
    ensures t.outcome == Returned(s.repo.deleteUser(id))
  {
    Traced([DeleteUser(id)], Returned(s.repo.deleteUser(id)))
  }

  /**
   Lists every user and keeps only the names, in the repository's order. On a
   repository error the names slice is nil; a nil user in the list is dereferenced.
   */
  method GetAllUserNames(s: UserService) returns (t: Traced<Call, Returns<Option<seq<string>>>>)
    ensures t.calls == [ListUsers]
    ensures s.repo.listUsers.err.Some? ==> t.outcome == Returned(Returns(None, s.repo.listUsers.err))
    ensures s.repo.listUsers.err.None? ==>
              (t.outcome.NilDereference? <==>
                 exists i :: 0 <= i < |s.repo.listUsers.users| && s.repo.listUsers.users[i].None?)
    ensures s.repo.listUsers.err.None? && t.outcome.Returned? ==>
              var users := s.repo.listUsers.users;
              && t.outcome.result.err.None?
              && t.outcome.result.value.Some?
              && |t.outcome.result.value.value| == |users|
              && forall i :: 0 <= i < |users| ==>
                   users[i].Some? && t.outcome.result.value.value[i] == users[i].value.name
  {
    var reply := s.repo.listUsers;
    if reply.err.Some? {
      return Traced([ListUsers], Returned(Returns(None, reply.err)));
    }
    var users := reply.users;
    var names: seq<string> := seq(|users|, _ => "");
    var i := 0;
    while i < |users|
      invariant 0 <= i <= |users|
      invariant |names| == |users|
      invariant forall k :: 0 <= k < i ==> users[k].Some? && names[k] == users[k].value.name
    {
      if users[i].None? {
        return Traced([ListUsers], NilDereference);
      }
      names := names[i := users[i].value.name];
      i := i + 1;
    }
    return Traced([ListUsers], Returned(Returns(Some(names), None)));
  }
}
