/**
 The testify example: arithmetic whose division reports ErrDivisionByZero, and
 a user service that reads a user's name through a repository interface.
 */
module Testify {
  import opened GoBase

  function Sum(a: int, b: int): int
  {
    a + b
  }

  function Multiply(a: int, b: int): int
  {
    a * b
  }

  /** The table-driven Sum cases and the Multiply assertions: exact sums and products. */
  lemma SumMultiplyCases()
    ensures Sum(2, 3) == 5 && Sum(-1, -2) == -3 && Sum(0, 5) == 5 && Sum(0, 0) == 0
    ensures Multiply(3, 4) == 12 && 10 < Multiply(3, 4) < 15
  {
  }

  /** The package's own error value for a zero divisor. */
  const ErrDivisionByZero: Error := Error("division by zero")

  /** Division that pairs the zero result of a zero divisor with ErrDivisionByZero. */
  function Divide(a: int, b: int): (r: Returns<int>)
    ensures b == 0 <==> r.err.Some?
    ensures b == 0 ==> r.value == 0 && r.err.value.message == "division by zero"
    ensures b != 0 ==> IsTruncatedQuotient(a, b, r.value)
  {
    if b == 0 then Returns(0, Some(ErrDivisionByZero)) else Returns(Quot(a, b), None)
  }

  /** The assertions of the Divide tests: 6/2 and 10/2 succeed, 5/0 fails with result 0. */
  lemma DivideCases()
    ensures Divide(6, 2) == Returns(3, None) && Divide(10, 2) == Returns(5, None)
    ensures Divide(5, 0) == Returns(0, Some(ErrDivisionByZero))
  {
    QuotRoundsTowardZero();
    assert Quot(10, 2) == 5;
  }

  datatype User = User(id: int, name: string)

  /** What GetUser returns: a possibly nil pointer to a user, and a possibly nil error. */
  datatype UserReply = UserReply(user: Option<User>, err: Option<Error>)

  /** The repository interface, as the replies it gives to each argument. */
  datatype UserRepository = UserRepository(getUser: int -> UserReply, saveUser: User -> Option<Error>)

  /** A call the service makes on its repository. */
  datatype Call = GetUser(id: int) | SaveUser(user: User)

  datatype UserService = UserService(repo: UserRepository)

  /**
   Fetches user `id` and projects its name; a repository error is handed back
   unchanged with an empty name.
   */
  function GetUserName(s: UserService, id: int): (t: Traced<Call, Returns<string>>)
    ensures t.calls == [GetUser(id)]
    ensures s.repo.getUser(id).err.Some? ==>
              t.outcome == Returned(Returns("", s.repo.getUser(id).err))
    ensures s.repo.getUser(id).err.None? && s.repo.getUser(id).user.Some? ==>
              t.outcome == Returned(Returns(s.repo.getUser(id).user.value.name, None))
    ensures t.outcome.NilDereference? <==> s.repo.getUser(id) == UserReply(None, None)
  {
    var reply := s.repo.getUser(id);
    var outcome :=
      if reply.err.Some? then Returned(Returns("", reply.err))
      else if reply.user.None? then NilDereference
      else Returned(Returns(reply.user.value.name, None));
    Traced([GetUser(id)], outcome)
  }

  /** A repository whose GetUser knows only user 1, "John Doe", and reports any other id as not found. */
  function SampleRepository(): UserRepository
  {
    UserRepository(
      id => if id == 1 then UserReply(Some(User(1, "John Doe")), None)
            else UserReply(None, Some(Error("user not found"))),
      _ => None)
  }

  /** The two mock scenarios: user 1 yields its name, user 999 an empty name and the "not found" error. */
  lemma GetUserNameScenarios()
    ensures GetUserName(UserService(SampleRepository()), 1).outcome == Returned(Returns("John Doe", None))
    ensures GetUserName(UserService(SampleRepository()), 999).outcome
              == Returned(Returns("", Some(Error("user not found"))))
  {
  }
}
