/**
 * The repositories the services call. BaseRepository (repository/repository.go) is an interface,
 * so its implementation is an input: a reply for each call given the calls before it. The
 * concrete SystemUserRepo is treated the same way. The optional transaction argument and
 * GetDB are not modelled.
 */
module Repository {
  import opened Wrappers
  import opened Model

  /** repository.OrganizationSearch */
  datatype OrganizationSearch = OrganizationSearch(
    organizationType: string, pageSize: int, pageNumber: int, orderBy: string)

  /** repository.SystemUserOrganizationSearch; the user is given as the text of its id. */
  datatype SystemUserOrganizationSearch = SystemUserOrganizationSearch(
    organizationId: Uuid, systemUser: string, pageSize: int, pageNumber: int, orderBy: string)

  /** One call on BaseRepository[T, uuid.UUID, S] with its arguments; a nil *S is None. */
  datatype Call<T, S> =
    | Save(context: Option<S>, item: T)
    | SaveMany(context: Option<S>, items: seq<T>)
    | Update(context: Option<S>, item: T)
    | UpdateMany(context: Option<S>, items: seq<T>)
    | Delete(context: Option<S>, id: Uuid)
    | DeleteByIds(context: Option<S>, ids: seq<Uuid>)
    | FindById(context: Option<S>, id: Uuid)
    | FindByIds(context: Option<S>, ids: seq<Uuid>)
    | FindAll(context: Option<S>, pageSize: int, page: int)
    | Search(context: Option<S>)
    | Count(context: Option<S>)
    | Deleted(context: Option<S>)

  /**
   * The results of a call: each Go method returns the parts its signature has
   * (an item pointer, a slice, a count or a list of ids) and an error.
   */
  datatype Reply<T> = Reply(item: Option<T>, items: seq<T>, count: int, ids: seq<string>, err: Outcome)

  class BaseRepository<T, S> {
    /** The implementation's answer to a call, given the calls made before it. */
    const answer: (seq<Call<T, S>>, Call<T, S>) -> Reply<T>
    /** The calls made so far, oldest first. */
    var calls: seq<Call<T, S>>

    constructor (answer: (seq<Call<T, S>>, Call<T, S>) -> Reply<T>)
      ensures this.answer == answer && calls == []
    {
      this.answer := answer;
      calls := [];
    }

    /** The reply to the latest call. */
    function LastReply(): Reply<T>
      requires calls != []
      reads this
    {
      answer(calls[..|calls| - 1], calls[|calls| - 1])
    }

    /** One call through the interface: it is recorded and answered. */
    method Invoke(c: Call<T, S>) returns (r: Reply<T>)
      modifies this
      ensures calls == old(calls) + [c]
      ensures r == LastReply() && r == answer(old(calls), c)
    {
      r := answer(calls, c);
      calls := calls + [c];
      assert calls[..|calls| - 1] == old(calls);
    }
  }

  /** One call on SystemUserRepo (repository/system_user_repository.go). */
  datatype UserCall =
    | SaveUser(user: UserRecord)
    | DeleteUser(user: UserRecord)
    | FindByUserName(userName: string)
    | FindUserById(userId: Uuid)

  /** Its results: the user found, if any, and the error. */
  datatype UserReply = UserReply(user: Option<UserRecord>, err: Outcome)

  class SystemUserRepo {
    const answer: (seq<UserCall>, UserCall) -> UserReply
    var calls: seq<UserCall>

    constructor (answer: (seq<UserCall>, UserCall) -> UserReply)
      ensures this.answer == answer && calls == []
    {
      this.answer := answer;
      calls := [];
    }

    function LastReply(): UserReply
      requires calls != []
      reads this
    {
      answer(calls[..|calls| - 1], calls[|calls| - 1])
    }

    method Invoke(c: UserCall) returns (r: UserReply)
      modifies this
      ensures calls == old(calls) + [c]
      ensures r == LastReply() && r == answer(old(calls), c)
    {
      r := answer(calls, c);
      calls := calls + [c];
      assert calls[..|calls| - 1] == old(calls);
    }
  }
}
