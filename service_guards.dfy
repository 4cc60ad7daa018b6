/**
 * The checks the services run before calling a repository (the services under service/), and the
 * paged result they build (data/response: PagedResult).
 */
module ServiceGuards {
  import opened Wrappers
  import opened Model

  const MissingId: Error := Message("entity id is missing")
  const InvalidId: Error := Message("invalid id")

  /** An item passes the guard of a bulk write: it validates, and has an id when one is required. */
  predicate Acceptable<T>(x: T, validate: T -> Outcome, idOf: T -> Uuid, needId: bool)
  {
    validate(x).Pass? && (needId ==> idOf(x) != Nil)
  }

  /**
   * The error the guard loop of CreateMany / UpdateMany stops at: for the first item that is
   * not acceptable, its validation error, or "entity id is missing" when it validates.
   */
  function FirstFailure<T>(items: seq<T>, validate: T -> Outcome, idOf: T -> Uuid, needId: bool): Outcome
  {
    if items == [] then Pass
    else if validate(items[0]).Fail? then validate(items[0])
    else if needId && idOf(items[0]) == Nil then Fail(MissingId)
    else FirstFailure(items[1..], validate, idOf, needId)
  }

  /** The guard passes exactly when every item is acceptable, and otherwise reports the first one that is not. */
  lemma FirstFailureSpec<T>(items: seq<T>, validate: T -> Outcome, idOf: T -> Uuid, needId: bool)
    ensures FirstFailure(items, validate, idOf, needId) == Pass <==>
      forall i :: 0 <= i < |items| ==> Acceptable(items[i], validate, idOf, needId)
    ensures FirstFailure(items, validate, idOf, needId).Fail? ==>
      exists k :: 0 <= k < |items| && !Acceptable(items[k], validate, idOf, needId) &&
        (forall i :: 0 <= i < k ==> Acceptable(items[i], validate, idOf, needId)) &&
        FirstFailure(items, validate, idOf, needId) ==
          (if validate(items[k]).Fail? then validate(items[k]) else Fail(MissingId))
  {
    FirstFailurePasses(items, validate, idOf, needId);
    if FirstFailure(items, validate, idOf, needId).Fail? {
      var k := FirstFailureAt(items, validate, idOf, needId);
    }
  }

  lemma {:induction false} FirstFailurePasses<T>(items: seq<T>, validate: T -> Outcome, idOf: T -> Uuid, needId: bool)
    ensures FirstFailure(items, validate, idOf, needId) == Pass <==>
      forall i :: 0 <= i < |items| ==> Acceptable(items[i], validate, idOf, needId)
  {
    if items != [] {
      var rest := items[1..];
      FirstFailurePasses(rest, validate, idOf, needId);
      assert (forall i :: 0 <= i < |items| ==> Acceptable(items[i], validate, idOf, needId)) <==>
        Acceptable(items[0], validate, idOf, needId) && forall i :: 0 <= i < |rest| ==> Acceptable(rest[i], validate, idOf, needId)
      by {
        forall i | 0 < i < |items| ensures items[i] == rest[i - 1] { }
      }
    }
  }

  /** The index of the first item that is not acceptable, which the guard's error comes from. */
  lemma {:induction false} FirstFailureAt<T>(items: seq<T>, validate: T -> Outcome, idOf: T -> Uuid, needId: bool) returns (k: nat)
    requires FirstFailure(items, validate, idOf, needId).Fail?
    ensures k < |items| && !Acceptable(items[k], validate, idOf, needId)
    ensures forall i :: 0 <= i < k ==> Acceptable(items[i], validate, idOf, needId)
    ensures FirstFailure(items, validate, idOf, needId) ==
      (if validate(items[k]).Fail? then validate(items[k]) else Fail(MissingId))
  {
    if Acceptable(items[0], validate, idOf, needId) {
      var rest := items[1..];
      var j := FirstFailureAt(rest, validate, idOf, needId);
      k := j + 1;
      assert items[k] == rest[j];
      forall i | 0 <= i < k ensures Acceptable(items[i], validate, idOf, needId) {
        if i > 0 { assert items[i] == rest[i - 1]; }
      }
    } else {
      k := 0;
    }
  }

  /** The guard loop: validates the items in order and stops at the first failure. */
  method CheckItems<T>(items: seq<T>, validate: T -> Outcome, idOf: T -> Uuid, needId: bool) returns (r: Outcome)
    ensures r == FirstFailure(items, validate, idOf, needId)
  {
    for i := 0 to |items|
      invariant FirstFailure(items[i..], validate, idOf, needId) == FirstFailure(items, validate, idOf, needId)
    {
      assert items[i..][0] == items[i] && items[i..][1..] == items[i + 1..];
      if validate(items[i]).Fail? {
        return validate(items[i]);
      }
      if needId && idOf(items[i]) == Nil {
        return Fail(MissingId);
      }
    }
    assert items[|items|..] == [];
    return Pass;
  }

  /** The id loop of DeleteMany / FindByIds: "invalid id" exactly when some id is Nil. */
  method CheckIds(ids: seq<Uuid>) returns (r: Outcome)
    ensures r == Pass <==> Nil !in ids
    ensures r != Pass ==> r == Fail(InvalidId)
  {
    for i := 0 to |ids|
      invariant Nil !in ids[..i]
    {
      if ids[i] == Nil {
        return Fail(InvalidId);
      }
      assert ids[..i + 1] == ids[..i] + [ids[i]];
    }
    assert ids[..|ids|] == ids;
    return Pass;
  }

  /** response.PagedResult */
  datatype PagedResult<T> = PagedResult(totalItems: int, pageNumber: int, pageSize: int, items: seq<T>)

  /** The zero PagedResult, returned together with an error. */
  function EmptyPage<T>(): PagedResult<T>
  {
    PagedResult(0, 0, 0, [])
  }
}
