/** service/organization_service.go: OrganizationService, the guards it runs and the paged results it builds. */
module OrganizationService {
  import opened Wrappers
  import opened Model
  import opened Repository
  import opened ServiceGuards

  function IdOf(o: Organization): Uuid
  {
    o.id
  }

  class OrganizationService {
    const repository: BaseRepository<Organization, OrganizationSearch>
    /** Validate.Struct, an input to the model. */
    const validate: Organization -> Outcome

    constructor (repository: BaseRepository<Organization, OrganizationSearch>, validate: Organization -> Outcome)
      ensures this.repository == repository && this.validate == validate
    {
      this.repository := repository;
      this.validate := validate;
    }

    /** Create: an invalid item is refused before any repository call; otherwise Save answers. */
    method Create(context: Option<OrganizationSearch>, item: Organization) returns (saved: Option<Organization>, err: Outcome)
      modifies repository
      ensures validate(item).Fail? ==>
        saved == None && err == validate(item) && repository.calls == old(repository.calls)
      ensures validate(item).Pass? ==>
        repository.calls == old(repository.calls) + [Call.Save(context, item)] &&
        saved == repository.LastReply().item && err == repository.LastReply().err
    {
      var valid := validate(item);
      if valid.Fail? {
        return None, valid;
      }
      var reply := repository.Invoke(Call.Save(context, item));
      return reply.item, reply.err;
    }

    /** CreateMany: every item is validated first; one invalid item means nothing is saved. */
    method CreateMany(context: Option<OrganizationSearch>, items: seq<Organization>) returns (saved: seq<Organization>, err: Outcome)
      modifies repository
      ensures FirstFailure(items, validate, IdOf, false).Fail? ==>
        saved == [] && err == FirstFailure(items, validate, IdOf, false) &&
        repository.calls == old(repository.calls)
      ensures FirstFailure(items, validate, IdOf, false).Pass? ==>
        repository.calls == old(repository.calls) + [Call.SaveMany(context, items)] &&
        saved == repository.LastReply().items && err == repository.LastReply().err
    {
      var guard := CheckItems(items, validate, IdOf, false);
      if guard.Fail? {
        return [], guard;
      }
      var reply := repository.Invoke(Call.SaveMany(context, items));
      return reply.items, reply.err;
    }

    /** Update: an invalid item or a Nil id is refused before any repository call. */
    method Update(context: Option<OrganizationSearch>, item: Organization) returns (updated: Option<Organization>, err: Outcome)
      modifies repository
      ensures validate(item).Fail? ==>
        updated == None && err == validate(item) && repository.calls == old(repository.calls)
      ensures validate(item).Pass? && item.id == Nil ==>
        updated == None && err == Fail(MissingId) && repository.calls == old(repository.calls)
      ensures validate(item).Pass? && item.id != Nil ==>
        repository.calls == old(repository.calls) + [Call.Update(context, item)] &&
        updated == repository.LastReply().item && err == repository.LastReply().err
    {
      var valid := validate(item);
      if valid.Fail? {
        return None, valid;
      }
      if item.id == Nil {
        return None, Fail(MissingId);
      }
      var reply := repository.Invoke(Call.Update(context, item));
      return reply.item, reply.err;
    }

    /** UpdateMany: every item must validate and carry an id before the single UpdateMany call. */
    method UpdateMany(context: Option<OrganizationSearch>, items: seq<Organization>) returns (updated: seq<Organization>, err: Outcome)
      modifies repository
      ensures FirstFailure(items, validate, IdOf, true).Fail? ==>
        updated == [] && err == FirstFailure(items, validate, IdOf, true) &&
        repository.calls == old(repository.calls)
      ensures FirstFailure(items, validate, IdOf, true).Pass? ==>
        repository.calls == old(repository.calls) + [Call.UpdateMany(context, items)] &&
        updated == repository.LastReply().items && err == repository.LastReply().err
    {
      var guard := CheckItems(items, validate, IdOf, true);
      if guard.Fail? {
        return [], guard;
      }
      var reply := repository.Invoke(Call.UpdateMany(context, items));
      return reply.items, reply.err;
    }

    /** Delete: a Nil id is refused; otherwise the repository's Delete answers. */
    method Delete(context: Option<OrganizationSearch>, id: Uuid) returns (err: Outcome)
      modifies repository
      ensures id == Nil ==> err == Fail(MissingId) && repository.calls == old(repository.calls)
      ensures id != Nil ==>
        repository.calls == old(repository.calls) + [Call.Delete(context, id)] && err == repository.LastReply().err
    {
      if id == Nil {
        return Fail(MissingId);
      }
      var reply := repository.Invoke(Call.Delete(context, id));
      return reply.err;
    }

    /** DeleteMany: "invalid id" if any id is Nil, and then nothing is deleted. */
    method DeleteMany(context: Option<OrganizationSearch>, ids: seq<Uuid>) returns (err: Outcome)
      modifies repository
      ensures Nil in ids ==> err == Fail(InvalidId) && repository.calls == old(repository.calls)
      ensures Nil !in ids ==>
        repository.calls == old(repository.calls) + [Call.DeleteByIds(context, ids)] && err == repository.LastReply().err
    {
      var guard := CheckIds(ids);
      if guard.Fail? {
        return guard;
      }
      var reply := repository.Invoke(Call.DeleteByIds(context, ids));
      return reply.err;
    }

    /** FindById: a Nil id is refused; otherwise the repository's FindById answers. */
    method FindById(context: Option<OrganizationSearch>, id: Uuid) returns (found: Option<Organization>, err: Outcome)
      modifies repository
      ensures id == Nil ==> found == None && err == Fail(MissingId) && repository.calls == old(repository.calls)
      ensures id != Nil ==>
        repository.calls == old(repository.calls) + [Call.FindById(context, id)] &&
        found == repository.LastReply().item && err == repository.LastReply().err
    {
      if id == Nil {
        return None, Fail(MissingId);
      }
      var reply := repository.Invoke(Call.FindById(context, id));
      return reply.item, reply.err;
    }

    /** FindByIds: "invalid id" if any id is Nil, and then nothing is fetched. */
    method FindByIds(context: Option<OrganizationSearch>, ids: seq<Uuid>) returns (found: seq<Organization>, err: Outcome)
      modifies repository
      ensures Nil in ids ==> found == [] && err == Fail(InvalidId) && repository.calls == old(repository.calls)
      ensures Nil !in ids ==>
        repository.calls == old(repository.calls) + [Call.FindByIds(context, ids)] &&
        found == repository.LastReply().items && err == repository.LastReply().err
    {
      var guard := CheckIds(ids);
      if guard.Fail? {
        return [], guard;
      }
      var reply := repository.Invoke(Call.FindByIds(context, ids));
      return reply.items, reply.err;
    }

    /**
     * FindAll: one page of items; the count is taken over everything (a nil filter) and stands
     * for both the total and the page size, with page number 0. The count's error is dropped.
     */
    method FindAll(context: Option<OrganizationSearch>, pageSize: int, page: int) returns (result: PagedResult<Organization>, err: Outcome)
      modifies repository
      ensures var first := repository.answer(old(repository.calls), Call.FindAll(context, pageSize, page));
        first.err.Fail? ==>
          repository.calls == old(repository.calls) + [Call.FindAll(context, pageSize, page)] &&
          result == EmptyPage() && err == first.err
      ensures var first := repository.answer(old(repository.calls), Call.FindAll(context, pageSize, page));
        first.err.Pass? ==>
          repository.calls == old(repository.calls) + [Call.FindAll(context, pageSize, page), Call.Count(None)] &&
          err == Pass &&
          result == PagedResult(repository.LastReply().count, 0, repository.LastReply().count, first.items)
    {
      var page1 := repository.Invoke(Call.FindAll(context, pageSize, page));
      if page1.err.Fail? {
        return EmptyPage(), page1.err;
      }
      var counted := repository.Invoke(Call.Count(None));
      result := PagedResult(counted.count, 0, counted.count, page1.items);
      return result, Pass;
    }

    /**
     * Search: the matching items, the count under the same criteria, and the page size and
     * number copied from the criteria. The count's error is dropped.
     */
    method Search(params: OrganizationSearch) returns (result: PagedResult<Organization>, err: Outcome)
      modifies repository
      ensures var first := repository.answer(old(repository.calls), Call.Search(Some(params)));
        first.err.Fail? ==>
          repository.calls == old(repository.calls) + [Call.Search(Some(params))] &&
          result == EmptyPage() && err == first.err
      ensures var first := repository.answer(old(repository.calls), Call.Search(Some(params)));
        first.err.Pass? ==>
          repository.calls == old(repository.calls) + [Call.Search(Some(params)), Call.Count(Some(params))] &&
          err == Pass &&
          result == PagedResult(repository.LastReply().count, params.pageNumber, params.pageSize, first.items)
    {
      var found := repository.Invoke(Call.Search(Some(params)));
      if found.err.Fail? {
        return EmptyPage(), found.err;
      }
      var counted := repository.Invoke(Call.Count(Some(params)));
      result := PagedResult(counted.count, params.pageNumber, params.pageSize, found.items);
      return result, Pass;
    }

    /** Deleted: the repository's answer, passed through. */
    method Deleted(params: Option<OrganizationSearch>) returns (ids: seq<string>, err: Outcome)
      modifies repository
      ensures repository.calls == old(repository.calls) + [Call.Deleted(params)]
      ensures ids == repository.LastReply().ids && err == repository.LastReply().err
    {
      var reply := repository.Invoke(Call.Deleted(params));
      return reply.ids, reply.err;
    }
  }
}
