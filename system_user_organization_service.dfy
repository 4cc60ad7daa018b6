/** service/system_user_organization_service.go: SystemUserOrganizationService, the guards it runs and the paged results it builds. */
module SystemUserOrganizationService {
  import opened Wrappers
  import opened Model
  import opened Repository
  import opened ServiceGuards

  function IdOf(o: SystemUserOrganization): Uuid
  {
    o.id
  }

  class SystemUserOrganizationService {
    const repository: BaseRepository<SystemUserOrganization, SystemUserOrganizationSearch>
    /** Validate.Struct, an input to the model. */
    const validate: SystemUserOrganization -> Outcome

    constructor (repository: BaseRepository<SystemUserOrganization, SystemUserOrganizationSearch>, validate: SystemUserOrganization -> Outcome)
      ensures this.repository == repository && this.validate == validate
    {
      this.repository := repository;
      this.validate := validate;
    }

    /** Create: an invalid item is refused before any repository call; otherwise Save answers. */
    method Create(context: Option<SystemUserOrganizationSearch>, item: SystemUserOrganization) returns (saved: Option<SystemUserOrganization>, err: Outcome)
      modifies repository
      ensures validate(item).Fail? ==>
        saved == None && err == validate(item) && repository.calls == old(repository.calls)
      ensures validate(item).Pass? ==>
        repository.calls == old(repository.calls) + [Call.Save(context, item)] &&
        saved == repository.LastReply().item && err == repository.LastReply().err
    {
      var valid := validate(item);
      if valid.Fail? {
        return None, valid;
      }
      var reply := repository.Invoke(Call.Save(context, item));
      return reply.item, reply.err;
    }

    /** CreateMany: every item is validated first; one invalid item means nothing is saved. */
    method CreateMany(context: Option<SystemUserOrganizationSearch>, items: seq<SystemUserOrganization>) returns (saved: seq<SystemUserOrganization>, err: Outcome)
      modifies repository
      ensures FirstFailure(items, validate, IdOf, false).Fail? ==>
        saved == [] && err == FirstFailure(items, validate, IdOf, false) &&
        repository.calls == old(repository.calls)
      ensures FirstFailure(items, validate, IdOf, false).Pass? ==>
        repository.calls == old(repository.calls) + [Call.SaveMany(context, items)] &&
        saved == repository.LastReply().items && err == repository.LastReply().err
    {
      var guard := CheckItems(items, validate, IdOf, false);
      if guard.Fail? {
        return [], guard;
      }
      var reply := repository.Invoke(Call.SaveMany(context, items));
      return reply.items, reply.err;
    }

    /** Update: an invalid item or a Nil id is refused before any repository call. */
    method Update(context: Option<SystemUserOrganizationSearch>, item: SystemUserOrganization) returns (updated: Option<SystemUserOrganization>, err: Outcome)
      modifies repository
      ensures validate(item).Fail? ==>
        updated == None && err == validate(item) && repository.calls == old(repository.calls)
      ensures validate(item).Pass? && item.id == Nil ==>
        updated == None && err == Fail(MissingId) && repository.calls == old(repository.calls)
      ensures validate(item).Pass? && item.id != Nil ==>
        repository.calls == old(repository.calls) + [Call.Update(context, item)] &&
        updated == repository.LastReply().item && err == repository.LastReply().err
    {
      var valid := validate(item);
      if valid.Fail? {
        return None, valid;
      }
      if item.id == Nil {
        return None, Fail(MissingId);
      }
      var reply := repository.Invoke(Call.Update(context, item));
      return reply.item, reply.err;
    }

    /** UpdateMany: every item must validate and carry an id before the single UpdateMany call. */
    method UpdateMany(context: Option<SystemUserOrganizationSearch>, items: seq<SystemUserOrganization>) returns (updated: seq<SystemUserOrganization>, err: Outcome)
      modifies repository
      ensures FirstFailure(items, validate, IdOf, true).Fail? ==>
        updated == [] && err == FirstFailure(items, validate, IdOf, true) &&
        repository.calls == old(repository.calls)
      ensures FirstFailure(items, validate, IdOf, true).Pass? ==>
        repository.calls == old(repository.calls) + [Call.UpdateMany(context, items)] &&
        updated == repository.LastReply().items && err == repository.LastReply().err
    {
      var guard := CheckItems(items, validate, IdOf, true);
      if guard.Fail? {
        return [], guard;
      }
      var reply := repository.Invoke(Call.UpdateMany(context, items));
      return reply.items, reply.err;
    }

    /** Delete: a Nil id is refused; otherwise the repository's Delete answers. */
    method Delete(context: Option<SystemUserOrganizationSearch>, id: Uuid) returns (err: Outcome)
      modifies repository
      ensures id == Nil ==> err == Fail(MissingId) && repository.calls == old(repository.calls)
      ensures id != Nil ==>
        repository.calls == old(repository.calls) + [Call.Delete(context, id)] && err == repository.LastReply().err
    {
      if id == Nil {
        return Fail(MissingId);
      }
      var reply := repository.Invoke(Call.Delete(context, id));
      return reply.err;
    }

    /** DeleteMany: "invalid id" if any id is Nil, and then nothing is deleted. */
    method DeleteMany(context: Option<SystemUserOrganizationSearch>, ids: seq<Uuid>) returns (err: Outcome)
      modifies repository
      ensures Nil in ids ==> err == Fail(InvalidId) && repository.calls == old(repository.calls)
      ensures Nil !in ids ==>
        repository.calls == old(repository.calls) + [Call.DeleteByIds(context, ids)] && err == repository.LastReply().err
    {
      var guard := CheckIds(ids);
      if guard.Fail? {
        return guard;
      }
      var reply := repository.Invoke(Call.DeleteByIds(context, ids));
      return reply.err;
    }

    /** FindById: a Nil id is refused; otherwise the repository's FindById answers. */
    method FindById(context: Option<SystemUserOrganizationSearch>, id: Uuid) returns (found: Option<SystemUserOrganization>, err: Outcome)
      modifies repository
      ensures id == Nil ==> found == None && err == Fail(MissingId) && repository.calls == old(repository.calls)
      ensures id != Nil ==>
        repository.calls == old(repository.calls) + [Call.FindById(context, id)] &&
        found == repository.LastReply().item && err == repository.LastReply().err
    {
      if id == Nil {
        return None, Fail(MissingId);
      }
      var reply := repository.Invoke(Call.FindById(context, id));
      return reply.item, reply.err;
    }

    /** FindByIds: "invalid id" if any id is Nil, and then nothing is fetched. */
    method FindByIds(context: Option<SystemUserOrganizationSearch>, ids: seq<Uuid>) returns (found: seq<SystemUserOrganization>, err: Outcome)
      modifies repository
      ensures Nil in ids ==> found == [] && err == Fail(InvalidId) && repository.calls == old(repository.calls)
      ensures Nil !in ids ==>
        repository.calls == old(repository.calls) + [Call.FindByIds(context, ids)] &&
        found == repository.LastReply().items && err == repository.LastReply().err
    {
      var guard := CheckIds(ids);
      if guard.Fail? {
        return [], guard;
      }
      var reply := repository.Invoke(Call.FindByIds(context, ids));
      return reply.items, reply.err;
    }

    /**
     * FindAll: one page of items; the count is taken under the same filter and stands for both
     * the total and the page size, with page number 0. The count's error is dropped.
     */
    method FindAll(context: Option<SystemUserOrganizationSearch>, pageSize: int, page: int) returns (result: PagedResult<SystemUserOrganization>, err: Outcome)
      modifies repository
      ensures var first := repository.answer(old(repository.calls), Call.FindAll(context, pageSize, page));
        first.err.Fail? ==>
          repository.calls == old(repository.calls) + [Call.FindAll(context, pageSize, page)] &&
          result == EmptyPage() && err == first.err
      ensures var first := repository.answer(old(repository.calls), Call.FindAll(context, pageSize, page));
        first.err.Pass? ==>
          repository.calls == old(repository.calls) + [Call.FindAll(context, pageSize, page), Call.Count(context)] &&
          err == Pass &&
          result == PagedResult(repository.LastReply().count, 0, repository.LastReply().count, first.items)
    {
      var page1 := repository.Invoke(Call.FindAll(context, pageSize, page));
      if page1.err.Fail? {
        return EmptyPage(), page1.err;
      }
      var counted := repository.Invoke(Call.Count(context));
      result := PagedResult(counted.count, 0, counted.count, page1.items);
      return result, Pass;
    }

    /**
     * Search: the matching items, the count under the same criteria, and the page size and
     * number copied from the criteria. The count's error is dropped.
     */
    method Search(params: SystemUserOrganizationSearch) returns (result: PagedResult<SystemUserOrganization>, err: Outcome)
      modifies repository
      ensures var first := repository.answer(old(repository.calls), Call.Search(Some(params)));
        first.err.Fail? ==>
          repository.calls == old(repository.calls) + [Call.Search(Some(params))] &&
          result == EmptyPage() && err == first.err
      ensures var first := repository.answer(old(repository.calls), Call.Search(Some(params)));
        first.err.Pass? ==>
          repository.calls == old(repository.calls) + [Call.Search(Some(params)), Call.Count(Some(params))] &&
          err == Pass &&
          result == PagedResult(repository.LastReply().count, params.pageNumber, params.pageSize, first.items)
    {
      var found := repository.Invoke(Call.Search(Some(params)));
      if found.err.Fail? {
        return EmptyPage(), found.err;
      }
      var counted := repository.Invoke(Call.Count(Some(params)));
      result := PagedResult(counted.count, params.pageNumber, params.pageSize, found.items);
      return result, Pass;
    }

    /** Deleted: the repository's answer, passed through. */
    method Deleted(params: Option<SystemUserOrganizationSearch>) returns (ids: seq<string>, err: Outcome)
      modifies repository
      ensures repository.calls == old(repository.calls) + [Call.Deleted(params)]
      ensures ids == repository.LastReply().ids && err == repository.LastReply().err
    {
      var reply := repository.Invoke(Call.Deleted(params));
      return reply.ids, reply.err;
    }
  }
}
