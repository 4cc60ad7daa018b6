/** service/system_user_service.go: looking users up, registering them with their organisation, removing memberships, checking passwords. */
module SystemUserService {
  import opened Wrappers
  import opened Model
  import opened Repository
  import Role

  const UserNotFound: Error := Message("user not found")
  const NoContact: Error := Message("email and mobile are both nil")
  const NilDereference: string := "runtime error: invalid memory address or nil pointer dereference"

  /**
   * The user name SearchUserByEmailOrMobile hands to FindByUserName, as written: the email
   * when it is given, and still the email when only the mobile number is given.
   */
  function LookupName(email: string, mobile: string): (r: Option<string>)
    ensures r.None? <==> email == "" && mobile == ""
    ensures r.Some? ==> r.value == email
  {
    if email != "" then Some(email)
    else if mobile != "" then Some(email)
    else None
  }

  /** As written, a mobile-only search looks up the empty user name, and never the mobile number. */
  lemma MobileIgnored(mobile: string)
    requires mobile != ""
    ensures LookupName("", mobile) == Some("")
    ensures LookupName("", mobile) != Some(mobile)
  {
  }

  /** The evidently intended lookup: the email if given, else the mobile number. */
  function IntendedLookupName(email: string, mobile: string): (r: Option<string>)
  {
    if email != "" then Some(email)
    else if mobile != "" then Some(mobile)
    else None
  }

  /** The intended lookup never searches for an empty name and always uses a contact that was given, the email first. */
  lemma IntendedLookupSpec(email: string, mobile: string)
    ensures IntendedLookupName(email, mobile).None? <==> email == "" && mobile == ""
    ensures IntendedLookupName(email, mobile).Some? ==>
      IntendedLookupName(email, mobile).value != "" &&
      IntendedLookupName(email, mobile).value in {email, mobile}
    ensures email != "" ==> IntendedLookupName(email, mobile) == Some(email)
    ensures email == "" && mobile != "" ==> IntendedLookupName(email, mobile) == Some(mobile)
  {
  }

  /**
   * What Register does to the user before saving it, and how far it gets: after validation a
   * Nil id is replaced by the fresh one, then the password by its hash. The first failure
   * (validation, id generation, hashing) stops it, and the record stays as that failure finds it.
   */
  function Prepare(u: UserRecord, valid: Outcome, newId: Result<FreshUuid>, hashed: Result<string>): (r: (UserRecord, Outcome))
    ensures r.1.Pass? <==> valid.Pass? && (u.userId == Nil ==> newId.Ok?) && hashed.Ok?
    ensures r.1.Pass? ==> r.0.userId != Nil && r.0.password == hashed.value
    ensures u.userId != Nil ==> r.0.userId == u.userId
    ensures u.userId == Nil && valid.Pass? && newId.Ok? ==> r.0.userId == newId.value
    ensures r.0 == u.(userId := r.0.userId, password := r.0.password)
    ensures !r.1.Pass? ==> r.0.password == u.password
    ensures valid.Fail? ==> r == (u, valid)
  {
    if valid.Fail? then (u, valid)
    else if u.userId == Nil && newId.Err? then (u, Fail(newId.error))
    else
      var withId := if u.userId == Nil then u.(userId := newId.value) else u;
      if hashed.Err? then (withId, Fail(hashed.error))
      else (withId.(password := hashed.value), Pass)
  }

  /** The membership search DeleteOrgSystemUserById runs: the organisation and the text of the user's id. */
  function MembershipQuery(orgId: Uuid, userId: Uuid): (q: SystemUserOrganizationSearch)
    ensures q.organizationId == orgId && q.systemUser == UuidText(userId)
  {
    SystemUserOrganizationSearch(orgId, UuidText(userId), 0, 0, "")
  }

  class SystemUserService {
    const systemUserRepo: SystemUserRepo
    const organizationRepo: BaseRepository<Organization, OrganizationSearch>
    const membershipRepo: BaseRepository<SystemUserOrganization, SystemUserOrganizationSearch>
    /** Validate.Struct, an input to the model. */
    const validate: UserRecord -> Outcome
    /** bcrypt.GenerateFromPassword at the default cost, an input to the model. */
    const hash: string -> Result<string>
    /** bcrypt.CompareHashAndPassword(stored hash, password), an input to the model. */
    const compare: (string, string) -> Outcome

    constructor (
      systemUserRepo: SystemUserRepo,
      organizationRepo: BaseRepository<Organization, OrganizationSearch>,
      membershipRepo: BaseRepository<SystemUserOrganization, SystemUserOrganizationSearch>,
      validate: UserRecord -> Outcome, hash: string -> Result<string>, compare: (string, string) -> Outcome)
      ensures this.systemUserRepo == systemUserRepo && this.organizationRepo == organizationRepo
      ensures this.membershipRepo == membershipRepo
      ensures this.validate == validate && this.hash == hash && this.compare == compare
    {
      this.systemUserRepo := systemUserRepo;
      this.organizationRepo := organizationRepo;
      this.membershipRepo := membershipRepo;
      this.validate := validate;
      this.hash := hash;
      this.compare := compare;
    }

    /** SearchUserByEmailOrMobile: one FindByUserName of LookupName's choice, or an error when neither is given. */
    method SearchUserByEmailOrMobile(email: string, mobile: string) returns (user: Option<UserRecord>, err: Outcome)
      modifies systemUserRepo
      ensures email == "" && mobile == "" ==>
        user == None && err == Fail(NoContact) && systemUserRepo.calls == old(systemUserRepo.calls)
      ensures LookupName(email, mobile).Some? ==>
        systemUserRepo.calls == old(systemUserRepo.calls) + [FindByUserName(LookupName(email, mobile).value)] &&
        user == systemUserRepo.LastReply().user && err == systemUserRepo.LastReply().err
    {
      if email != "" {
        var reply := systemUserRepo.Invoke(FindByUserName(email));
        return reply.user, reply.err;
      }
      if mobile != "" {
        var reply := systemUserRepo.Invoke(FindByUserName(email));
        return reply.user, reply.err;
      }
      return None, Fail(NoContact);
    }

    /**
     * Register: the user object is updated in place as Prepare describes; only when every
     * step succeeds is it saved, with the hashed password. The object is returned also when
     * the save fails.
     */
    method Register(item: SystemUser, newId: Result<FreshUuid>) returns (registered: Option<SystemUser>, err: Outcome)
      modifies item, systemUserRepo
      ensures var p := Prepare(old(item.Record()), validate(old(item.Record())), newId, hash(old(item.password)));
        item.Record() == p.0 &&
        (p.1.Fail? ==> registered == None && err == p.1 && systemUserRepo.calls == old(systemUserRepo.calls)) &&
        (p.1.Pass? ==>
          systemUserRepo.calls == old(systemUserRepo.calls) + [SaveUser(p.0)] &&
          registered == Some(item) && err == systemUserRepo.LastReply().err)
    {
      var valid := validate(item.Record());
      if valid.Fail? {
        return None, valid;
      }
      if item.userId == Nil {
        if newId.Err? {
          return None, Fail(newId.error);
        }
        item.userId := newId.value;
      }
      var hashed := hash(item.password);
      if hashed.Err? {
        return None, Fail(hashed.error);
      }
      item.password := hashed.value;
      var reply := systemUserRepo.Invoke(SaveUser(item.Record()));
      return Some(item), reply.err;
    }

    /**
     * RegisterUserAndOrg: save the organisation, make it the user's primary one, register the
     * user, then save the membership with role Owner. Each step runs only when the one before
     * succeeded, and nothing done before a failure is undone. A save that answers neither an
     * organisation nor an error leads to a nil dereference.
     */
    method RegisterUserAndOrg(user: SystemUser, org: Organization, newId: Result<FreshUuid>)
      returns (c: Completion<(Option<SystemUserOrganization>, Outcome)>)
      modifies user, organizationRepo, systemUserRepo, membershipRepo
      ensures organizationRepo.calls == old(organizationRepo.calls) + [Call.Save(None, org)]
      ensures var saved := organizationRepo.LastReply();
        !(saved.err.Pass? && saved.item.Some?) ==>
          user.Record() == old(user.Record()) &&
          systemUserRepo.calls == old(systemUserRepo.calls) && membershipRepo.calls == old(membershipRepo.calls) &&
          (saved.err.Fail? ==> c == Returned((None, saved.err))) &&
          (saved.err.Pass? ==> c == Panicked(NilDereference))
      ensures var saved := organizationRepo.LastReply();
        saved.err.Pass? && saved.item.Some? ==>
          var orgId := saved.item.value.id;
          var before := old(user.Record()).(primaryOrganization := orgId);
          var p := Prepare(before, validate(before), newId, hash(before.password));
          user.Record() == p.0 &&
          (p.1.Fail? ==>
            c == Returned((None, p.1)) &&
            systemUserRepo.calls == old(systemUserRepo.calls) && membershipRepo.calls == old(membershipRepo.calls)) &&
          (p.1.Pass? ==> systemUserRepo.calls == old(systemUserRepo.calls) + [SaveUser(p.0)]) &&
          (p.1.Pass? && systemUserRepo.LastReply().err.Fail? ==>
            c == Returned((None, systemUserRepo.LastReply().err)) && membershipRepo.calls == old(membershipRepo.calls)) &&
          (p.1.Pass? && systemUserRepo.LastReply().err.Pass? ==>
            membershipRepo.calls == old(membershipRepo.calls) +
              [Call.Save(None, SystemUserOrganization(Nil, p.0.userId, orgId, Role.Owner))] &&
            c == Returned((membershipRepo.LastReply().item, membershipRepo.LastReply().err)))
    {
      var saved := organizationRepo.Invoke(Call.Save(None, org));
      if saved.err.Fail? {
        return Returned((None, saved.err));
      }
      if saved.item.None? {
        return Panicked(NilDereference);
      }
      var organization := saved.item.value;
      user.primaryOrganization := organization.id;
      var registered, err := Register(user, newId);
      if err.Fail? {
        return Returned((None, err));
      }
      var membership := SystemUserOrganization(Nil, registered.value.userId, organization.id, Role.Owner);
      var reply := membershipRepo.Invoke(Call.Save(None, membership));
      return Returned((reply.item, reply.err));
    }

    /** DeleteOrgSystemUserById: the memberships of the user in the organisation are searched, and only the first is deleted. */
    method DeleteOrgSystemUserById(orgId: Uuid, userId: Uuid) returns (err: Outcome)
      modifies membershipRepo
      ensures var found := membershipRepo.answer(old(membershipRepo.calls), Call.Search(Some(MembershipQuery(orgId, userId))));
        (found.err.Fail? ==>
          membershipRepo.calls == old(membershipRepo.calls) + [Call.Search(Some(MembershipQuery(orgId, userId)))] &&
          err == found.err) &&
        (found.err.Pass? && found.items == [] ==>
          membershipRepo.calls == old(membershipRepo.calls) + [Call.Search(Some(MembershipQuery(orgId, userId)))] &&
          err == Fail(UserNotFound)) &&
        (found.err.Pass? && found.items != [] ==>
          membershipRepo.calls == old(membershipRepo.calls) +
            [Call.Search(Some(MembershipQuery(orgId, userId))), Call.Delete(None, found.items[0].id)] &&
          err == membershipRepo.LastReply().err)
    {
      var search := MembershipQuery(orgId, userId);
      var found := membershipRepo.Invoke(Call.Search(Some(search)));
      if found.err.Fail? {
        return found.err;
      }
      if |found.items| == 0 {
        return Fail(UserNotFound);
      }
      var reply := membershipRepo.Invoke(Call.Delete(None, found.items[0].id));
      return reply.err;
    }

    /**
     * VerifyPassword: nil exactly when both texts are given, the lookup succeeds with a user,
     * and the stored hash matches the password; otherwise the first error met.
     */
    method VerifyPassword(username: string, password: string) returns (err: Outcome)
      modifies systemUserRepo
      ensures username == "" || password == "" ==>
        err == Fail(UserNotFound) && systemUserRepo.calls == old(systemUserRepo.calls)
      ensures username != "" && password != "" ==>
        systemUserRepo.calls == old(systemUserRepo.calls) + [FindByUserName(username)]
      ensures err == Pass <==>
        username != "" && password != "" &&
        var found := systemUserRepo.LastReply();
        found.err.Pass? && found.user.Some? && compare(found.user.value.password, password) == Pass
      ensures username != "" && password != "" ==>
        var found := systemUserRepo.LastReply();
        (found.err.Fail? ==> err == found.err) &&
        (found.err.Pass? && found.user.None? ==> err == Fail(UserNotFound)) &&
        (found.err.Pass? && found.user.Some? ==> err == compare(found.user.value.password, password))
    {
      if username == "" {
        return Fail(UserNotFound);
      }
      if password == "" {
        return Fail(UserNotFound);
      }
      var found := systemUserRepo.Invoke(FindByUserName(username));
      if found.err.Fail? {
        return found.err;
      }
      if found.user.None? {
        return Fail(UserNotFound);
      }
      err := compare(found.user.value.password, password);
      if err.Fail? {
        return err;
      }
      return Pass;
    }
  }
}
