/** The OAuth2 client record and its scope / grant-type policy (auth/db_client_store.go). */
module ClientPolicy {
  import opened Wrappers
  import opened Strings

  /** One row of the client table; `id` is its primary key. */
  datatype Client = Client(
    id: string,
    secret: string,
    domain: string,
    isPublic: bool,
    userID: string,
    scope: string,                 // comma-separated authorised scopes
    authorizedGrantTypes: string)  // comma-separated authorised grant types

  function GetID(c: Client): string { c.id }
  function GetSecret(c: Client): string { c.secret }
  function GetDomain(c: Client): string { c.domain }
  function IsPublic(c: Client): bool { c.isPublic }
  function GetUserID(c: Client): string { c.userID }

  /** The oauth2.ClientInfo getters read the record's own fields. */
  lemma ClientGetters(c: Client)
    ensures GetID(c) == c.id && GetSecret(c) == c.secret && GetDomain(c) == c.domain
    ensures IsPublic(c) == c.isPublic && GetUserID(c) == c.userID
  {
  }

  /** One policy item after cleaning: surrounding white space removed, then lower-cased. */
  function Clean(part: string): string
  {
    ToLower(TrimSpace(part))
  }

  /** The cleaned items of a comma-separated policy string. */
  function Cleaned(values: string): seq<string>
  {
    var parts := Split(values, ',');
    seq(|parts|, i requires 0 <= i < |parts| => Clean(parts[i]))
  }

  /** Every requested item occurs among the authorised ones. */
  predicate Covers(authorized: seq<string>, requested: seq<string>)
  {
    forall i :: 0 <= i < |requested| ==> requested[i] in authorized
  }

  /** The policy decision both Verify checks take. */
  predicate Authorizes(policy: string, requested: string)
  {
    Covers(Cleaned(policy), Cleaned(requested))
  }

  /** splitAndClean: fills a slice of the same length as the split, item by item. */
  method SplitAndClean(values: string) returns (cleaned: seq<string>)
    ensures |cleaned| == Count(values, ',') + 1
    ensures cleaned == Cleaned(values)
  {
    var parts := Split(values, ',');
    SplitLength(values, ',');
    var a := new string[|parts|];
    for i := 0 to |parts|
      invariant forall k :: 0 <= k < i ==> a[k] == Clean(parts[k])
    {
      a[i] := Clean(parts[i]);
    }
    cleaned := a[..];
  }

  /** checkIfSubArrayExists: for each requested item, a linear search with early exit. */
  method CheckIfSubArrayExists(items: seq<string>, subArray: seq<string>) returns (ok: bool)
    ensures ok == Covers(items, subArray)
  {
    for i := 0 to |subArray|
      invariant forall k :: 0 <= k < i ==> subArray[k] in items
    {
      var wanted := subArray[i];
      var found := false;
      var j := 0;
      while j < |items| && !found
        invariant 0 <= j <= |items|
        invariant found <==> wanted in items[..j]
      {
        found := items[j] == wanted;
        assert items[..j + 1] == items[..j] + [items[j]];
        j := j + 1;
      }
      assert found <==> wanted in items by {
        if !found { assert items[..j] == items; }
      }
      if !found {
        return false;
      }
    }
    return true;
  }

  /** Client.VerifyScopes */
  method VerifyScopes(c: Client, scopes: string) returns (r: Outcome)
    ensures r == Pass <==> Authorizes(c.scope, scopes)
    ensures r != Pass ==> r == Fail(InvalidScope)
  {
    var authorizedScopes := SplitAndClean(c.scope);
    var scopesToCheck := SplitAndClean(scopes);
    var ok := CheckIfSubArrayExists(authorizedScopes, scopesToCheck);
    r := if ok then Pass else Fail(InvalidScope);
  }

  /** Client.VerifyGrantTypes */
  method VerifyGrantTypes(c: Client, grantTypes: string) returns (r: Outcome)
    ensures r == Pass <==> Authorizes(c.authorizedGrantTypes, grantTypes)
    ensures r != Pass ==> r == Fail(UnauthorizedClient)
  {
    var authorizedGrantTypes := SplitAndClean(c.authorizedGrantTypes);
    var grantTypesToCheck := SplitAndClean(grantTypes);
    var ok := CheckIfSubArrayExists(authorizedGrantTypes, grantTypesToCheck);
    r := if ok then Pass else Fail(UnauthorizedClient);
  }

  // ---------------------------------------------------------------------------
  // Properties of the policy decision

  /** A cleaned item has no white space at either end and no upper-case letter. */
  lemma CleanIsNormal(part: string)
    ensures var x := Clean(part); x == [] || (!IsSpace(x[0]) && !IsSpace(x[|x| - 1]))
    ensures var x := Clean(part); forall k :: 0 <= k < |x| ==> !IsUpper(x[k])
    ensures TrimSpace(Clean(part)) == Clean(part)
  {
    var t := TrimSpace(part);
    TrimSpaceEnds(part);
    ToLowerSpec(t);
    if t != [] {
      LowerKeepsSpaces(t[0]);
      LowerKeepsSpaces(t[|t| - 1]);
    }
    TrimSpaceUnchanged(Clean(part));
  }

  /** Cleaning twice is cleaning once. */
  lemma CleanIdempotent(part: string)
    ensures Clean(Clean(part)) == Clean(part)
  {
    CleanIsNormal(part);
    ToLowerUnchanged(Clean(part));
  }

  /** Every item of a cleaned policy is normal. */
  lemma CleanedItemsAreNormal(values: string)
    ensures forall x :: x in Cleaned(values) ==> TrimSpace(x) == x && Clean(x) == x
  {
    forall x | x in Cleaned(values)
      ensures TrimSpace(x) == x && Clean(x) == x
    {
      var parts := Split(values, ',');
      var i :| 0 <= i < |parts| && x == Clean(parts[i]);
      CleanIsNormal(parts[i]);
      CleanIdempotent(parts[i]);
    }
  }

  lemma LowerKeepsSpaces(c: char)
    ensures IsSpace(LowerChar(c)) == IsSpace(c)
  {
  }

  /** A split always has at least one item, so the empty string cleans to the single empty item. */
  lemma EmptyCleansToEmptyItem()
    ensures Cleaned("") == [""]
  {
    assert Split("", ',') == [""];
  }

  /** Only the set of cleaned items matters: order and repetition are irrelevant. */
  lemma AuthorizesIsSubset(policy: string, requested: string)
    ensures Authorizes(policy, requested) <==> (set x | x in Cleaned(requested)) <= (set x | x in Cleaned(policy))
  {
    var P, R := Cleaned(policy), Cleaned(requested);
    if Covers(P, R) {
      forall x | x in R ensures x in P {
        var i :| 0 <= i < |R| && R[i] == x;
      }
    }
    if (set x | x in R) <= (set x | x in P) {
      var SR, SP := set x | x in R, set x | x in P;
      forall i | 0 <= i < |R| ensures R[i] in P {
        assert R[i] in SR;
        assert R[i] in SP;
      }
    }
  }

  /** An empty request passes only when the policy itself has an empty item (for example "" or "read,"). */
  lemma EmptyRequest(policy: string)
    ensures Authorizes(policy, "") <==> "" in Cleaned(policy)
  {
    EmptyCleansToEmptyItem();
    assert Cleaned("")[0] == "";
  }

  /** A client with the empty policy accepts exactly the requests whose every item is blank. */
  lemma EmptyPolicy(requested: string)
    ensures Authorizes("", requested) <==> forall x :: x in Cleaned(requested) ==> x == ""
  {
    EmptyCleansToEmptyItem();
    var R := Cleaned(requested);
    if Authorizes("", requested) {
      forall x | x in R ensures x == "" {
        var i :| 0 <= i < |R| && R[i] == x;
      }
    }
    if forall x :: x in R ==> x == "" {
      forall i | 0 <= i < |R| ensures R[i] in Cleaned("") {
        assert R[i] in R;
      }
    }
  }

  /** Passing is monotone: fewer requested items still pass. */
  lemma AuthorizesMonotone(policy: string, requested: string, fewer: string)
    requires Authorizes(policy, requested)
    requires forall x :: x in Cleaned(fewer) ==> x in Cleaned(requested)
    ensures Authorizes(policy, fewer)
  {
    var P, R, F := Cleaned(policy), Cleaned(requested), Cleaned(fewer);
    forall i | 0 <= i < |F| ensures F[i] in P {
      assert F[i] in F;
      var j :| 0 <= j < |R| && R[j] == F[i];
    }
  }

  /** A single item without a comma cleans to one item. */
  lemma CleanedSingle(s: string)
    requires ',' !in s
    ensures Cleaned(s) == [Clean(s)]
  {
    SplitWithout(s, ',');
  }

  /** An item that is already normal cleans to itself. */
  lemma CleanUnchanged(s: string)
    requires s == [] || (!IsSpace(s[0]) && !IsSpace(s[|s| - 1]))
    requires forall i :: 0 <= i < |s| ==> !IsUpper(s[i])
    ensures Clean(s) == s
  {
    TrimSpaceUnchanged(s);
    ToLowerUnchanged(s);
  }

  /** The three spellings used below clean to the lower-case words. */
  lemma CleanExampleItems()
    ensures Clean("Read") == "read" && Clean(" Write") == "write" && Clean(" WRITE ") == "write"
  {
    assert TrimSpace(" Write") == "Write" by {
      assert TrimLeft(" Write") == TrimLeft("Write");
      TrimSpaceUnchanged("Write");
    }
    assert TrimSpace(" WRITE ") == "WRITE" by {
      assert TrimLeft(" WRITE ") == TrimLeft("WRITE ") == "WRITE ";
      assert "WRITE "[..5] == "WRITE";
      assert TrimRight("WRITE ") == TrimRight("WRITE") == "WRITE";
    }
    TrimSpaceUnchanged("Read");
    assert ToLower("Read") == "read";
    assert ToLower("Write") == "write";
    assert ToLower("WRITE") == "write";
  }

  /** The policy "Read, Write" cleans to the two lower-case words. */
  lemma CleanedReadWrite()
    ensures Cleaned("Read, Write") == ["read", "write"]
  {
    assert "Read, Write" == "Read" + [','] + " Write";
    CleanedCons("Read", " Write");
    CleanedSingle(" Write");
    CleanExampleItems();
  }

  /** A leading item free of commas cleans on its own, ahead of the rest. */
  lemma CleanedCons(a: string, b: string)
    requires ',' !in a
    ensures Cleaned(a + [','] + b) == [Clean(a)] + Cleaned(b)
  {
    SplitCons(a, ',', b);
  }

  /** Against "Read, Write", a single requested item passes iff it cleans to "read" or "write". */
  lemma ReadWritePolicy(requested: string)
    requires ',' !in requested
    ensures Authorizes("Read, Write", requested) <==> Clean(requested) == "read" || Clean(requested) == "write"
  {
    CleanedReadWrite();
    CleanedSingle(requested);
    var R := Cleaned(requested);
    assert Covers(["read", "write"], R) <==> R[0] in ["read", "write"];
  }

  /** Scope "Read, Write" accepts "read" and " WRITE " but not "delete". */
  lemma ReadWriteExample()
    ensures Authorizes("Read, Write", "read")
    ensures Authorizes("Read, Write", " WRITE ")
    ensures !Authorizes("Read, Write", "delete")
  {
    ReadWriteAcceptsRead();
    ReadWriteAcceptsUpperWrite();
    ReadWriteRejectsDelete();
  }

  lemma ReadWriteAcceptsRead()
    ensures Authorizes("Read, Write", "read")
  {
    CleanUnchanged("read");
    ReadWritePolicy("read");
  }

  lemma ReadWriteAcceptsUpperWrite()
    ensures Authorizes("Read, Write", " WRITE ")
  {
    CleanExampleItems();
    ReadWritePolicy(" WRITE ");
  }

  lemma ReadWriteRejectsDelete()
    ensures !Authorizes("Read, Write", "delete")
  {
    CleanUnchanged("delete");
    ReadWritePolicy("delete");
  }

  /** A client authorised only for "password" rejects "client_credentials". */
  lemma PasswordOnlyRejectsClientCredentials(c: Client)
    requires c.authorizedGrantTypes == "password"
    ensures !Authorizes(c.authorizedGrantTypes, "client_credentials")
    ensures Authorizes(c.authorizedGrantTypes, "password")
  {
    CleanUnchanged("password");
    CleanUnchanged("client_credentials");
    SingleItems("password", "client_credentials");
    SingleItems("password", "password");
  }

  /** Between two single-item strings the decision is equality of the cleaned items. */
  lemma SingleItems(policy: string, requested: string)
    requires ',' !in policy && ',' !in requested
    ensures Authorizes(policy, requested) <==> Clean(requested) == Clean(policy)
  {
    CleanedSingle(policy);
    CleanedSingle(requested);
    var P, R := Cleaned(policy), Cleaned(requested);
    assert Covers(P, R) <==> R[0] in P;
  }
}
