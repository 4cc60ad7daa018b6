/** TokenStore (auth/db_token_store.go): the oauth2 token store, a thin facade over the token table. */
module TokenStore {
  import opened Wrappers
  import opened Token
  import opened TokenRepo

  class TokenStore {
    const table: TokenTable

    constructor (table: TokenTable)
      ensures this.table == table
    {
      this.table := table;
    }

    /** Create: one row, the record NewDBTokenFromTokenInfo builds from `info`. */
    method Create(info: TokenInfo) returns (r: Outcome)
      modifies table
      ensures table.failing == old(table.failing)
      ensures old(table.failing) ==> r == Fail(StorageFailure) && table.rows == old(table.rows)
      ensures !old(table.failing) ==> r == Pass && table.rows == old(table.rows) + [FromInfo(info)]
    {
      var dbToken := new DbToken.FromTokenInfo(info);
      r := table.Save(dbToken);
    }

    method RemoveByCode(code: string) returns (r: Outcome)
      modifies table
      ensures table.failing == old(table.failing)
      ensures old(table.failing) ==> r == Fail(StorageFailure) && table.rows == old(table.rows)
      ensures !old(table.failing) ==> r == Pass && table.rows == DeleteWhere(old(table.rows), CodeColumn, code)
    {
      r := table.DeleteByCode(code);
    }

    method RemoveByAccess(access: string) returns (r: Outcome)
      modifies table
      ensures table.failing == old(table.failing)
      ensures old(table.failing) ==> r == Fail(StorageFailure) && table.rows == old(table.rows)
      ensures !old(table.failing) ==> r == Pass && table.rows == DeleteWhere(old(table.rows), AccessColumn, access)
    {
      r := table.DeleteByAccess(access);
    }

    method RemoveByRefresh(refresh: string) returns (r: Outcome)
      modifies table
      ensures table.failing == old(table.failing)
      ensures old(table.failing) ==> r == Fail(StorageFailure) && table.rows == old(table.rows)
      ensures !old(table.failing) ==> r == Pass && table.rows == DeleteWhere(old(table.rows), RefreshColumn, refresh)
    {
      r := table.DeleteByRefresh(refresh);
    }

    /**
     * GetByCode, GetByAccess, GetByRefresh: the table's *DbToken returned as an oauth2.TokenInfo,
     * with no error of their own. A failed query's nil pointer becomes a non-nil interface
     * holding nil, so the result is never nil.
     */
    method GetByCode(code: string) returns (r: Interface<DbToken>)
      ensures r != NilInterface
      ensures table.failing ==> r == NilPointer
      ensures !table.failing ==> r.Holding? && fresh(r.value) && r.value.Row() == Find(table.rows, CodeColumn, code)
    {
      var found := table.FindByCode(code);
      r := FromPointer(found);
    }

    method GetByAccess(access: string) returns (r: Interface<DbToken>)
      ensures r != NilInterface
      ensures table.failing ==> r == NilPointer
      ensures !table.failing ==> r.Holding? && fresh(r.value) && r.value.Row() == Find(table.rows, AccessColumn, access)
    {
      var found := table.FindByAccess(access);
      r := FromPointer(found);
    }

    method GetByRefresh(refresh: string) returns (r: Interface<DbToken>)
      ensures r != NilInterface
      ensures table.failing ==> r == NilPointer
      ensures !table.failing ==> r.Holding? && fresh(r.value) && r.value.Row() == Find(table.rows, RefreshColumn, refresh)
    {
      var found := table.FindByRefresh(refresh);
      r := FromPointer(found);
    }
  }

  /** NewDatabaseTokenStore: never fails. */
  method NewDatabaseTokenStore(table: TokenTable) returns (s: TokenStore, err: Outcome)
    ensures fresh(s) && s.table == table && err == Pass
  {
    s := new TokenStore(table);
    err := Pass;
  }

  /**
   * After Create(info) into a table where no row holds the same access string, GetByAccess of that
   * string answers with the stored token: same user, client, scope and lifetimes.
   */
  lemma GetAfterCreate(rows: seq<TokenRecord>, info: TokenInfo)
    requires !HasKey(rows, AccessColumn, info.access)
    ensures Find(rows + [FromInfo(info)], AccessColumn, info.access) == FromInfo(info)
    ensures var t := AsInfo(Find(rows + [FromInfo(info)], AccessColumn, info.access));
      t.userID == info.userID && t.clientID == info.clientID && t.scope == info.scope
      && t.accessCreateAt == info.accessCreateAt && t.accessExpiresIn == info.accessExpiresIn
      && t.refreshExpiresIn == info.refreshExpiresIn && t == info
  {
    FindAppend(rows, FromInfo(info), AccessColumn, info.access);
    InfoRoundTrip(info);
  }

  /** An earlier token holding the same access string shadows the new one: the lookup returns the first. */
  lemma GetAfterCreateShadowed(rows: seq<TokenRecord>, info: TokenInfo)
    requires HasKey(rows, AccessColumn, info.access)
    ensures Find(rows + [FromInfo(info)], AccessColumn, info.access) == Find(rows, AccessColumn, info.access)
  {
    FindAppend(rows, FromInfo(info), AccessColumn, info.access);
  }
}
