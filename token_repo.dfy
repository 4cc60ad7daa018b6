/** TokenRepo (auth/token_repository.go): the `tokens` table with lookups and deletes by one column. */
module TokenRepo {
  import opened Wrappers
  import opened Token

  /** The three indexed columns a query can select on. */
  datatype Column = CodeColumn | AccessColumn | RefreshColumn

  function Key(r: TokenRecord, c: Column): string
  {
    match c
    case CodeColumn => r.code
    case AccessColumn => r.access
    case RefreshColumn => r.refresh
  }

  predicate HasKey(rows: seq<TokenRecord>, c: Column, v: string)
  {
    exists i :: 0 <= i < |rows| && Key(rows[i], c) == v
  }

  /** `Where("<column> = ?", v).Find(&token)`: the first matching row, or the zero record. */
  function Find(rows: seq<TokenRecord>, c: Column, v: string): (r: TokenRecord)
    ensures HasKey(rows, c, v) ==> Key(r, c) == v && r in rows
    ensures !HasKey(rows, c, v) ==> r == ZeroRecord
  {
    if rows == [] then ZeroRecord
    else if Key(rows[0], c) == v then rows[0]
    else
      assert HasKey(rows, c, v) ==> HasKey(rows[1..], c, v) by {
        if HasKey(rows, c, v) {
          var i :| 0 <= i < |rows| && Key(rows[i], c) == v;
          assert rows[1..][i - 1] == rows[i];
        }
      }
      Find(rows[1..], c, v)
  }

  /** `Where("<column> = ?", v).Delete(...)`: the rows whose column differs from v, in order. */
  function DeleteWhere(rows: seq<TokenRecord>, c: Column, v: string): (r: seq<TokenRecord>)
    ensures forall x :: x in r <==> x in rows && Key(x, c) != v
    ensures |r| <= |rows|
  {
    if rows == [] then []
    else if Key(rows[0], c) == v then DeleteWhere(rows[1..], c, v)
    else [rows[0]] + DeleteWhere(rows[1..], c, v)
  }

  /** The in-memory token table. `failing` stands for a database connection that rejects every statement. */
  class TokenTable {
    var rows: seq<TokenRecord>
    var failing: bool

    constructor (failing: bool)
      ensures rows == [] && this.failing == failing
    {
      rows := [];
      this.failing := failing;
    }

    /** TokenRepo.Save: one INSERT. The three columns carry a plain index, so duplicates are accepted. */
    method Save(item: DbToken) returns (r: Outcome)
      modifies this
      ensures failing == old(failing)
      ensures old(failing) ==> r == Fail(StorageFailure) && rows == old(rows)
      ensures !old(failing) ==> r == Pass && rows == old(rows) + [item.Row()]
    {
      if failing {
        return Fail(StorageFailure);
      }
      rows := rows + [item.Row()];
      r := Pass;
    }

    /** The common body of FindByCode, FindByAccess and FindByRefresh: a fresh record, or nil on failure. */
    method FindBy(c: Column, v: string) returns (r: Option<DbToken>)
      ensures failing ==> r == None
      ensures !failing ==> r.Some? && fresh(r.value) && r.value.Row() == Find(rows, c, v)
    {
      if failing {
        return None;
      }
      var t := new DbToken.FromRecord(Find(rows, c, v));
      r := Some(t);
    }

    /** The common body of DeleteByCode, DeleteByAccess and DeleteByRefresh. */
    method DeleteBy(c: Column, v: string) returns (r: Outcome)
      modifies this
      ensures failing == old(failing)
      ensures old(failing) ==> r == Fail(StorageFailure) && rows == old(rows)
      ensures !old(failing) ==> r == Pass && rows == DeleteWhere(old(rows), c, v)
    {
      if failing {
        return Fail(StorageFailure);
      }
      rows := DeleteWhere(rows, c, v);
      r := Pass;
    }

    method FindByCode(code: string) returns (r: Option<DbToken>)
      ensures failing ==> r == None
      ensures !failing ==> r.Some? && fresh(r.value) && r.value.Row() == Find(rows, CodeColumn, code)
    {
      r := FindBy(CodeColumn, code);
    }

    method FindByAccess(access: string) returns (r: Option<DbToken>)
      ensures failing ==> r == None
      ensures !failing ==> r.Some? && fresh(r.value) && r.value.Row() == Find(rows, AccessColumn, access)
    {
      r := FindBy(AccessColumn, access);
    }

    method FindByRefresh(refresh: string) returns (r: Option<DbToken>)
      ensures failing ==> r == None
      ensures !failing ==> r.Some? && fresh(r.value) && r.value.Row() == Find(rows, RefreshColumn, refresh)
    {
      r := FindBy(RefreshColumn, refresh);
    }

    method DeleteByCode(code: string) returns (r: Outcome)
      modifies this
      ensures failing == old(failing)
      ensures old(failing) ==> r == Fail(StorageFailure) && rows == old(rows)
      ensures !old(failing) ==> r == Pass && rows == DeleteWhere(old(rows), CodeColumn, code)
    {
      r := DeleteBy(CodeColumn, code);
    }

    method DeleteByAccess(access: string) returns (r: Outcome)
      modifies this
      ensures failing == old(failing)
      ensures old(failing) ==> r == Fail(StorageFailure) && rows == old(rows)
      ensures !old(failing) ==> r == Pass && rows == DeleteWhere(old(rows), AccessColumn, access)
    {
      r := DeleteBy(AccessColumn, access);
    }

    method DeleteByRefresh(refresh: string) returns (r: Outcome)
      modifies this
      ensures failing == old(failing)
      ensures old(failing) ==> r == Fail(StorageFailure) && rows == old(rows)
      ensures !old(failing) ==> r == Pass && rows == DeleteWhere(old(rows), RefreshColumn, refresh)
    {
      r := DeleteBy(RefreshColumn, refresh);
    }
  }

  // ---------------------------------------------------------------------------
  // Properties of the table operations

  /** Number of rows whose column holds v. */
  function CountKey(rows: seq<TokenRecord>, c: Column, v: string): nat
  {
    if rows == [] then 0 else (if Key(rows[0], c) == v then 1 else 0) + CountKey(rows[1..], c, v)
  }

  /** A delete removes exactly the matching rows: nothing matching survives, and one row goes per match. */
  lemma {:induction false} DeleteRemovesMatches(rows: seq<TokenRecord>, c: Column, v: string)
    ensures |DeleteWhere(rows, c, v)| == |rows| - CountKey(rows, c, v)
    ensures !HasKey(DeleteWhere(rows, c, v), c, v)
  {
    if rows != [] {
      DeleteRemovesMatches(rows[1..], c, v);
    }
    var t := DeleteWhere(rows, c, v);
    forall i | 0 <= i < |t| ensures Key(t[i], c) != v {
      assert t[i] in t;
    }
  }

  /** A delete on a value nobody holds changes nothing. */
  lemma {:induction false} DeleteAbsent(rows: seq<TokenRecord>, c: Column, v: string)
    requires !HasKey(rows, c, v)
    ensures DeleteWhere(rows, c, v) == rows
  {
    if rows != [] {
      NoKeyTail(rows, c, v);
      DeleteAbsent(rows[1..], c, v);
      assert [rows[0]] + rows[1..] == rows;
    }
  }

  lemma NoKeyTail(rows: seq<TokenRecord>, c: Column, v: string)
    requires rows != [] && !HasKey(rows, c, v)
    ensures Key(rows[0], c) != v && !HasKey(rows[1..], c, v)
  {
    assert Key(rows[0], c) != v;
    forall i | 0 <= i < |rows| - 1 ensures Key(rows[1..][i], c) != v {
      assert rows[1..][i] == rows[i + 1];
    }
  }

  /** A lookup with "" finds a row whose column is empty whenever one exists, e.g. any token without a refresh string. */
  lemma EmptyKeyMatchesEmptyColumns(rows: seq<TokenRecord>, c: Column)
    ensures HasKey(rows, c, "") ==> Key(Find(rows, c, ""), c) == "" && Find(rows, c, "") in rows
    ensures forall x :: x in DeleteWhere(rows, c, "") ==> Key(x, c) != ""
  {
  }

  /** When a row is present, the lookup answers with the first one holding the value. */
  lemma {:induction false} FindIsFirst(rows: seq<TokenRecord>, c: Column, v: string, i: nat)
    requires i < |rows| && Key(rows[i], c) == v
    requires forall j :: 0 <= j < i ==> Key(rows[j], c) != v
    ensures Find(rows, c, v) == rows[i]
  {
    if i > 0 {
      forall j | 0 <= j < i - 1 ensures Key(rows[1..][j], c) != v {
        assert rows[1..][j] == rows[j + 1];
      }
      FindIsFirst(rows[1..], c, v, i - 1);
    }
  }

  /**
   * Deleting by one column hides the row from lookups by another: after a delete by refresh string,
   * an access string that only tokens with that refresh string held is no longer found.
   */
  lemma DeleteByRefreshHidesAccess(rows: seq<TokenRecord>, refresh: string, access: string)
    requires forall x :: x in rows && x.access == access ==> x.refresh == refresh
    ensures !HasKey(DeleteWhere(rows, RefreshColumn, refresh), AccessColumn, access)
    ensures Find(DeleteWhere(rows, RefreshColumn, refresh), AccessColumn, access) == ZeroRecord
  {
    var t := DeleteWhere(rows, RefreshColumn, refresh);
    forall i | 0 <= i < |t| ensures t[i].access != access {
      assert t[i] in t;
    }
  }

  /** Appending a row changes a lookup only when no earlier row matched. */
  lemma {:induction false} FindAppend(rows: seq<TokenRecord>, x: TokenRecord, c: Column, v: string)
    ensures Find(rows + [x], c, v) == if HasKey(rows, c, v) then Find(rows, c, v) else if Key(x, c) == v then x else ZeroRecord
  {
    if rows == [] {
      assert [] + [x] == [x];
    } else {
      assert (rows + [x])[0] == rows[0];
      assert (rows + [x])[1..] == rows[1..] + [x];
      FindAppend(rows[1..], x, c, v);
      HasKeyCons(rows, c, v);
    }
  }

  /** A key occurs in a non-empty table exactly when it is in the first row or in the rest. */
  lemma HasKeyCons(rows: seq<TokenRecord>, c: Column, v: string)
    requires rows != []
    ensures HasKey(rows, c, v) <==> Key(rows[0], c) == v || HasKey(rows[1..], c, v)
  {
    if HasKey(rows, c, v) && Key(rows[0], c) != v {
      var i :| 0 <= i < |rows| && Key(rows[i], c) == v;
      assert rows[1..][i - 1] == rows[i];
    }
    if HasKey(rows[1..], c, v) {
      var i :| 0 <= i < |rows| - 1 && Key(rows[1..][i], c) == v;
      assert rows[i + 1] == rows[1..][i];
    }
  }
}
