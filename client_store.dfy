/** DatabaseClientStore (auth/db_client_store.go): the oauth2 client store over the client table. */
module ClientStore {
  import opened Wrappers
  import opened ClientPolicy
  import opened ClientRepo

  /** The table after a successful Set: any row with that ID replaced by the client carrying it, placed last. */
  function SetRows(rows: seq<Client>, id: string, c: Client): seq<Client>
  {
    WithoutId(rows, id) + [c.(id := id)]
  }

  /**
   * The rows Set's insert meets: the old row is gone only when both the lookup and the delete
   * went through; a failed lookup skips the delete, a failed delete leaves the row.
   */
  function KeptRows(rows: seq<Client>, script: seq<bool>, id: string): seq<Client>
  {
    if !Fails(script) && !Fails(Next(script)) then WithoutId(rows, id) else rows
  }

  /** The script Set's insert meets: a failed lookup used one statement, a lookup and a delete two. */
  function InsertScript(script: seq<bool>): seq<bool>
  {
    if Fails(script) then Next(script) else Next(Next(script))
  }

  class DatabaseClientStore {
    const table: ClientTable

    constructor (table: ClientTable)
      ensures this.table == table
    {
      this.table := table;
    }

    /**
     * GetByID: the repository's *Client returned as an oauth2.ClientInfo. A failed query's nil
     * pointer becomes a non-nil interface holding nil, so the result is never nil.
     */
    method GetByID(id: string) returns (r: Interface<Client>)
      modifies table
      ensures table.rows == old(table.rows) && table.script == Next(old(table.script))
      ensures r != NilInterface
      ensures Fails(old(table.script)) ==> r == NilPointer
      ensures !Fails(old(table.script)) ==> r == Holding(Lookup(table.rows, id))
    {
      var found := table.FindById(id);
      r := FromPointer(found);
    }

    /**
     * Set: the lookup's error is dropped; when it returns a record, the row with that ID is
     * deleted (that error dropped too). The ID is then written into the caller's record (returned
     * as `saved`), which is inserted; only the insert's error is reported.
     */
    method Set(id: string, client: Client) returns (saved: Client, r: Outcome)
      requires table.Valid()
      modifies table
      ensures table.Valid() && table.script == Next(InsertScript(old(table.script)))
      ensures saved == client.(id := id)
      ensures var kept := KeptRows(old(table.rows), old(table.script), id);
        Fails(InsertScript(old(table.script))) ==> r == Fail(StorageFailure) && table.rows == kept
      ensures var kept := KeptRows(old(table.rows), old(table.script), id);
        !Fails(InsertScript(old(table.script))) && HasId(kept, id) ==>
          r == Fail(DuplicateKey("clients")) && table.rows == kept
      ensures var kept := KeptRows(old(table.rows), old(table.script), id);
        !Fails(InsertScript(old(table.script))) && !HasId(kept, id) ==> r == Pass && table.rows == kept + [saved]
    {
      var existing := table.FindById(id);
      if existing.Some? {
        var _ := table.DeleteById(id);
      }
      saved := client.(id := id);
      r := table.Save(saved);
    }
  }

  // ---------------------------------------------------------------------------
  // Properties of Set

  /**
   * When none of its three statements fails, Set leaves SetRows and reports nil: the old row is
   * gone before the insert, so the key is free.
   */
  lemma SetOnWorkingConnection(rows: seq<Client>, script: seq<bool>, id: string, c: Client)
    requires !Fails(script) && !Fails(Next(script)) && !Fails(Next(Next(script)))
    ensures !Fails(InsertScript(script))
    ensures !HasId(KeptRows(rows, script, id), c.(id := id).id)
    ensures KeptRows(rows, script, id) + [c.(id := id)] == SetRows(rows, id, c)
  {
    FindAfterDelete(rows, id);
    var t := WithoutId(rows, id);
    forall i | 0 <= i < |t| ensures t[i].id != id {
      assert t[i] in t;
    }
  }

  /**
   * A failed lookup skips the delete, so when the ID is already stored a working insert hits the
   * primary key: Set reports a duplicate key and the old row stays.
   */
  lemma SetAfterFailedLookup(rows: seq<Client>, script: seq<bool>, id: string)
    requires Fails(script) && !Fails(Next(script)) && HasId(rows, id)
    ensures KeptRows(rows, script, id) == rows
    ensures !Fails(InsertScript(script)) && HasId(KeptRows(rows, script, id), id)
  {
  }

  /** After Set(id, c), exactly one row holds `id`, and it is `c` with that ID. */
  lemma SetLeavesOneRow(rows: seq<Client>, id: string, c: Client)
    ensures CountId(SetRows(rows, id, c), id) == 1
    ensures Lookup(SetRows(rows, id, c), id) == c.(id := id)
  {
    CountWithoutId(rows, id);
    CountIdConcat(WithoutId(rows, id), [c.(id := id)], id);
    assert [c.(id := id)][1..] == [];
    FindAfterDelete(rows, id);
    var t := WithoutId(rows, id);
    forall i | 0 <= i < |t| ensures t[i].id != id {
      assert t[i] in t;
    }
    FindAfterSave(t, c.(id := id));
  }

  /** Rows with other IDs are untouched by Set. */
  lemma SetKeepsOthers(rows: seq<Client>, id: string, c: Client)
    ensures WithoutId(SetRows(rows, id, c), id) == WithoutId(rows, id)
  {
    WithoutIdAppend(WithoutId(rows, id), c.(id := id), id);
    WithoutIdIdempotent(rows, id);
  }

  /**
   * On a working connection, Set twice with the same ID is Set once with the second client: no
   * duplicate key can arise.
   */
  lemma SetTwice(rows: seq<Client>, id: string, c1: Client, c2: Client)
    ensures SetRows(SetRows(rows, id, c1), id, c2) == SetRows(rows, id, c2)
    ensures CountId(SetRows(SetRows(rows, id, c1), id, c2), id) == 1
  {
    SetKeepsOthers(rows, id, c1);
    SetLeavesOneRow(rows, id, c2);
  }

  /** A lookup of any other ID answers as before the Set. */
  lemma SetOtherLookup(rows: seq<Client>, id: string, c: Client, other: string)
    requires other != id
    ensures Lookup(SetRows(rows, id, c), other) == Lookup(rows, other)
  {
    LookupWithout(rows, id, other);
    LookupAppend(WithoutId(rows, id), c.(id := id), other);
    HasIdWithout(rows, id, other);
  }

  /** Deleting one ID does not change the answer for another. */
  lemma {:induction false} LookupWithout(rows: seq<Client>, id: string, other: string)
    requires other != id
    ensures Lookup(WithoutId(rows, id), other) == Lookup(rows, other)
  {
    if rows != [] {
      LookupWithout(rows[1..], id, other);
      if rows[0].id != id {
        assert ([rows[0]] + WithoutId(rows[1..], id))[1..] == WithoutId(rows[1..], id);
      }
    }
  }

  lemma HasIdWithout(rows: seq<Client>, id: string, other: string)
    requires other != id
    ensures HasId(WithoutId(rows, id), other) <==> HasId(rows, other)
  {
    var t := WithoutId(rows, id);
    if HasId(rows, other) {
      var i :| 0 <= i < |rows| && rows[i].id == other;
      assert rows[i] in rows;
      assert rows[i] in t;
      var k :| 0 <= k < |t| && t[k] == rows[i];
    }
    if HasId(t, other) {
      var i :| 0 <= i < |t| && t[i].id == other;
      assert t[i] in t;
      var k :| 0 <= k < |rows| && rows[k] == t[i];
    }
  }

  /** Filtering after an append filters the prefix and keeps the new row only if it survives. */
  lemma {:induction false} WithoutIdAppend(rows: seq<Client>, c: Client, id: string)
    ensures WithoutId(rows + [c], id) == WithoutId(rows, id) + (if c.id == id then [] else [c])
  {
    if rows == [] {
      assert [] + [c] == [c];
      assert [c][1..] == [];
    } else {
      assert (rows + [c])[1..] == rows[1..] + [c];
      WithoutIdAppend(rows[1..], c, id);
    }
  }
}
