/** The client table behind ClientRepo (auth/client_repo.go), keyed by the client ID. */
module ClientRepo {
  import opened Wrappers
  import opened ClientPolicy

  /** The record gorm fills in when a query matches no row. */
  const ZeroClient := Client("", "", "", false, "", "", "")

  predicate HasId(rows: seq<Client>, id: string)
  {
    exists i :: 0 <= i < |rows| && rows[i].id == id
  }

  /** ID is the primary key: no two rows share one. */
  predicate UniqueIds(rows: seq<Client>)
  {
    forall i, j :: 0 <= i < j < |rows| ==> rows[i].id != rows[j].id
  }

  /** `Where("ID = ?", id).Find(&client)`: the first matching row, or the zero record. */
  function Lookup(rows: seq<Client>, id: string): (r: Client)
    ensures HasId(rows, id) ==> r.id == id && r in rows
    ensures !HasId(rows, id) ==> r == ZeroClient
  {
    if rows == [] then ZeroClient
    else if rows[0].id == id then rows[0]
    else
      assert HasId(rows, id) ==> HasId(rows[1..], id) by {
        if HasId(rows, id) {
          var i :| 0 <= i < |rows| && rows[i].id == id;
          assert rows[1..][i - 1].id == id;
        }
      }
      Lookup(rows[1..], id)
  }

  /** `Where("ID = ?", id).Delete(...)`: every row with another ID, in the same order. */
  function WithoutId(rows: seq<Client>, id: string): (r: seq<Client>)
    ensures forall x :: x in r <==> x in rows && x.id != id
    ensures |r| <= |rows|
  {
    if rows == [] then []
    else if rows[0].id == id then WithoutId(rows[1..], id)
    else [rows[0]] + WithoutId(rows[1..], id)
  }

  /** Number of rows holding the given ID. */
  function CountId(rows: seq<Client>, id: string): nat
  {
    if rows == [] then 0 else (if rows[0].id == id then 1 else 0) + CountId(rows[1..], id)
  }

  /** Whether the next statement fails: the head of the script; once the script is used up, none does. */
  function Fails(script: seq<bool>): bool
  {
    |script| > 0 && script[0]
  }

  /** The script after one statement has run. */
  function Next(script: seq<bool>): (r: seq<bool>)
    ensures |r| == if script == [] then 0 else |script| - 1
  {
    if script == [] then [] else script[1..]
  }

  /**
   * The in-memory client table. `script` says, statement by statement, whether the database
   * connection rejects it; each statement consumes one entry.
   */
  class ClientTable {
    var rows: seq<Client>
    var script: seq<bool>

    ghost predicate Valid()
      reads this
    {
      UniqueIds(rows)
    }

    constructor (script: seq<bool>)
      ensures rows == [] && this.script == script && Valid()
    {
      rows := [];
      this.script := script;
    }

    /** ClientRepo.Save: one INSERT, refused on a taken primary key. */
    method Save(item: Client) returns (r: Outcome)
      requires Valid()
      modifies this
      ensures Valid() && script == Next(old(script))
      ensures Fails(old(script)) ==> r == Fail(StorageFailure) && rows == old(rows)
      ensures !Fails(old(script)) && HasId(old(rows), item.id) ==> r == Fail(DuplicateKey("clients")) && rows == old(rows)
      ensures !Fails(old(script)) && !HasId(old(rows), item.id) ==> r == Pass && rows == old(rows) + [item]
    {
      var fails := Fails(script);
      script := Next(script);
      if fails {
        return Fail(StorageFailure);
      }
      if HasId(rows, item.id) {
        return Fail(DuplicateKey("clients"));
      }
      UniqueAppend(rows, item);
      rows := rows + [item];
      r := Pass;
    }

    /** ClientRepo.FindById: a failed query gives (nil, nil); otherwise a record, never an error. */
    method FindById(id: string) returns (r: Option<Client>)
      modifies this
      ensures rows == old(rows) && script == Next(old(script))
      ensures Fails(old(script)) ==> r == None
      ensures !Fails(old(script)) ==> r.Some? && r.value == Lookup(rows, id)
      ensures !Fails(old(script)) && HasId(rows, id) ==> r.value.id == id && r.value in rows
      ensures !Fails(old(script)) && !HasId(rows, id) ==> r.value == ZeroClient
    {
      var fails := Fails(script);
      script := Next(script);
      if fails {
        return None;
      }
      r := Some(Lookup(rows, id));
    }

    /** ClientRepo.DeleteById: removes the rows holding that ID and no others. */
    method DeleteById(id: string) returns (r: Outcome)
      requires Valid()
      modifies this
      ensures Valid() && script == Next(old(script))
      ensures Fails(old(script)) ==> r == Fail(StorageFailure) && rows == old(rows)
      ensures !Fails(old(script)) ==> r == Pass && rows == WithoutId(old(rows), id)
    {
      var fails := Fails(script);
      script := Next(script);
      if fails {
        return Fail(StorageFailure);
      }
      WithoutIdUnique(rows, id);
      rows := WithoutId(rows, id);
      r := Pass;
    }
  }

  // ---------------------------------------------------------------------------
  // Properties of the table operations

  /** Appending a row with a fresh ID keeps the primary key unique. */
  lemma UniqueAppend(rows: seq<Client>, c: Client)
    requires UniqueIds(rows) && !HasId(rows, c.id)
    ensures UniqueIds(rows + [c])
  {
    var s := rows + [c];
    assert forall i :: 0 <= i < |rows| ==> s[i] == rows[i];
    assert s[|rows|] == c;
  }

  /** The rows after the first keep a unique key, and none of them holds the first row's ID. */
  lemma UniqueTail(rows: seq<Client>)
    requires UniqueIds(rows) && rows != []
    ensures UniqueIds(rows[1..])
    ensures forall x :: x in rows[1..] ==> x.id != rows[0].id
  {
    forall i, j | 0 <= i < j < |rows| - 1 ensures rows[1..][i].id != rows[1..][j].id {
      assert rows[1..][i] == rows[i + 1] && rows[1..][j] == rows[j + 1];
    }
    forall x | x in rows[1..] ensures x.id != rows[0].id {
      var k :| 0 <= k < |rows| - 1 && rows[1..][k] == x;
      assert rows[k + 1] == x;
    }
  }

  /** Filtering keeps the order of the surviving rows, so it keeps the key unique. */
  lemma {:induction false} WithoutIdUnique(rows: seq<Client>, id: string)
    requires UniqueIds(rows)
    ensures UniqueIds(WithoutId(rows, id))
  {
    if rows != [] {
      UniqueTail(rows);
      WithoutIdUnique(rows[1..], id);
      if rows[0].id != id {
        var t := WithoutId(rows[1..], id);
        forall y | y in t ensures y.id != rows[0].id {
          assert y in rows[1..];
        }
        UniqueCons(rows[0], t);
      }
    }
  }

  lemma UniqueCons(x: Client, t: seq<Client>)
    requires UniqueIds(t) && forall y :: y in t ==> y.id != x.id
    ensures UniqueIds([x] + t)
  {
    var s := [x] + t;
    forall i, j | 0 <= i < j < |s| ensures s[i].id != s[j].id {
      assert s[j] == t[j - 1];
      if i > 0 {
        assert s[i] == t[i - 1];
      } else {
        assert t[j - 1] in t;
      }
    }
  }

  /** After a successful Save of `c`, FindById(c.ID) yields `c`. */
  lemma FindAfterSave(rows: seq<Client>, c: Client)
    requires !HasId(rows, c.id)
    ensures Lookup(rows + [c], c.id) == c
  {
    LookupAppend(rows, c, c.id);
  }

  /** Appending a row changes a lookup only when no earlier row matched. */
  lemma {:induction false} LookupAppend(rows: seq<Client>, c: Client, id: string)
    ensures Lookup(rows + [c], id) == if HasId(rows, id) then Lookup(rows, id) else if c.id == id then c else ZeroClient
  {
    if rows != [] {
      assert (rows + [c])[1..] == rows[1..] + [c];
      LookupAppend(rows[1..], c, id);
      if rows[0].id != id {
        assert HasId(rows, id) <==> HasId(rows[1..], id) by {
          if HasId(rows, id) {
            var i :| 0 <= i < |rows| && rows[i].id == id;
            assert rows[1..][i - 1].id == id;
          }
          if HasId(rows[1..], id) {
            var i :| 0 <= i < |rows| - 1 && rows[1..][i].id == id;
            assert rows[i + 1].id == id;
          }
        }
      }
    } else {
      assert [] + [c] == [c];
    }
  }

  /** After DeleteById(id), FindById(id) yields the zero record, whose ID is empty (not nil). */
  lemma FindAfterDelete(rows: seq<Client>, id: string)
    ensures Lookup(WithoutId(rows, id), id) == ZeroClient
    ensures Lookup(WithoutId(rows, id), id).id == ""
  {
    var t := WithoutId(rows, id);
    forall i | 0 <= i < |t| ensures t[i].id != id {
      assert t[i] in t;
    }
  }

  /** Deleting an ID nobody holds leaves the table as it was. */
  lemma {:induction false} DeleteAbsent(rows: seq<Client>, id: string)
    requires !HasId(rows, id)
    ensures WithoutId(rows, id) == rows
  {
    if rows != [] {
      assert rows[0].id != id;
      forall i | 0 <= i < |rows| - 1 ensures rows[1..][i].id != id {
        assert rows[1..][i] == rows[i + 1];
      }
      DeleteAbsent(rows[1..], id);
      assert [rows[0]] + rows[1..] == rows;
    }
  }

  /** After deleting `id`, no row holds it. */
  lemma {:induction false} CountWithoutId(rows: seq<Client>, id: string)
    ensures CountId(WithoutId(rows, id), id) == 0
  {
    if rows != [] {
      CountWithoutId(rows[1..], id);
      if rows[0].id != id {
        assert ([rows[0]] + WithoutId(rows[1..], id))[1..] == WithoutId(rows[1..], id);
      }
    }
  }

  lemma {:induction false} CountIdConcat(a: seq<Client>, b: seq<Client>, id: string)
    ensures CountId(a + b, id) == CountId(a, id) + CountId(b, id)
  {
    if a == [] {
      assert a + b == b;
    } else {
      assert (a + b)[1..] == a[1..] + b;
      CountIdConcat(a[1..], b, id);
    }
  }

  /** Deleting one ID and then another is deleting both, in either order. */
  lemma {:induction false} WithoutIdCommutes(rows: seq<Client>, a: string, b: string)
    ensures WithoutId(WithoutId(rows, a), b) == WithoutId(WithoutId(rows, b), a)
  {
    if rows != [] {
      WithoutIdCommutes(rows[1..], a, b);
      var x := rows[0];
      if x.id != a {
        assert ([x] + WithoutId(rows[1..], a))[1..] == WithoutId(rows[1..], a);
      }
      if x.id != b {
        assert ([x] + WithoutId(rows[1..], b))[1..] == WithoutId(rows[1..], b);
      }
    }
  }

  /** Deleting the same ID twice is deleting it once. */
  lemma WithoutIdIdempotent(rows: seq<Client>, id: string)
    ensures WithoutId(WithoutId(rows, id), id) == WithoutId(rows, id)
  {
    var t := WithoutId(rows, id);
    forall i | 0 <= i < |t| ensures t[i].id != id {
      assert t[i] in t;
    }
    DeleteAbsent(t, id);
  }
}
