/** A SQLite table whose key is `INTEGER PRIMARY KEY AUTOINCREMENT`, kept in
    memory: the rows by key and the table's `sqlite_sequence` entry, the largest
    key ever handed out. Storage failures are inputs. */
module Sqlite {
  import opened Common

  /** SQLite's largest rowid; an AUTOINCREMENT insert beyond it fails with SQLITE_FULL. */
  const MaxRowId: int := 0x7FFF_FFFF_FFFF_FFFF

  const ErrFull := "database or disk is full"

  /** What goes wrong in `db.Exec(INSERT …)` followed by `result.LastInsertId()`. */
  datatype Fault = NoFault | ExecFails(err: string) | LastInsertIdFails(err: string)

  datatype InsertResult = Inserted(id: int) | ExecError(err: string) | LastInsertIdError(err: string)

  class Table<R> {
    var rows: map<int, R>
    var lastId: int

    /** Every key was handed out by the sequence, which stays in SQLite's rowid range. */
    ghost predicate Valid()
      reads this
    {
      0 <= lastId <= MaxRowId && forall id :: id in rows ==> 0 < id <= lastId
    }

    constructor ()
      ensures Valid() && rows == map[] && lastId == 0
    {
      rows := map[];
      lastId := 0;
    }

    /** Whether an insert under `fault` stores its row. */
    predicate Stores(fault: Fault)
      reads this
    {
      !fault.ExecFails? && lastId < MaxRowId
    }

    /** INSERT with a fresh key, then LastInsertId. When the statement runs, the
        new key is one past the sequence, above every key in the table, and no other
        row changes; a failing LastInsertId is reported after the row is stored. */
    method Insert(row: R, fault: Fault) returns (res: InsertResult)
      requires Valid()
      modifies this
      ensures Valid()
      ensures old(Stores(fault)) ==>
        && lastId == old(lastId) + 1
        && (forall id :: id in old(rows) ==> id < lastId)
        && rows == old(rows)[lastId := row]
        && res == (if fault.NoFault? then Inserted(lastId) else LastInsertIdError(fault.err))
      ensures !old(Stores(fault)) ==>
        && rows == old(rows) && lastId == old(lastId)
        && res == ExecError(if fault.ExecFails? then fault.err else ErrFull)
    {
      if fault.ExecFails? {
        return ExecError(fault.err);
      }
      if lastId == MaxRowId {
        return ExecError(ErrFull);
      }
      lastId := lastId + 1;
      rows := rows[lastId := row];
      res := if fault.NoFault? then Inserted(lastId) else LastInsertIdError(fault.err);
    }

    /** `SELECT … WHERE id = ?`: the row, or none (`sql.ErrNoRows`). */
    function Select(id: int): (r: Option<R>)
      reads this
      ensures r.Some? <==> id in rows
      ensures r.Some? ==> r.value == rows[id]
    {
      if id in rows then Some(rows[id]) else None
    }

    /** `UPDATE … SET … WHERE id = ?`: rewrites that one row, if present, with
        `change`; every other row and the sequence are untouched. A failing
        statement changes nothing. */
    method Update(id: int, change: R -> R, fails: bool)
      requires Valid()
      modifies this
      ensures Valid()
      ensures lastId == old(lastId)
      ensures rows == if fails || id !in old(rows) then old(rows) else old(rows)[id := change(old(rows)[id])]
      ensures rows.Keys == old(rows).Keys
      ensures forall k :: k in rows && k != id ==> rows[k] == old(rows)[k]
    {
      if !fails && id in rows {
        rows := rows[id := change(rows[id])];
      }
    }
  }
}
