/** A database table as the repositories see it: rows keyed by id, an id
    sequence for inserts, and the table's unique constraints. */
module Tables {
  import opened Common

  class Table<T> {
    var rows: map<Id, T>
    /** The id sequence: the next id an insert hands out. */
    var nextId: Id
    /** The unique constraints: two rows may not clash. */
    const clash: (T, T) -> bool

    ghost predicate Valid()
      reads this
    {
      && (forall k :: k in rows ==> k < nextId)
      && (forall a, b :: a in rows && b in rows && a != b ==> !clash(rows[a], rows[b]))
    }

    constructor (clash: (T, T) -> bool)
      ensures Valid() && rows == map[] && this.clash == clash
    {
      rows := map[];
      nextId := 0;
      this.clash := clash;
    }

    /** Some row other than `except` clashes with `row`. */
    predicate Taken(row: T, except: Option<Id>)
      reads this
    {
      exists k :: k in rows && Some(k) != except && (clash(rows[k], row) || clash(row, rows[k]))
    }

    /** `save` of a new entity: an INSERT with a fresh id, refused when it would
        break a unique constraint. */
    method Insert(row: T) returns (r: Result<Id>)
      requires Valid()
      modifies this
      ensures Valid()
      ensures old(Taken(row, None)) ==> r == Err(IntegrityViolation) && rows == old(rows)
      ensures !old(Taken(row, None)) ==>
        r.Ok? && r.value !in old(rows) && rows == old(rows)[r.value := row]
    {
      if Taken(row, None) {
        return Err(IntegrityViolation);
      }
      r := Ok(nextId);
      rows := rows[nextId := row];
      nextId := nextId + 1;
    }

    /** An UPDATE of the row with id `id` (an update query, or `save` of a
        loaded entity); it answers the number of rows it changed. */
    method Update(id: Id, row: T) returns (r: Result<nat>)
      requires Valid()
      modifies this
      ensures Valid()
      ensures id !in old(rows) ==> r == Ok(0) && rows == old(rows)
      ensures id in old(rows) && old(Taken(row, Some(id))) ==>
        r == Err(IntegrityViolation) && rows == old(rows)
      ensures id in old(rows) && !old(Taken(row, Some(id))) ==>
        r == Ok(1) && rows == old(rows)[id := row]
    {
      if id !in rows {
        return Ok(0);
      }
      if Taken(row, Some(id)) {
        return Err(IntegrityViolation);
      }
      rows := rows[id := row];
      r := Ok(1);
    }

    /** DELETE of the row with id `id`. */
    method Delete(id: Id)
      requires Valid()
      modifies this
      ensures Valid()
      ensures rows == old(rows) - {id}
    {
      rows := rows - {id};
    }
  }

  /** The table declares no unique column. */
  ghost predicate Unconstrained<T(!new)>(t: Table<T>)
    reads t
  {
    forall a, b :: !t.clash(a, b)
  }
}
