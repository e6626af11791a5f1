/** TagService: tags are stored with a leading '#'. */
module Tags {
  import opened Common
  import opened Entities
  import opened Tables

  /** The stored form of a tag name. */
  function TagName(name: string): (stored: string)
    ensures |stored| == |name| + 1
    ensures stored[0] == '#' && stored[1..] == name
  {
    "#" + name
  }

  /** Different names are stored differently. */
  lemma TagNameInjective(a: string, b: string)
    requires TagName(a) == TagName(b)
    ensures a == b
  {
    assert a == TagName(a)[1..];
  }

  /** get: the tag, or "Not Found!". */
  function Get(rows: map<Id, Tag>, id: Id): (r: Result<Tag>)
    ensures r.Ok? <==> id in rows
    ensures r.Ok? ==> r.value == rows[id]
    ensures r.Err? ==> r.error == NotFound("Not Found!")
  {
    if id in rows then Ok(rows[id]) else Err(NotFound("Not Found!"))
  }

  class TagService {
    /** The tag table. Whatever constraint it carries, a violation is
        reported as "Unique Items!". */
    const tags: Table<Tag>

    ghost predicate Valid()
      reads this, tags
    {
      tags.Valid()
    }

    constructor (tags: Table<Tag>)
      requires tags.Valid()
      ensures Valid() && this.tags == tags
    {
      this.tags := tags;
    }

    /** create: a tag named '#' + name. */
    method Create(name: string) returns (r: Result<Id>)
      requires Valid()
      modifies tags
      ensures Valid()
      ensures old(tags.Taken(Tag(TagName(name), None), None)) ==>
        r == Err(BadRequest("Unique Items!")) && tags.rows == old(tags.rows)
      ensures !old(tags.Taken(Tag(TagName(name), None), None)) ==>
        r.Ok? && r.value !in old(tags.rows) && tags.rows == old(tags.rows)[r.value := Tag(TagName(name), None)]
    {
      var saved := tags.Insert(Tag(TagName(name), None));
      if saved.Err? {
        return Err(BadRequest("Unique Items!"));
      }
      r := saved;
    }

    /** update: renames the tag to '#' + name and stamps it. */
    method Update(id: Id, name: string, now: Instant) returns (r: Result<Tag>)
      requires Valid()
      modifies tags
      ensures Valid()
      ensures id !in old(tags.rows) ==> r == Err(NotFound("Not Found!")) && tags.rows == old(tags.rows)
      ensures id in old(tags.rows) && old(tags.Taken(Tag(TagName(name), Some(now)), Some(id))) ==>
        r == Err(BadRequest("Unique Items!")) && tags.rows == old(tags.rows)
      ensures id in old(tags.rows) && !old(tags.Taken(Tag(TagName(name), Some(now)), Some(id))) ==>
        r == Ok(Tag(TagName(name), Some(now))) && tags.rows == old(tags.rows)[id := Tag(TagName(name), Some(now))]
    {
      var entity := Get(tags.rows, id);
      if entity.Err? {
        return Err(entity.error);
      }
      var updated := entity.value.(name := TagName(name), updatedDate := Some(now));
      var saved := tags.Update(id, updated);
      if saved.Err? {
        return Err(BadRequest("Unique Items!"));
      }
      r := Ok(updated);
    }

    /** delete: removes the tag it fetched. */
    method Delete(id: Id) returns (r: Result<bool>)
      requires Valid()
      modifies tags
      ensures Valid()
      ensures r == if id in old(tags.rows) then Ok(true) else Err(NotFound("Not Found!"))
      ensures tags.rows == old(tags.rows) - {id}
    {
      var entity := Get(tags.rows, id);
      if entity.Err? {
        return Err(entity.error);
      }
      tags.Delete(id);
      r := Ok(true);
    }
  }
}
