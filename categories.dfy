/** CategoryService: the video categories, each with a unique name. */
module Categories {
  import opened Common
  import opened Entities
  import opened Tables
  import opened Attachments
  import Query

  /** getById: the category, or "Not Found!". */
  function GetById(rows: map<Id, Category>, id: Id): (r: Result<Category>)
    ensures r.Ok? <==> id in rows
    ensures r.Ok? ==> r.value == rows[id]
    ensures r.Err? ==> r.error == NotFound("Not Found!")
  {
    if id in rows then Ok(rows[id]) else Err(NotFound("Not Found!"))
  }

  /** toOpenUrl: the public link of a category. */
  function OpenUrl(domain: string, id: string): (url: string)
    ensures url == Link(domain, "category/", id)
  {
    domain + "category/" + id
  }

  /** `Sort.by(ASC, "name")`: categories in the order the database's
      collation puts their names. */
  function ByName(collation: (string, string) -> bool): (Category, Category) -> bool {
    (a: Category, b: Category) => collation(a.name, b.name)
  }

  /** Any collation that orders all names orders all categories. */
  lemma ByNameIsTotalPreorder(collation: (string, string) -> bool)
    requires Query.TotalPreorder(collation)
    ensures Query.TotalPreorder(ByName(collation))
  {
    var byName := ByName(collation);
    forall a: Category, b: Category ensures byName(a, b) || byName(b, a) {
      assert collation(a.name, b.name) || collation(b.name, a.name);
    }
    forall a: Category, b: Category, c: Category | byName(a, b) && byName(b, c) ensures byName(a, c) {
      assert collation(a.name, b.name) && collation(b.name, c.name);
    }
  }

  class CategoryService {
    const categories: Table<Category>

    ghost predicate Valid()
      reads this, categories
    {
      categories.Valid() && (forall a, b :: categories.clash(a, b) == CategoriesClash(a, b))
    }

    constructor (categories: Table<Category>)
      requires categories.Valid() && (forall a, b :: categories.clash(a, b) == CategoriesClash(a, b))
      ensures Valid() && this.categories == categories
    {
      this.categories := categories;
    }

    /** create: a category with that name; a taken name is refused with
        "Unique!". */
    method Create(name: string) returns (r: Result<Id>)
      requires Valid()
      modifies categories
      ensures Valid()
      ensures (exists k :: k in old(categories.rows) && old(categories.rows)[k].name == name) ==>
        r == Err(BadRequest("Unique!")) && categories.rows == old(categories.rows)
      ensures (forall k :: k in old(categories.rows) ==> old(categories.rows)[k].name != name) ==>
        r.Ok? && r.value !in old(categories.rows)
        && categories.rows == old(categories.rows)[r.value := Category(name, None)]
    {
      var saved := categories.Insert(Category(name, None));
      if saved.Err? {
        return Err(BadRequest("Unique!"));
      }
      r := saved;
    }

    /** list: every category, by name. The order of names is the database's
        collation, which the schema does not fix; `collation` is it. */
    method List(collation: (string, string) -> bool) returns (ids: seq<Id>)
      requires Valid()
      requires Query.TotalPreorder(collation)
      ensures forall k :: k in ids <==> k in categories.rows
      ensures Query.Distinct(ids) && Query.SortedBy(ids, categories.rows, ByName(collation))
      ensures |ids| == |categories.rows|
    {
      ByNameIsTotalPreorder(collation);
      var all := (c: Category) => true;
      ids := Query.OrderBy(categories.rows, all, ByName(collation));
      assert Query.Selected(categories.rows, all) == categories.rows.Keys;
    }

    /** update: renames the category and stamps it; a name another category
        has is refused with "Unique!". */
    method Update(id: Id, name: string, now: Instant) returns (r: Result<Category>)
      requires Valid()
      modifies categories
      ensures Valid()
      ensures id !in old(categories.rows) ==>
        r == Err(NotFound("Not Found!")) && categories.rows == old(categories.rows)
      ensures id in old(categories.rows) ==>
        if exists k :: k in old(categories.rows) && k != id && old(categories.rows)[k].name == name
        then r == Err(BadRequest("Unique!")) && categories.rows == old(categories.rows)
        else r == Ok(Category(name, Some(now))) && categories.rows == old(categories.rows)[id := Category(name, Some(now))]
    {
      var entity := GetById(categories.rows, id);
      if entity.Err? {
        return Err(entity.error);
      }
      var updated := entity.value.(name := name, updatedDate := Some(now));
      var saved := categories.Update(id, updated);
      if saved.Err? {
        var k :| k in categories.rows && Some(k) != Some(id) &&
          (categories.clash(categories.rows[k], updated) || categories.clash(updated, categories.rows[k]));
        assert categories.rows[k].name == name;
        return Err(BadRequest("Unique!"));
      }
      r := Ok(updated);
    }

    /** delete: removes the category. */
    method Delete(id: Id) returns (r: Result<bool>)
      requires Valid()
      modifies categories
      ensures Valid()
      ensures r == if id in old(categories.rows) then Ok(true) else Err(NotFound("Not Found!"))
      ensures categories.rows == old(categories.rows) - {id}
    {
      var entity := GetById(categories.rows, id);
      if entity.Err? {
        return Err(entity.error);
      }
      categories.Delete(id);
      r := Ok(true);
    }
  }
}
