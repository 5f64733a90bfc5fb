/** `CategoryServiceImpl`: categories in a store keyed by generated id, each holding its
    parent link and the hierarchy path and depth level derived from that parent when the
    category is created or updated. Deletion only deactivates. */
module CategoryService {
  import opened Base
  import opened JavaInt
  import SlugUtil

  /** A generated category id. */
  type CategoryId = nat

  /** The persisted state of a category that the service reads or writes. */
  datatype Category = Category(
    name: Option<string>,
    description: Option<string>,
    slug: string,
    parent: Option<CategoryId>,
    hierarchyPath: string,
    level: Int32,
    isActive: bool,
    createdAt: Time,
    updatedAt: Time)

  /** The fields of a create or update request. */
  datatype CategoryRequest = CategoryRequest(
    name: Option<string>,
    description: Option<string>,
    parent: Option<CategoryId>,
    isActive: Option<bool>)

  datatype CategoryError = CategoryNotFound | ParentNotFound

  type Categories = map<CategoryId, Category>

  /** One entry of the category tree: a root category and the ids of its direct children. */
  datatype TreeEntry = TreeEntry(category: Category, childrenId: set<CategoryId>)

  // ---------------------------------------------------------------------------------------
  // The rules for one category
  // ---------------------------------------------------------------------------------------

  /** Where a category with slug `slug` sits: a root's path is its slug at level 0; a
      child's path is the parent's path, a slash and its slug, one level below the parent
      (as a Java `int` addition). */
  function Placement(parent: Option<Category>, slug: string): (p: (string, Int32))
    ensures parent.None? ==> p == (slug, 0)
    ensures parent.Some? ==> p.0 == parent.value.hierarchyPath + "/" + slug
    ensures parent.Some? && parent.value.level < MAX ==> p.1 == parent.value.level + 1
    ensures parent.Some? && parent.value.level == MAX ==> p.1 == MIN
  {
    match parent
    case None => (slug, 0)
    case Some(p) => (p.hierarchyPath + "/" + slug, Wrap(p.level + 1))
  }

  /** The request's fields written over `c` under `parent` (read from the store before any
      field was written); a null `isActive` keeps `c`'s flag. */
  function Revised(c: Category, parentId: Option<CategoryId>, parent: Option<Category>,
                   req: CategoryRequest, random: UuidText): Category
  {
    var slug := SlugUtil.ToSlug(req.name, random);
    var (path, level) := Placement(parent, slug);
    c.(name := req.name, description := req.description,
       isActive := req.isActive.GetOr(c.isActive), slug := slug, parent := parentId,
       hierarchyPath := path, level := level)
  }

  /** What saving a changed entity stores: nothing new when no field changed, otherwise the
      changed entity with `updatedAt` refreshed by the `@PreUpdate` hook. */
  function Saved(stored: Category, changed: Category, now: Time): (c: Category)
    ensures changed == stored ==> c == stored
    ensures changed != stored ==> c == changed.(updatedAt := now)
  {
    if changed == stored then stored else changed.(updatedAt := now)
  }

  /** The category `createCategory` persists: the request's fields, `isActive` true unless
      given, both timestamps from the `@PrePersist` hook. */
  function NewCategory(req: CategoryRequest, parent: Option<Category>, random: UuidText, now: Time): Category {
    var initial := Category(None, None, "", None, "", 0, true, now, now);
    Revised(initial, req.parent, parent, req, random)
  }

  /** The parent the request names, read from the store, or the error when it is missing. */
  function ParentOf(rows: Categories, req: CategoryRequest): Result<Option<Category>, CategoryError> {
    match req.parent
    case None => Success(None)
    case Some(p) => if p in rows then Success(Some(rows[p])) else Failure(ParentNotFound)
  }

  // ---------------------------------------------------------------------------------------
  // Store transitions
  // ---------------------------------------------------------------------------------------

  function AfterCreate(rows: Categories, newId: CategoryId, req: CategoryRequest, random: UuidText, now: Time)
    : Result<Categories, CategoryError>
  {
    match ParentOf(rows, req)
    case Failure(e) => Failure(e)
    case Success(parent) => Success(rows[newId := NewCategory(req, parent, random, now)])
  }

  function AfterUpdate(rows: Categories, id: CategoryId, req: CategoryRequest, random: UuidText, now: Time)
    : Result<Categories, CategoryError>
  {
    if id !in rows then Failure(CategoryNotFound)
    else match ParentOf(rows, req)
      case Failure(e) => Failure(e)
      case Success(parent) =>
        Success(rows[id := Saved(rows[id], Revised(rows[id], req.parent, parent, req, random), now)])
  }

  function AfterDelete(rows: Categories, id: CategoryId, now: Time): Result<Categories, CategoryError> {
    if id !in rows then Failure(CategoryNotFound)
    else Success(rows[id := Saved(rows[id], rows[id].(isActive := false), now)])
  }

  // ---------------------------------------------------------------------------------------
  // Listings
  // ---------------------------------------------------------------------------------------

  function Active(rows: Categories): Categories {
    map id | id in rows && rows[id].isActive :: rows[id]
  }

  function ChildrenOf(rows: Categories, parentId: CategoryId): Categories {
    map id | id in rows && rows[id].parent == Some(parentId) :: rows[id]
  }

  /** Every category whose level is within the declared `@Min(0)` bound. */
  predicate LevelsNonNegative(rows: Categories) {
    forall id :: id in rows ==> rows[id].level >= 0
  }

  // ---------------------------------------------------------------------------------------
  // Properties
  // ---------------------------------------------------------------------------------------

  /** `createCategory` fails on an unknown parent and then stores nothing; otherwise it adds
      exactly the new category: at the root with its slug as path and level 0, or under its
      parent with the parent's path, a slash and its slug, one level below; active unless
      the request says otherwise. */
  lemma CreateOutcome(rows: Categories, newId: CategoryId, req: CategoryRequest, random: UuidText, now: Time)
    ensures req.parent.Some? && req.parent.value !in rows ==>
      AfterCreate(rows, newId, req, random, now) == Failure(ParentNotFound)
    ensures req.parent.None? || req.parent.value in rows ==>
      var s := AfterCreate(rows, newId, req, random, now);
      && s.Success? && s.value.Keys == rows.Keys + {newId}
      && (forall j :: j in rows && j != newId ==> s.value[j] == rows[j])
      && var c := s.value[newId];
      && c.slug == SlugUtil.ToSlug(req.name, random)
      && c.parent == req.parent && c.name == req.name && c.description == req.description
      && (req.parent.None? ==> c.hierarchyPath == c.slug && c.level == 0)
      && (req.parent.Some? ==> c.hierarchyPath == rows[req.parent.value].hierarchyPath + "/" + c.slug)
      && (req.parent.Some? && rows[req.parent.value].level < MAX ==>
            c.level == rows[req.parent.value].level + 1)
      && c.isActive == req.isActive.GetOr(true)
      && c.createdAt == now && c.updatedAt == now
  {
  }

  /** While the parent's level is below the `int` maximum, a new category keeps every
      level non-negative. */
  lemma CreateKeepsLevelsNonNegative(rows: Categories, newId: CategoryId, req: CategoryRequest,
                                     random: UuidText, now: Time)
    requires LevelsNonNegative(rows)
    requires req.parent.Some? && req.parent.value in rows ==> rows[req.parent.value].level < MAX
    requires AfterCreate(rows, newId, req, random, now).Success?
    ensures LevelsNonNegative(AfterCreate(rows, newId, req, random, now).value)
  {
  }

  /** At the `int` maximum the level wraps: a child of a category at level 2^31 - 1 gets a
      negative level. */
  lemma LevelCanWrap(parent: Category, random: UuidText, now: Time)
    requires parent.level == MAX
    ensures var rows := map[0 := parent];
      var req := CategoryRequest(Some("n"), None, Some(0), None);
      AfterCreate(rows, 1, req, random, now).Success?
      && AfterCreate(rows, 1, req, random, now).value[1].level == MIN
  {
  }

  /** `updateCategory` fails on an unknown id, then on an unknown parent; otherwise it
      rewrites only that category, recomputing its path and level by the creation rule and
      keeping its active flag when the request has none. Its children keep their paths and
      levels, even when these no longer follow from it. */
  lemma UpdateOutcome(rows: Categories, id: CategoryId, req: CategoryRequest, random: UuidText, now: Time)
    ensures id !in rows ==> AfterUpdate(rows, id, req, random, now) == Failure(CategoryNotFound)
    ensures id in rows && req.parent.Some? && req.parent.value !in rows ==>
      AfterUpdate(rows, id, req, random, now) == Failure(ParentNotFound)
    ensures id in rows && (req.parent.None? || req.parent.value in rows) ==>
      var s := AfterUpdate(rows, id, req, random, now);
      && s.Success? && s.value.Keys == rows.Keys
      && (forall j :: j in rows && j != id ==> s.value[j] == rows[j])
      && var c := s.value[id];
      && c.slug == SlugUtil.ToSlug(req.name, random)
      && c.parent == req.parent
      && (req.parent.None? ==> c.hierarchyPath == c.slug && c.level == 0)
      && (req.parent.Some? ==> c.hierarchyPath == rows[req.parent.value].hierarchyPath + "/" + c.slug)
      && (req.parent.Some? && rows[req.parent.value].level < MAX ==>
            c.level == rows[req.parent.value].level + 1)
      && c.isActive == req.isActive.GetOr(rows[id].isActive)
      && c.createdAt == rows[id].createdAt
  {
  }

  /** Nothing stops a category from becoming its own parent: the update succeeds and, the
      parent's path and level being read before they are overwritten, builds on the
      category's old path and level. */
  lemma UpdateCanMakeCycle(c: Category, random: UuidText, now: Time)
    requires c.level < MAX
    ensures var rows := map[7 := c];
      var req := CategoryRequest(c.name, c.description, Some(7), None);
      var s := AfterUpdate(rows, 7, req, random, now);
      && s.Success?
      && s.value[7].parent == Some(7)
      && s.value[7].hierarchyPath == c.hierarchyPath + "/" + SlugUtil.ToSlug(c.name, random)
      && s.value[7].level == c.level + 1
  {
  }

  /** `deleteCategory` keeps the category and only deactivates it; deleting twice stores
      the same as deleting once. */
  lemma {:induction false} DeleteIsSoftAndIdempotent(rows: Categories, id: CategoryId, t1: Time, t2: Time)
    requires id in rows
    ensures var once := AfterDelete(rows, id, t1);
      && once.Success? && once.value.Keys == rows.Keys
      && !once.value[id].isActive
      && once.value[id].(isActive := rows[id].isActive, updatedAt := rows[id].updatedAt) == rows[id]
      && (forall j :: j in rows && j != id ==> once.value[j] == rows[j])
      && AfterDelete(once.value, id, t2) == once
  {
    var once := AfterDelete(rows, id, t1).value;
    assert once[id].(isActive := false) == once[id];
    assert once[id := once[id]] == once;
  }

  /** The active listing is the inactive-including listing minus the deactivated
      categories; a deleted category leaves the first and stays in the second. */
  lemma {:induction false} DeleteHidesFromActive(rows: Categories, id: CategoryId, now: Time)
    requires id in rows
    ensures var after := AfterDelete(rows, id, now).value;
      && id !in Active(after) && id in after
      && Active(after) == Active(rows) - {id}
  {
    var after := AfterDelete(rows, id, now).value;
    assert Active(after).Keys == Active(rows).Keys - {id};
  }

  // ---------------------------------------------------------------------------------------
  // The service
  // ---------------------------------------------------------------------------------------

  class CategoryStore {
    var rows: Categories
    var nextId: CategoryId

    ghost predicate Valid()
      reads this
    {
      forall id :: id in rows ==> id < nextId
    }

    constructor ()
      ensures Valid() && rows == map[] && nextId == 0
    {
      rows := map[];
      nextId := 0;
    }

    method CreateCategory(req: CategoryRequest, random: UuidText, now: Time)
      returns (r: Result<CategoryId, CategoryError>)
      requires Valid()
      modifies this
      ensures Valid()
      ensures r.Success? ==> r.value == old(nextId) && nextId == old(nextId) + 1
                             && AfterCreate(old(rows), r.value, req, random, now) == Success(rows)
      ensures r.Failure? ==> rows == old(rows) && nextId == old(nextId)
                             && AfterCreate(old(rows), old(nextId), req, random, now) == Failure(r.error)
    {
      var parent: Option<Category> := None;
      if req.parent.Some? {
        if req.parent.value !in rows {
          return Failure(ParentNotFound);
        }
        parent := Some(rows[req.parent.value]);
      }
      var c := Category(None, None, "", None, "", 0, true, now, now);
      c := c.(name := req.name);
      c := c.(description := req.description);
      c := c.(isActive := if req.isActive.Some? then req.isActive.value else true);
      c := c.(slug := SlugUtil.ToSlug(req.name, random));
      c := c.(parent := req.parent);
      if parent.None? {
        c := c.(hierarchyPath := c.slug, level := 0);
      } else {
        c := c.(hierarchyPath := parent.value.hierarchyPath + "/" + c.slug);
        c := c.(level := Wrap(parent.value.level + 1));
      }
      r := Success(nextId);
      rows := rows[nextId := c];
      nextId := nextId + 1;
    }

    method UpdateCategory(id: CategoryId, req: CategoryRequest, random: UuidText, now: Time)
      returns (r: Result<Category, CategoryError>)
      requires Valid()
      modifies this
      ensures Valid() && nextId == old(nextId)
      ensures r.Success? ==> AfterUpdate(old(rows), id, req, random, now) == Success(rows)
                             && id in rows && r.value == rows[id]
      ensures r.Failure? ==> rows == old(rows) && AfterUpdate(old(rows), id, req, random, now) == Failure(r.error)
    {
      if id !in rows {
        return Failure(CategoryNotFound);
      }
      var existing := rows[id];
      var parent: Option<Category> := None;
      if req.parent.Some? {
        if req.parent.value !in rows {
          return Failure(ParentNotFound);
        }
        parent := Some(rows[req.parent.value]);
      }
      var c := existing;
      c := c.(name := req.name);
      c := c.(description := req.description);
      c := c.(isActive := if req.isActive.Some? then req.isActive.value else c.isActive);
      c := c.(slug := SlugUtil.ToSlug(req.name, random));
      c := c.(parent := req.parent);
      if parent.None? {
        c := c.(hierarchyPath := c.slug, level := 0);
      } else {
        c := c.(hierarchyPath := parent.value.hierarchyPath + "/" + c.slug);
        c := c.(level := Wrap(parent.value.level + 1));
      }
      if c != existing {
        c := c.(updatedAt := now);
      }
      rows := rows[id := c];
      r := Success(c);
    }

    method DeleteCategory(id: CategoryId, now: Time) returns (r: Outcome<CategoryError>)
      requires Valid()
      modifies this
      ensures Valid() && nextId == old(nextId)
      ensures r.Pass? ==> AfterDelete(old(rows), id, now) == Success(rows)
      ensures r.Fail? ==> rows == old(rows) && AfterDelete(old(rows), id, now) == Failure(r.error)
    {
      if id !in rows {
        return Fail(CategoryNotFound);
      }
      var c := rows[id].(isActive := false);
      if c != rows[id] {
        c := c.(updatedAt := now);
      }
      rows := rows[id := c];
      r := Pass;
    }

    /** `findById`. */
    function FindById(id: CategoryId): (r: Result<Category, CategoryError>)
      reads this
      ensures r.Success? <==> id in rows
      ensures r.Success? ==> r.value == rows[id]
      ensures r.Failure? ==> r.error == CategoryNotFound
    {
      if id in rows then Success(rows[id]) else Failure(CategoryNotFound)
    }

    /** `getAllCategories`: every category when inactive ones are included, the active ones
        otherwise (the name ordering of the listing is not kept). */
    function GetAllCategories(includeInactive: bool): (r: Categories)
      reads this
      ensures includeInactive ==> r == rows
      ensures !includeInactive ==> r == Active(rows)
      ensures forall id :: id in r ==> id in rows && r[id] == rows[id] && (includeInactive || r[id].isActive)
    {
      if includeInactive then rows else Active(rows)
    }

    /** `getChildCategories`: the categories whose parent is `parentId`. */
    function GetChildCategories(parentId: CategoryId): (r: Categories)
      reads this
      ensures forall id :: id in r <==> id in rows && rows[id].parent == Some(parentId)
      ensures forall id :: id in r ==> r[id] == rows[id]
    {
      ChildrenOf(rows, parentId)
    }

    /** `getActiveCategories`: the same listing as `getAllCategories(false)`. */
    function GetActiveCategories(): (r: Categories)
      reads this
      ensures r == GetAllCategories(false)
      ensures forall id :: id in r <==> id in rows && rows[id].isActive
    {
      Active(rows)
    }

    /** `fetchCategoryTree`: one entry per root category (active or not), listing the ids of
        its direct children. */
    function FetchCategoryTree(): (tree: map<CategoryId, TreeEntry>)
      reads this
      ensures forall id :: id in tree <==> id in rows && rows[id].parent.None?
      ensures forall id :: id in tree ==> tree[id].category == rows[id]
      ensures forall id, c :: id in tree ==>
        (c in tree[id].childrenId <==> c in rows && rows[c].parent == Some(id))
    {
      map id | id in rows && rows[id].parent.None? :: TreeEntry(rows[id], ChildrenOf(rows, id).Keys)
    }
  }
}
