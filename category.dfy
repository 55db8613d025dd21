/**
 * Product categories, as backend/controllers/categoryController.js keeps
 * them: each a name and a slug made from the name by the `slugify` library.
 * Creation refuses a name that an existing category has exactly; update and
 * delete go by id, and update does not look at the other categories' names.
 */
module Categories {
  import opened Common
  import opened ObjectIds

  datatype Category = Category(id: string, name: string, slug: string)

  /** A category's id as the database compares it. */
  function CategoryId(c: Category): string { CanonicalId(c.id) }
  function CategoryName(c: Category): string { c.name }

  datatype CategoryReply =
    | NameRequired
    | CategoryExists
    | Created(category: Category)
    | CategoryNotFound
    | CategoryUpdated(category: Category)
    | CategoryFound(category: Category)
    | CategoryDeleted
  {
    function Status(): nat
    {
      match this
      case NameRequired => 400
      case CategoryExists => 409
      case Created(_) => 201
      case CategoryNotFound => 404
      case CategoryUpdated(_) => 200
      case CategoryFound(_) => 200
      case CategoryDeleted => 200
    }

    function Message(): string
    {
      match this
      case NameRequired => "Category name is required"
      case CategoryExists => "Category already exists"
      case Created(_) => "New category created"
      case CategoryNotFound => "Category not found"
      case CategoryUpdated(_) => "Category updated successfully"
      case CategoryFound(_) => "Get single category successfully"
      case CategoryDeleted => "Category deleted successfully"
    }
  }

  /** `categorySchema` (categoryController.js:6-8): a name of at least one character. */
  predicate NameValid(name: string)
    ensures NameValid(name) <==> name != ""
  {
    |name| >= 1
  }

  /** `categoryModel.findOne({ name: { $eq: name } })` */
  function CategoryByName(items: seq<Category>, name: string): Option<nat>
  {
    FirstIndex(items, (c: Category) => c.name == name)
  }

  /** `categoryModel.findById(id)` */
  function CategoryById(items: seq<Category>, id: string): Option<nat>
  {
    FirstIndex(items, (c: Category) => SameId(c.id, id))
  }

  /** `singleCategoryController` (categoryController.js:111-138): look up by exact slug. */
  function SingleCategory(items: seq<Category>, slug: string): (r: CategoryReply)
    ensures r == CategoryNotFound <==> forall j :: 0 <= j < |items| ==> items[j].slug != slug
    ensures r != CategoryNotFound ==> r.CategoryFound? && r.category in items && r.category.slug == slug
  {
    match FirstIndex(items, (c: Category) => c.slug == slug)
    case None => CategoryNotFound
    case Some(i) => CategoryFound(items[i])
  }

  class CategoryStore {
    var items: seq<Category>
    /** The `slugify` library function. */
    const slugify: string -> string

    /** No two categories have the same id, and every stored id is a rendered ObjectId. */
    ghost predicate Valid()
      reads this
    {
      && Distinct(items, CategoryId)
      && forall j :: 0 <= j < |items| ==> IsObjectId(items[j].id)
    }

    constructor (slugify: string -> string)
      ensures Valid() && items == [] && this.slugify == slugify
    {
      this.slugify := slugify;
      items := [];
    }

    /** `createCategoryController` (categoryController.js:11-48); `newId` is the id the database assigns. */
    method CreateCategory(name: string, newId: string) returns (reply: CategoryReply)
      requires Valid()
      requires IsObjectId(newId) && forall j :: 0 <= j < |items| ==> !SameId(items[j].id, newId)
      modifies this
      ensures Valid()
      ensures !NameValid(name) ==> reply == NameRequired && items == old(items)
      ensures NameValid(name) && (exists j :: 0 <= j < |old(items)| && old(items)[j].name == name)
              ==> reply == CategoryExists && items == old(items)
      ensures reply.Created? <==> NameValid(name) && forall j :: 0 <= j < |old(items)| ==> old(items)[j].name != name
      ensures reply.Created? ==>
              reply.category == Category(newId, name, slugify(name)) && items == old(items) + [reply.category]
      // creation never gives two categories the same name
      ensures Distinct(old(items), CategoryName) ==> Distinct(items, CategoryName)
    {
      if !NameValid(name) {
        return NameRequired;
      }
      if CategoryByName(items, name).Some? {
        return CategoryExists;
      }
      var c := Category(newId, name, slugify(name));
      AppendDistinct(items, c, CategoryId);
      if Distinct(items, CategoryName) {
        AppendDistinct(items, c, CategoryName);
      }
      items := items + [c];
      reply := Created(c);
    }

    /** `updateCategoryController` (categoryController.js:51-89). */
    method UpdateCategory(id: string, name: string) returns (reply: CategoryReply)
      requires Valid()
      modifies this
      ensures Valid()
      ensures !NameValid(name) ==> reply == NameRequired && items == old(items)
      ensures NameValid(name) && CategoryById(old(items), id).None? ==> reply == CategoryNotFound && items == old(items)
      ensures NameValid(name) && CategoryById(old(items), id).Some? ==>
              var i := CategoryById(old(items), id).value;
              && items == old(items)[i := old(items)[i].(name := name, slug := slugify(name))]
              && reply == CategoryUpdated(items[i])
    {
      if !NameValid(name) {
        return NameRequired;
      }
      var found := CategoryById(items, id);
      if found.None? {
        return CategoryNotFound;
      }
      var i := found.value;
      var c := items[i].(name := name, slug := slugify(name));
      UpdateDistinct(items, i, c, CategoryId);
      items := items[i := c];
      reply := CategoryUpdated(c);
    }

    /** `deleteCategoryController` (categoryController.js:141-167). */
    method DeleteCategory(id: string) returns (reply: CategoryReply)
      requires Valid()
      modifies this
      ensures Valid()
      ensures CategoryById(old(items), id).None? ==> reply == CategoryNotFound && items == old(items)
      ensures CategoryById(old(items), id).Some? ==>
              && reply == CategoryDeleted
              && items == RemoveAt(old(items), CategoryById(old(items), id).value)
              && forall x :: x in items <==> x in old(items) && !SameId(x.id, id)
    {
      var found := CategoryById(items, id);
      if found.None? {
        return CategoryNotFound;
      }
      var i := found.value;
      RemoveAtDistinct(items, i, CategoryId);
      items := RemoveAt(items, i);
      reply := CategoryDeleted;
    }
  }
}
