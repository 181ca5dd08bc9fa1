/**
 * The category service: listing, lookup, unique-name creation and renaming,
 * partial update, and deletion (after which the category's presets have none).
 */
module Categories {
  import opened Wrappers
  import opened Text
  import opened Ordering
  import opened Tables
  import opened Models
  import opened Schema

  const DUPLICATE_NAME: string := "Category with this name already exists"

  /** The DTO of category `id`. */
  function MapToDto(id: int, c: Category): (d: CategoryDto)
    ensures d.id == id
    ensures Category(d.name, d.description, d.isActive, d.createdAt) == c
  {
    CategoryDto(id, c.name, c.description, c.isActive, c.createdAt)
  }

  /** `OrderBy(c => c.Name)`. */
  predicate ByName(a: CategoryDto, b: CategoryDto) {
    StringLessEq(a.name, b.name)
  }

  lemma ByNameTotalPreorder()
    ensures TotalPreorder(ByName)
  {
    StringLessEqTotalPreorder();
  }

  /** `GetAllCategoriesAsync()`: every active category, each once, in ascending name order. */
  function GetAllCategories(categories: Table<Category>): (r: seq<CategoryDto>)
    requires categories.Valid()
    ensures SortedBy(r, ByName)
    ensures forall i :: 0 <= i < |r| ==> r[i].isActive
    ensures multiset(r) == multiset(set id | id in categories.rows && categories.rows[id].isActive :: MapToDto(id, categories.rows[id]))
  {
    ByNameTotalPreorder();
    var r := Query(categories, (c: Category) => c.isActive, MapToDto, (d: CategoryDto) => d.id, ByName);
    forall i | 0 <= i < |r| ensures r[i].isActive {
      assert r[i] in multiset(r);
    }
    r
  }

  /** `GetCategoryByIdAsync(id)`: the category with key `id`, active or not, or null. */
  function GetCategoryById(categories: Table<Category>, id: int): (r: Option<CategoryDto>)
    ensures r.Some? <==> id in categories.rows
    ensures r.Some? ==> r.value.id == id && r.value == MapToDto(id, categories.rows[id])
  {
    if id in categories.rows then Some(MapToDto(id, categories.rows[id])) else None
  }

  class CategoryService {
    const context: AppDbContext

    constructor (context: AppDbContext)
      ensures this.context == context
    {
      this.context := context;
    }

    /**
     * `CreateCategoryAsync(dto)`: refused when any category, active or not, already has
     * the name; otherwise one active category is added.
     */
    method CreateCategory(dto: CreateCategoryDto, now: Timestamp) returns (r: Result<CategoryDto, Exception>)
      requires context.Valid()
      modifies context`categories
      ensures context.Valid()
      ensures r.Failure? <==> exists id :: id in old(context.categories.rows) && old(context.categories.rows)[id].name == dto.name
      ensures r.Failure? ==> r.error == InvalidOperationException(DUPLICATE_NAME) && context.categories == old(context.categories)
      ensures r.Success? ==>
        var created := Category(dto.name, dto.description, true, Some(now));
        && context.categories == Add(old(context.categories), created)
        && r.value == MapToDto(old(context.categories.nextId), created)
    {
      var existing := FirstOrDefault(context.categories, (c: Category) => c.name == dto.name);
      if existing.Some? {
        return Failure(InvalidOperationException(DUPLICATE_NAME));
      }
      var category := Category(dto.name, dto.description, true, Some(now));
      var id := context.categories.nextId;
      CategoryAdded(context.categories, context.presets, category);
      context.categories := Add(context.categories, category);
      r := Success(MapToDto(id, category));
    }

    /**
     * `UpdateCategoryAsync(id, dto)`: null for an absent id. A non-empty name is taken
     * unless a different category holds it; a non-null description (even an empty
     * one) and a present active flag are taken; nothing else changes.
     */
    method UpdateCategory(id: int, dto: UpdateCategoryDto) returns (r: Result<Option<CategoryDto>, Exception>)
      requires context.Valid()
      modifies context`categories
      ensures context.Valid()
      ensures id !in old(context.categories.rows) ==> r == Success(None)
      ensures r.Failure? <==>
        && id in old(context.categories.rows)
        && !IsNullOrEmpty(dto.name)
        && exists other :: other in old(context.categories.rows) && other != id && old(context.categories.rows)[other].name == dto.name.value
      ensures r.Failure? ==> r.error == InvalidOperationException(DUPLICATE_NAME)
      ensures r.Failure? || r == Success(None) ==> context.categories == old(context.categories)
      ensures id in old(context.categories.rows) && r.Success? ==> id in context.categories.rows
      ensures id in old(context.categories.rows) && r.Success? ==>
        var was := old(context.categories.rows)[id];
        var updated := context.categories.rows[id];
        && context.categories == Replace(old(context.categories), id, updated)
        && r.value == Some(MapToDto(id, updated))
        && updated.name == (if IsNullOrEmpty(dto.name) then was.name else dto.name.value)
        && updated.description == (if dto.description.Some? then dto.description else was.description)
        && updated.isActive == (if dto.isActive.Some? then dto.isActive.value else was.isActive)
        && updated.createdAt == was.createdAt
    {
      if id !in context.categories.rows {
        return Success(None);
      }
      var category := context.categories.rows[id];
      if !IsNullOrEmpty(dto.name) {
        var existing := FirstOrDefaultBy(context.categories, (cid: int, c: Category) => c.name == dto.name.value && cid != id);
        if existing.Some? {
          return Failure(InvalidOperationException(DUPLICATE_NAME));
        }
        category := category.(name := dto.name.value);
      }
      if dto.description.Some? {
        category := category.(description := dto.description);
      }
      if dto.isActive.Some? {
        category := category.(isActive := dto.isActive.value);
      }
      CategoryReplaced(context.categories, context.presets, id, category);
      context.categories := Replace(context.categories, id, category);
      r := Success(Some(MapToDto(id, category)));
    }

    /**
     * `DeleteCategoryAsync(id)`: false for an absent id; otherwise exactly that category
     * goes, and the presets that were in it stay, without a category.
     */
    method DeleteCategory(id: int) returns (deleted: bool)
      requires context.Valid()
      modifies context`categories, context`presets
      ensures context.Valid()
      ensures deleted <==> id in old(context.categories.rows)
      ensures !deleted ==> context.categories == old(context.categories) && context.presets == old(context.presets)
      ensures deleted ==> context.categories == Delete(old(context.categories), id)
      ensures deleted ==> context.presets == NullifyCategory(old(context.presets), id)
    {
      if id !in context.categories.rows {
        return false;
      }
      context.RemoveCategory(id);
      deleted := true;
    }
  }
}
