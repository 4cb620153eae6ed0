/** `CategoryService`: create-if-name-unique and the paginated listing of categories. */
module Categories {
  import opened Wrappers
  import opened Errors
  import opened Pagination
  import opened Tables
  import Auth

  const CategoryExists := "category already exists"

  datatype Category = Category(id: string, name: string, available: bool, user: string)

  datatype CreateCategoryDto = CreateCategoryDto(name: string, available: bool)

  /** The fields of a category that the service hands out. */
  datatype CategorySummary = CategorySummary(id: string, name: string, available: bool)

  datatype CategoryPage = CategoryPage(page: nat, limit: nat, total: nat, categories: seq<CategorySummary>)

  function Summary(category: Category): CategorySummary
  {
    CategorySummary(category.id, category.name, category.available)
  }

  /** `categories.map(...)`: each category projected to its summary, in order. */
  function Summaries(categories: seq<Category>): (r: seq<CategorySummary>)
    ensures |r| == |categories|
    ensures forall i | 0 <= i < |categories| :: r[i] == Summary(categories[i])
  {
    if categories == [] then [] else [Summary(categories[0])] + Summaries(categories[1..])
  }

  function Name(r: Category): string
  {
    r.name
  }

  function Id(r: Category): string
  {
    r.id
  }

  class CategoryService {
    /** The category collection in insertion order. */
    var categories: seq<Category>

    ghost predicate Valid()
      reads this
    {
      Distinct(categories, Id)
    }

    constructor(categories: seq<Category>)
      requires Distinct(categories, Id)
      ensures Valid() && this.categories == categories
    {
      this.categories := categories;
    }

    /**
      `createCategory`: a name already in the collection is refused; otherwise
      one category with the DTO's fields and the creating user's id is appended,
      and its id, name and availability are returned. `freshId` is the id the
      database assigns to the new record.
    */
    method CreateCategory(dto: CreateCategoryDto, user: Auth.UserEntity, freshId: string)
      returns (r: Result<CategorySummary, CustomError>)
      requires Valid()
      requires !Contains(categories, Id, freshId)
      modifies this
      ensures Valid()
      ensures Contains(old(categories), Name, dto.name) ==>
                r == Failure(CustomError(BadRequest, CategoryExists)) && categories == old(categories)
      ensures !Contains(old(categories), Name, dto.name) ==>
                && categories == old(categories) + [Category(freshId, dto.name, dto.available, user.id)]
                && r == Success(CategorySummary(freshId, dto.name, dto.available))
      ensures Distinct(old(categories), Name) ==> Distinct(categories, Name)
    {
      if Contains(categories, Name, dto.name) {
        return Failure(CustomError(BadRequest, CategoryExists));
      }
      var category := Category(freshId, dto.name, dto.available, user.id);
      categories := categories + [category];
      r := Success(CategorySummary(category.id, category.name, category.available));
    }

    /**
      `getCategories`: echoes `page` and `limit`, counts the whole collection and
      lists the summaries of the page's slice, in collection order.
    */
    function GetCategories(page: nat, limit: nat): (r: CategoryPage)
      reads this
      requires page >= 1 && limit >= 1
      ensures r.page == page && r.limit == limit && r.total == |categories|
      ensures |r.categories| == Min(limit, |categories| - Min(Offset(page, limit), |categories|))
      ensures forall i | 0 <= i < |r.categories| ::
                r.categories[i] == Summary(categories[Offset(page, limit) + i])
    {
      CategoryPage(page, limit, |categories|, Summaries(Paginate(categories, page, limit)))
    }
  }
}
