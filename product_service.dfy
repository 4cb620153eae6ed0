/** `ProductService`: create-if-name-unique and the paginated listing of products. */
module Products {
  import opened Wrappers
  import opened Errors
  import opened Pagination
  import opened Tables

  const ProductExists := "Product already exists"

  /** `user` and `category` are the ids of the referenced records. */
  datatype Product = Product(
    id: string, name: string, available: bool, price: int,
    description: string, user: string, category: string)

  datatype CreateProductDto = CreateProductDto(
    name: string, available: bool, price: int,
    description: string, user: string, category: string)

  datatype ProductPage = ProductPage(page: nat, limit: nat, total: nat, products: seq<Product>)

  function Name(r: Product): string
  {
    r.name
  }

  function Id(r: Product): string
  {
    r.id
  }

  function FromDto(dto: CreateProductDto, id: string): Product
  {
    Product(id, dto.name, dto.available, dto.price, dto.description, dto.user, dto.category)
  }

  class ProductService {
    /** The product collection in insertion order. */
    var products: seq<Product>

    ghost predicate Valid()
      reads this
    {
      Distinct(products, Id)
    }

    constructor(products: seq<Product>)
      requires Distinct(products, Id)
      ensures Valid() && this.products == products
    {
      this.products := products;
    }

    /**
      `createProduct`: a name already in the collection is refused; otherwise one
      product carrying the DTO's fields is appended and returned as stored.
      `freshId` is the id the database assigns to the new record.
    */
    method CreateProduct(dto: CreateProductDto, freshId: string) returns (r: Result<Product, CustomError>)
      requires Valid()
      requires !Contains(products, Id, freshId)
      modifies this
      ensures Valid()
      ensures Contains(old(products), Name, dto.name) ==>
                r == Failure(CustomError(BadRequest, ProductExists)) && products == old(products)
      ensures !Contains(old(products), Name, dto.name) ==>
                && products == old(products) + [FromDto(dto, freshId)]
                && r == Success(products[|products| - 1])
      ensures Distinct(old(products), Name) ==> Distinct(products, Name)
    {
      if Contains(products, Name, dto.name) {
        return Failure(CustomError(BadRequest, ProductExists));
      }
      var product := FromDto(dto, freshId);
      products := products + [product];
      r := Success(product);
    }

    /**
      `getProduct`: echoes `page` and `limit`, counts the whole collection and
      lists the page's slice of products, in collection order.
    */
    function GetProduct(page: nat, limit: nat): (r: ProductPage)
      reads this
      requires page >= 1 && limit >= 1
      ensures r.page == page && r.limit == limit && r.total == |products|
      ensures |r.products| <= limit
      ensures |r.products| == Min(limit, |products| - Min(Offset(page, limit), |products|))
      ensures forall i | 0 <= i < |r.products| :: r.products[i] == products[Offset(page, limit) + i]
    {
      ProductPage(page, limit, |products|, Paginate(products, page, limit))
    }
  }
}
