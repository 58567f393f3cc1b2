/** The data shapes of the catalog (src/types/index.ts): products with seven
    parallel (image, subcategory) slots, categories, and the display groups
    that the product grid derives from the product list. */
module Types {

  /** A nullable value: `string | null` in the source. */
  datatype Option<+T> = None | Some(value: T) {
    /** `x || fallback` on a nullable value: the value itself unless it is absent. */
    function GetOr(fallback: T): T {
      match this
      case Some(v) => v
      case None => fallback
    }
  }

  /** Number of image slots and of subcategory slots on a product row. */
  const SlotCount: nat := 7

  /** The seven slot columns `image_url` .. `image_url_7` or `subcategory` ..
      `subcategory_7`, slot k at index k - 1. */
  type Slots = s: seq<Option<string>> | |s| == SlotCount
    witness [None, None, None, None, None, None, None]

  const EmptySlots: Slots := [None, None, None, None, None, None, None]

  /** JavaScript truthiness of a `string | null`: present and non-empty. */
  predicate Truthy(o: Option<string>) {
    o.Some? && o.value != ""
  }

  /** JavaScript `a || b` on two `string | null` values. */
  function OrElse(a: Option<string>, b: Option<string>): (r: Option<string>)
    ensures Truthy(a) ==> r == a
    ensures !Truthy(a) ==> r == b
  {
    if Truthy(a) then a else b
  }

  datatype Product = Product(
    id: string,
    code: string,
    name: string,
    categoryId: string,
    isBestseller: bool,
    images: Slots,         // image_url, image_url_2, .., image_url_7
    subcategories: Slots)  // subcategory, subcategory_2, .., subcategory_7

  datatype Category = Category(id: string, name: string, priority: int)

  /** One selectable (label, image) entry of a display group. */
  datatype ProductVariant = ProductVariant(
    product: Product,
    variantName: string,
    imageUrl: Option<string>)

  /** A card of the grid: every product sharing `mainName`, merged. */
  datatype ProductGroup = ProductGroup(
    mainName: string,
    code: string,
    isBestseller: bool,
    mainImage: Option<string>,
    variants: seq<ProductVariant>)

  /** What one backend query returns: an error, or a possibly null row list. */
  datatype Fetch<T> = Failed | Rows(data: Option<seq<T>>)
}
