/** A catalog card (src/components/ProductCard.tsx): which image it shows
    for the selected variant, which selection buttons it offers, and the
    click and image-load handlers that drive its state. */
module ProductCard {
  import opened Types
  import opened Lists
  import ProductGrid

  /** The selection that stands for the main image. */
  const MainSelection: int := -1

  /** The URL the card shows before optimisation: with the main image
      selected, `mainImage || product.image_url`; with variant `i` selected,
      that variant's URL when it exists and is truthy, otherwise the
      product's own image. */
  function CurrentImageRaw(productImage: Option<string>, mainImage: Option<string>,
                           variants: seq<ProductVariant>, selected: int): (r: Option<string>)
    ensures selected == MainSelection ==> r == (if Truthy(mainImage) then mainImage else productImage)
    ensures selected != MainSelection ==>
      (r == productImage ||
       (0 <= selected < |variants| && r == variants[selected].imageUrl && Truthy(r)))
    ensures 0 <= selected < |variants| && Truthy(variants[selected].imageUrl) ==>
      r == variants[selected].imageUrl
  {
    if selected == MainSelection then OrElse(mainImage, productImage)
    else if 0 <= selected < |variants| then OrElse(variants[selected].imageUrl, productImage)
    else productImage
  }

  /** `variants.map(v => v.variantName).filter(Boolean)`. */
  function VariantNames(variants: seq<ProductVariant>): (r: seq<string>)
    ensures IsSubsequence(r, ProductGrid.VariantLabels(variants))
    ensures forall x | x in r :: x != ""
    ensures forall i | 0 <= i < |variants| && variants[i].variantName != "" :: variants[i].variantName in r
    ensures forall x: string | x != "" :: multiset(r)[x] == multiset(ProductGrid.VariantLabels(variants))[x]
  {
    var names := ProductGrid.VariantLabels(variants);
    var r := FilterBy(names, (x: string) => x != "");
    FilterBySubsequence(names, (x: string) => x != "");
    forall i | 0 <= i < |variants| && variants[i].variantName != "" ensures variants[i].variantName in r {
      assert names[i] in names;
    }
    forall x: string | x != "" ensures multiset(r)[x] == multiset(names)[x] {
      if x !in names {
        assert x !in r;
      }
    }
    r
  }

  datatype Button =
    | Principal                 // back to the main image
    | VariantButton(index: nat) // select variant `index`

  /** A button is highlighted (`aria-pressed`) exactly when it stands for
      the current selection. */
  predicate Pressed(b: Button, selected: int) {
    match b
    case Principal => selected == MainSelection
    case VariantButton(i) => selected == i
  }

  /** The variant buttons from index `from` on: one per variant with a
      non-empty name. */
  function VariantButtons(variants: seq<ProductVariant>, from: nat): (bs: seq<Button>)
    requires from <= |variants|
    ensures forall i: nat :: VariantButton(i) in bs <==> from <= i < |variants| && variants[i].variantName != ""
    ensures forall b | b in bs :: b.VariantButton? && from <= b.index
    ensures forall i, j | 0 <= i < j < |bs| :: bs[i].VariantButton? && bs[j].VariantButton? && bs[i].index < bs[j].index
    decreases |variants| - from
  {
    if from == |variants| then []
    else (if variants[from].variantName != "" then [VariantButton(from)] else []) + VariantButtons(variants, from + 1)
  }

  /** The buttons of the variants section, which is rendered only when some
      variant has a name; inside it, "Principal" needs a truthy main image. */
  function Buttons(mainImage: Option<string>, variants: seq<ProductVariant>): (bs: seq<Button>)
    ensures Principal in bs <==> VariantNames(variants) != [] && Truthy(mainImage)
    ensures forall i: nat :: VariantButton(i) in bs <==> i < |variants| && variants[i].variantName != ""
    ensures Principal in bs ==> exists i: nat :: VariantButton(i) in bs
    ensures Principal in bs ==> bs[0] == Principal && Principal !in bs[1..]
    ensures forall i, j | 0 <= i < j < |bs| && bs[i].VariantButton? && bs[j].VariantButton? :: bs[i].index < bs[j].index
  {
    var vbs := VariantButtons(variants, 0);
    if VariantNames(variants) == [] then
      SectionShownIff(variants);
      []
    else if !Truthy(mainImage) then vbs
    else
      SomeVariantButton(variants);
      PrincipalFirst(vbs);
      [Principal] + vbs
  }

  /** When some variant is named, some variant button exists. */
  lemma SomeVariantButton(variants: seq<ProductVariant>)
    requires VariantNames(variants) != []
    ensures exists i: nat :: VariantButton(i) in VariantButtons(variants, 0)
  {
    SectionShownIff(variants);
    var i :| 0 <= i < |variants| && variants[i].variantName != "";
    assert VariantButton(i) in VariantButtons(variants, 0);
  }

  /** Putting "Principal" in front of the variant buttons keeps their order. */
  lemma PrincipalFirst(vbs: seq<Button>)
    requires forall b | b in vbs :: b.VariantButton?
    requires forall i, j | 0 <= i < j < |vbs| :: vbs[i].VariantButton? && vbs[j].VariantButton? && vbs[i].index < vbs[j].index
    ensures ([Principal] + vbs)[1..] == vbs && Principal !in vbs
    ensures forall b: Button :: b in [Principal] + vbs <==> b == Principal || b in vbs
    ensures forall i, j | 0 <= i < j < |[Principal] + vbs| &&
      ([Principal] + vbs)[i].VariantButton? && ([Principal] + vbs)[j].VariantButton? ::
      ([Principal] + vbs)[i].index < ([Principal] + vbs)[j].index
  {
    var bs := [Principal] + vbs;
    assert forall i | 1 <= i < |bs| :: bs[i] == vbs[i - 1];
  }

  /** The variants section shows exactly when some variant has a name. */
  lemma SectionShownIff(variants: seq<ProductVariant>)
    ensures VariantNames(variants) != [] <==> exists i :: 0 <= i < |variants| && variants[i].variantName != ""
  {
    var r := VariantNames(variants);
    if r != [] {
      assert r[0] in r;
      assert IsSubsequence(r, ProductGrid.VariantLabels(variants));
      SubsequenceMember(r, ProductGrid.VariantLabels(variants), r[0]);
    }
  }

  /** On a card of the grid, the fallback variant never gets a button and
      every other variant does. */
  lemma GroupCardButtons(ps: seq<Product>, n: string)
    requires n in ProductGrid.NameSet(ps)
    ensures forall i: nat | 0 < i < |ProductGrid.GroupOf(ps, n).variants| ::
      VariantButton(i) in Buttons(ProductGrid.GroupOf(ps, n).mainImage, ProductGrid.GroupOf(ps, n).variants)
    ensures forall i: nat | i < |ProductGrid.GroupOf(ps, n).variants| &&
        ProductGrid.GroupOf(ps, n).variants[i].variantName == "" ::
      i == 0 && VariantButton(i) !in Buttons(ProductGrid.GroupOf(ps, n).mainImage, ProductGrid.GroupOf(ps, n).variants)
  {
    ProductGrid.GroupOfVariants(ps, n);
  }

  /** A card's state: the selection and the loading flags of its picture. */
  class Card {
    const productImage: Option<string>
    const mainImage: Option<string>
    const variants: seq<ProductVariant>
    var selected: int
    var imageLoaded: bool
    var imageError: bool

    constructor (productImage: Option<string>, mainImage: Option<string>, variants: seq<ProductVariant>)
      ensures this.productImage == productImage && this.mainImage == mainImage && this.variants == variants
      ensures selected == MainSelection && !imageLoaded && !imageError
    {
      this.productImage := productImage;
      this.mainImage := mainImage;
      this.variants := variants;
      selected := MainSelection;
      imageLoaded := false;
      imageError := false;
    }

    /** The URL currently shown. */
    function Shown(): Option<string>
      reads this
    {
      CurrentImageRaw(productImage, mainImage, variants, selected)
    }

    /** The picture is rendered (rather than the "no image" placeholder). */
    predicate ShowsPicture()
      reads this
    {
      Truthy(Shown()) && !imageError
    }

    /** `handleVariantClick(index)`. */
    method ClickVariant(index: nat)
      modifies this
      ensures selected == index && !imageLoaded && !imageError
      ensures forall b: Button :: Pressed(b, selected) <==> b == VariantButton(index)
      ensures index < |variants| && Truthy(variants[index].imageUrl) ==> Shown() == variants[index].imageUrl
      ensures !(index < |variants| && Truthy(variants[index].imageUrl)) ==> Shown() == productImage
    {
      selected := index;
      imageLoaded := false;
      imageError := false;
    }

    /** `handleMainImageClick`. */
    method ClickMain()
      modifies this
      ensures selected == MainSelection && !imageLoaded && !imageError
      ensures forall b: Button :: Pressed(b, selected) <==> b == Principal
      ensures Shown() == OrElse(mainImage, productImage)
    {
      selected := MainSelection;
      imageLoaded := false;
      imageError := false;
    }

    /** The picture finished loading. */
    method ImageLoaded()
      modifies this
      ensures imageLoaded && imageError == old(imageError) && selected == old(selected)
    {
      imageLoaded := true;
    }

    /** The picture failed to load: the placeholder replaces it. */
    method ImageFailed()
      modifies this
      ensures imageError && !imageLoaded && selected == old(selected)
      ensures !ShowsPicture()
    {
      imageError := true;
      imageLoaded := false;
    }
  }
}
