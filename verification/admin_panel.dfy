/** The administration page (src/pages/AdminPanel.tsx): input sanitizing,
    validation of the new-product form, the local patches applied to the
    product list after a successful backend write, and the single-row
    subcategory editor with its seven-slot scratch buffer. */
module AdminPanel {
  import opened Types
  import opened JsString
  import opened Lists
  import ProductGrid

  // ---------------------------------------------------------------------
  // Sanitizing: `input.trim().replace(/<[^>]*>/g, '')`
  // ---------------------------------------------------------------------

  /** The first index at or after `i` holding `c`, or `|s|` if there is none. */
  function IndexFrom(s: string, c: char, i: nat): (k: nat)
    requires i <= |s|
    ensures i <= k <= |s|
    ensures k < |s| ==> s[k] == c
    ensures forall j | i <= j < k :: s[j] != c
    decreases |s| - i
  {
    if i == |s| || s[i] == c then i else IndexFrom(s, c, i + 1)
  }

  /** No `<` is followed, anywhere later, by a `>`: nothing the tag pattern
      could match. */
  predicate NoTag(s: string) {
    forall i, j | 0 <= i < j < |s| :: s[i] == '<' ==> s[j] != '>'
  }

  /** The global replacement of `<[^>]*>` by nothing. Scanning from the
      left, a `<` with a `>` somewhere after it starts a match that ends at
      the first such `>`, and the whole match is dropped; every other
      character is kept. */
  function StripTags(s: string): (r: string)
    ensures |r| <= |s|
    ensures forall c | c in r :: c in s
    ensures NoTag(r)
    decreases |s|
  {
    if s == [] then []
    else if s[0] == '<' && IndexFrom(s, '>', 1) < |s| then
      var rest := s[IndexFrom(s, '>', 1) + 1..];
      assert forall c | c in rest :: c in s;
      StripTags(rest)
    else
      var rest := StripTags(s[1..]);
      assert forall c | c in s[1..] :: c in s;
      assert s[0] == '<' ==> forall c | c in rest :: c != '>' by {
        if s[0] == '<' {
          assert forall j | 1 <= j < |s| :: s[j] != '>';
          assert forall c | c in s[1..] :: c != '>';
        }
      }
      assert forall j | 0 < j < |[s[0]] + rest| :: ([s[0]] + rest)[j] in rest;
      [s[0]] + rest
  }

  /** A string with nothing to match is left as it is. */
  lemma {:induction false} StripTagsFixed(s: string)
    requires NoTag(s)
    ensures StripTags(s) == s
  {
    if s != [] {
      assert NoTag(s[1..]) by {
        forall i, j | 0 <= i < j < |s[1..]| ensures s[1..][i] == '<' ==> s[1..][j] != '>' {
          assert s[1..][i] == s[i + 1] && s[1..][j] == s[j + 1];
        }
      }
      StripTagsFixed(s[1..]);
      if s[0] == '<' {
        assert forall j | 0 < j < |s| :: s[j] != '>';
      }
    }
  }

  /** Stripping twice strips nothing more. */
  lemma StripTagsIdempotent(s: string)
    ensures StripTags(StripTags(s)) == StripTags(s)
  {
    StripTagsFixed(StripTags(s));
  }

  /** Text before the first `<` is kept as it is, and stripping goes on
      after it. */
  lemma {:induction false} StripTagsKeepsPlainPrefix(x: string, y: string)
    requires '<' !in x
    ensures StripTags(x + y) == x + StripTags(y)
  {
    if x != [] {
      var s := x + y;
      assert s[0] == x[0] && x[0] in x;
      assert s[1..] == x[1..] + y;
      assert '<' !in x[1..];
      StripTagsKeepsPlainPrefix(x[1..], y);
      assert StripTags(s) == [x[0]] + StripTags(s[1..]);
      assert x + StripTags(y) == [x[0]] + (x[1..] + StripTags(y));
    } else {
      assert x + y == y;
    }
  }

  /** A complete tag `<t>` (no `>` inside it) is dropped whole, and
      stripping goes on after it. */
  lemma StripTagsDropsTag(t: string, y: string)
    requires '>' !in t
    ensures StripTags(['<'] + t + ['>'] + y) == StripTags(y)
  {
    var s := ['<'] + t + ['>'] + y;
    assert s[|t| + 1] == '>';
    assert forall j | 1 <= j < |t| + 1 :: s[j] == t[j - 1];
    assert IndexFrom(s, '>', 1) == |t| + 1;
    assert s[|t| + 2..] == y;
  }

  /** A `<` that no `>` follows is not a tag: the text is kept. */
  lemma StripTagsKeepsUnclosed(x: string)
    requires '>' !in x
    ensures StripTags(x) == x
  {
    StripTagsFixed(x);
  }

  /** Sanitizing a bolded name leaves the bare name. */
  lemma SanitizeExample()
    ensures Sanitize("<b>Vela</b>") == "Vela"
  {
    TrimBolded();
    StripBolded();
  }

  lemma TrimBolded()
    ensures Trim("<b>Vela</b>") == "<b>Vela</b>"
  {
    var s := "<b>Vela</b>";
    assert TrimStartIndex(s, 0) == 0;
    assert TrimEndIndex(s, 0, 11) == 11;
  }

  lemma StripBolded()
    ensures StripTags("<b>Vela</b>") == "Vela"
  {
    BoldedPieces();
    StripTagsDropsTag("/b", []);
    StripTagsKeepsPlainPrefix("Vela", "</b>");
    StripTagsDropsTag("b", "Vela</b>");
  }

  /** How "<b>Vela</b>" is put together from its tags and its text. */
  lemma BoldedPieces()
    ensures "<b>Vela</b>" == ['<'] + "b" + ['>'] + "Vela</b>"
    ensures "Vela</b>" == "Vela" + "</b>"
    ensures "</b>" == ['<'] + "/b" + ['>'] + []
    ensures "Vela" + [] == "Vela"
  {
  }

  /** `sanitizeInput`: trim first, then strip tags. */
  function Sanitize(s: string): (r: string)
    ensures |r| <= |s|
    ensures NoTag(r)
    ensures forall c | c in r :: c in s
  {
    var t := Trim(s);
    assert forall c | c in t :: c in s;
    StripTags(t)
  }

  /** Because the trim runs before the tags are removed, white space that a
      removed tag was hiding survives: the result is not always trimmed, and
      sanitizing again can change it. */
  lemma SanitizeLeavesInnerSpace()
    ensures Sanitize("a <>") == "a "
    ensures Sanitize("a ") == "a"
  {
    TrimExamples();
    assert StripTags("a <>") == "a " by {
      assert IndexFrom(" <>", '>', 1) == 2;
      assert StripTags(" <>") == " ";
    }
    StripTagsFixed("a");
  }

  lemma TrimExamples()
    ensures Trim("a <>") == "a <>"
    ensures Trim("a ") == "a"
    ensures Trim("ab") == "ab"
  {
    assert TrimStartIndex("a <>", 0) == 0;
    assert TrimEndIndex("a <>", 0, 4) == 4;
    assert TrimStartIndex("a ", 0) == 0;
    assert TrimEndIndex("a ", 0, 2) == 1;
    assert TrimStartIndex("ab", 0) == 0;
    assert TrimEndIndex("ab", 0, 2) == 2;
  }

  // ---------------------------------------------------------------------
  // Validation of the new-product form
  // ---------------------------------------------------------------------

  datatype NewProductForm = NewProductForm(code: string, name: string, categoryId: string)

  const EmptyForm := NewProductForm("", "", "")

  /** One optional message per form field; an absent field has no error. */
  datatype FormErrors = FormErrors(code: Option<string>, name: Option<string>, categoryId: Option<string>)

  const NoErrors := FormErrors(None, None, None)

  const CodeRequired := "El c\U{F3}digo es requerido"
  const CodeTooShort := "El c\U{F3}digo debe tener al menos 2 caracteres"
  const CodeTooLong := "El c\U{F3}digo no puede tener m\U{E1}s de 20 caracteres"
  const CodeExists := "Ya existe un producto con este c\U{F3}digo"
  const NameRequired := "El nombre es requerido"
  const NameTooShort := "El nombre debe tener al menos 3 caracteres"
  const NameTooLong := "El nombre no puede tener m\U{E1}s de 100 caracteres"
  const CategoryRequired := "Selecciona una categor\U{ED}a"

  /** Some loaded product has this code, ignoring case. */
  predicate CodeTaken(products: seq<Product>, code: string) {
    exists p | p in products :: Lower(p.code) == Lower(code)
  }

  /** The error for the code field: the first failing check of the cascade
      on the sanitized code. */
  function CodeError(products: seq<Product>, code: string): (e: Option<string>)
    ensures e.None? <==> 2 <= |Sanitize(code)| <= 20 && !CodeTaken(products, Sanitize(code))
    ensures e == Some(CodeExists) <==> 2 <= |Sanitize(code)| <= 20 && CodeTaken(products, Sanitize(code))
    ensures e == Some(CodeRequired) <==> Sanitize(code) == ""
    ensures e == Some(CodeTooShort) <==> |Sanitize(code)| == 1
    ensures e == Some(CodeTooLong) <==> |Sanitize(code)| > 20
  {
    var c := Sanitize(code);
    if c == "" then Some(CodeRequired)
    else if |c| < 2 then Some(CodeTooShort)
    else if |c| > 20 then Some(CodeTooLong)
    else if CodeTaken(products, c) then Some(CodeExists)
    else None
  }

  /** The error for the name field, on the sanitized name. */
  function NameError(name: string): (e: Option<string>)
    ensures e.None? <==> 3 <= |Sanitize(name)| <= 100
    ensures e == Some(NameRequired) <==> Sanitize(name) == ""
    ensures e == Some(NameTooShort) <==> 1 <= |Sanitize(name)| <= 2
    ensures e == Some(NameTooLong) <==> |Sanitize(name)| > 100
  {
    var n := Sanitize(name);
    if n == "" then Some(NameRequired)
    else if |n| < 3 then Some(NameTooShort)
    else if |n| > 100 then Some(NameTooLong)
    else None
  }

  /** The errors `validateProduct` records. The category id is checked as
      entered, without sanitizing. */
  function Validate(form: NewProductForm, products: seq<Product>): (errors: FormErrors)
    ensures errors == NoErrors <==>
      2 <= |Sanitize(form.code)| <= 20 && !CodeTaken(products, Sanitize(form.code)) &&
      3 <= |Sanitize(form.name)| <= 100 && form.categoryId != ""
    ensures errors.code == CodeError(products, form.code)
    ensures errors.name == NameError(form.name)
    ensures errors.categoryId.Some? <==> form.categoryId == ""
    ensures errors.categoryId.Some? ==> errors.categoryId.value == CategoryRequired
  {
    FormErrors(CodeError(products, form.code), NameError(form.name),
               if form.categoryId == "" then Some(CategoryRequired) else None)
  }

  /** The duplicate check ignores case: "ab" is taken once "AB" exists. */
  lemma DuplicateCodeIgnoresCase(p: Product)
    requires p.code == "AB"
    ensures CodeError([p], "ab") == Some(CodeExists)
  {
    assert Sanitize("ab") == "ab" by {
      TrimExamples();
      StripTagsFixed("ab");
    }
    LowerSameWord();
    assert p in [p];
  }

  /** Upper and lower case spell the same code. */
  lemma LowerSameWord()
    ensures Lower("AB") == Lower("ab")
  {
    assert Lower("AB")[0] == 'a' && Lower("AB")[1] == 'b';
    assert Lower("ab")[0] == 'a' && Lower("ab")[1] == 'b';
  }

  // ---------------------------------------------------------------------
  // Patches applied to the local product list
  // ---------------------------------------------------------------------

  /** The filter callback of the delete patch: `p => p.id !== id`. */
  function OtherId(id: string): Product -> bool {
    (p: Product) => p.id != id
  }

  /** `products.filter(p => p.id !== id)`. */
  function RemoveId(ps: seq<Product>, id: string): (r: seq<Product>)
    ensures IsSubsequence(r, ps)
    ensures forall p | p in r :: p.id != id
    ensures forall p | p in ps && p.id != id :: p in r
  {
    FilterBySubsequence(ps, OtherId(id));
    FilterBy(ps, OtherId(id))
  }

  /** Removing an id that no product has changes nothing. */
  lemma RemoveAbsentId(ps: seq<Product>, id: string)
    requires forall p | p in ps :: p.id != id
    ensures RemoveId(ps, id) == ps
  {
    FilterByAll(ps, OtherId(id));
  }

  /** Set `isBestseller` to `value` on the products with this id. */
  function SetBestseller(ps: seq<Product>, id: string, value: bool): (r: seq<Product>)
    ensures |r| == |ps|
    ensures forall i | 0 <= i < |ps| :: r[i].(isBestseller := ps[i].isBestseller) == ps[i]
    ensures forall i | 0 <= i < |ps| :: r[i].isBestseller == if ps[i].id == id then value else ps[i].isBestseller
  {
    seq(|ps|, i requires 0 <= i < |ps| =>
      if ps[i].id == id then ps[i].(isBestseller := value) else ps[i])
  }

  /** Toggling back restores the list, when the status passed to the first
      toggle was the product's real status. */
  lemma SetBestsellerRestores(ps: seq<Product>, id: string, current: bool)
    requires forall p | p in ps && p.id == id :: p.isBestseller == current
    ensures SetBestseller(SetBestseller(ps, id, !current), id, current) == ps
  {
    var r := SetBestseller(SetBestseller(ps, id, !current), id, current);
    forall i | 0 <= i < |ps| ensures r[i] == ps[i] {
      assert ps[i] in ps;
    }
  }

  /** Replace the seven subcategory slots of the products with this id. */
  function SetSubcategories(ps: seq<Product>, id: string, slots: Slots): (r: seq<Product>)
    ensures |r| == |ps|
    ensures forall i | 0 <= i < |ps| :: r[i].(subcategories := ps[i].subcategories) == ps[i]
    ensures forall i | 0 <= i < |ps| :: r[i].subcategories == if ps[i].id == id then slots else ps[i].subcategories
  {
    seq(|ps|, i requires 0 <= i < |ps| =>
      if ps[i].id == id then ps[i].(subcategories := slots) else ps[i])
  }

  /** Write `url` into image slot `k` of the products with this id. */
  function SetImage(ps: seq<Product>, id: string, k: nat, url: string): (r: seq<Product>)
    requires k < SlotCount
    ensures |r| == |ps|
    ensures forall i | 0 <= i < |ps| :: r[i].(images := ps[i].images) == ps[i]
    ensures forall i, j | 0 <= i < |ps| && 0 <= j < SlotCount ::
      r[i].images[j] == if ps[i].id == id && j == k then Some(url) else ps[i].images[j]
  {
    seq(|ps|, i requires 0 <= i < |ps| =>
      if ps[i].id == id then ps[i].(images := ps[i].images[k := Some(url)]) else ps[i])
  }

  /** `getImageUrl`: the URL in image slot `index`. */
  function GetImageUrl(p: Product, index: nat): (r: Option<string>)
    requires index < SlotCount
    ensures index == 0 ==> r == ProductGrid.Fallback(p).imageUrl
  {
    p.images[index]
  }

  /** After an upload into slot `k`, the editor shows the new URL there. */
  lemma UploadedImageShown(ps: seq<Product>, id: string, k: nat, url: string, i: nat)
    requires k < SlotCount && i < |ps| && ps[i].id == id
    ensures GetImageUrl(SetImage(ps, id, k, url)[i], k) == Some(url)
    ensures forall j | 0 <= j < SlotCount && j != k ::
      GetImageUrl(SetImage(ps, id, k, url)[i], j) == GetImageUrl(ps[i], j)
  {
  }

  // ---------------------------------------------------------------------
  // The subcategory editor's buffer
  // ---------------------------------------------------------------------

  /** The editor's seven text fields. */
  type Buffer = s: seq<string> | |s| == SlotCount witness ["", "", "", "", "", "", ""]

  const EmptyBuffer: Buffer := ["", "", "", "", "", "", ""]

  /** Loading slots into the editor: `value || ''`. */
  function Load(slots: Slots): (b: Buffer)
    ensures forall k | 0 <= k < SlotCount :: b[k] == "" <==> !Truthy(slots[k])
    ensures forall k | 0 <= k < SlotCount :: Truthy(slots[k]) ==> b[k] == slots[k].value
  {
    seq(SlotCount, k requires 0 <= k < SlotCount => slots[k].GetOr(""))
  }

  /** Saving the editor: `value || null`. */
  function Normalize(b: Buffer): (slots: Slots)
    ensures forall k | 0 <= k < SlotCount :: slots[k] == None <==> b[k] == ""
    ensures forall k | 0 <= k < SlotCount :: b[k] != "" ==> slots[k] == Some(b[k])
  {
    seq(SlotCount, k requires 0 <= k < SlotCount => if b[k] == "" then None else Some(b[k]))
  }

  /** Saving and reloading the editor gives back the same text. */
  lemma LoadNormalize(b: Buffer)
    ensures Load(Normalize(b)) == b
  {
  }

  /** Loading and saving unchanged gives back the slots, except that an
      empty label is stored as null. */
  lemma NormalizeLoad(slots: Slots)
    ensures forall k | 0 <= k < SlotCount ::
      Normalize(Load(slots))[k] == if Truthy(slots[k]) then slots[k] else None
  {
  }

  // ---------------------------------------------------------------------
  // `getSubcategoriesDisplay`
  // ---------------------------------------------------------------------

  /** The truthy slot labels in slot order: `[..].filter(Boolean)`. */
  function Labels(slots: seq<Option<string>>): (r: seq<string>)
    ensures |r| <= |slots|
    ensures forall x | x in r :: x != ""
  {
    if slots == [] then []
    else
      Labels(slots[..|slots| - 1]) +
      (if Truthy(slots[|slots| - 1]) then [slots[|slots| - 1].value] else [])
  }

  /** A text field holds a label: the `Boolean` filter on strings. */
  predicate Filled(x: string) {
    x != ""
  }

  /** After a save, the labels of the stored slots are the filled fields of
      the editor, in field order. */
  lemma SavedLabels(b: Buffer)
    ensures Labels(Normalize(b)) == FilterBy(b, Filled)
  {
    SavedLabelsPrefix(b, SlotCount);
    assert Normalize(b)[..SlotCount] == Normalize(b);
    assert b[..SlotCount] == b;
  }

  lemma {:induction false} SavedLabelsPrefix(b: Buffer, k: nat)
    requires k <= SlotCount
    ensures Labels(Normalize(b)[..k]) == FilterBy(b[..k], Filled)
  {
    if k > 0 {
      SavedLabelsPrefix(b, k - 1);
      SavedLabelsStep(b, k);
      FilledStep(b, k);
    }
  }

  lemma SavedLabelsStep(b: Buffer, k: nat)
    requires 0 < k <= SlotCount
    ensures Labels(Normalize(b)[..k]) ==
      Labels(Normalize(b)[..k - 1]) + (if b[k - 1] != "" then [b[k - 1]] else [])
  {
    var n := Normalize(b);
    assert n[..k][..k - 1] == n[..k - 1];
    assert n[..k][k - 1] == n[k - 1];
  }

  lemma FilledStep(b: Buffer, k: nat)
    requires 0 < k <= SlotCount
    ensures FilterBy(b[..k], Filled) == FilterBy(b[..k - 1], Filled) + (if b[k - 1] != "" then [b[k - 1]] else [])
  {
    assert b[..k] == b[..k - 1] + [b[k - 1]];
    FilterByConcat(b[..k - 1], [b[k - 1]], Filled);
    FilterBySingle(b[k - 1], Filled);
  }

  /** The editor's summary of a product lists exactly the labels the grid
      turns into variants, in the same order. */
  lemma {:induction false} LabelsAreGridVariants(p: Product, k: nat)
    requires k <= SlotCount
    ensures Labels(p.subcategories[..k]) == ProductGrid.VariantLabels(ProductGrid.SlotVariants(p, k))
  {
    if k > 0 {
      LabelsAreGridVariants(p, k - 1);
      assert p.subcategories[..k][..k - 1] == p.subcategories[..k - 1];
    }
  }

  const NoSubcategories := "Ninguna"

  /** `getSubcategoriesDisplay`: the labels joined by ", ", or "Ninguna". */
  function SubcategoriesDisplay(p: Product): (r: string)
    ensures Labels(p.subcategories) == [] ==> r == NoSubcategories
    ensures Labels(p.subcategories) != [] ==> r == Join(Labels(p.subcategories), ", ")
    ensures forall x | x in Labels(p.subcategories) :: Occurs(r, x)
    ensures Labels(p.subcategories) != [] ==> StartsWith(r, Labels(p.subcategories)[0])
  {
    var labels := Labels(p.subcategories);
    forall k | 0 <= k < |labels| ensures Occurs(Join(labels, ", "), labels[k]) {
      JoinContains(labels, ", ", k);
    }
    if |labels| > 0 then Join(labels, ", ") else NoSubcategories
  }

  /** The length of a non-empty display: the labels and one ", " between
      each two. */
  lemma DisplayLength(p: Product, labels: seq<string>)
    requires labels == Labels(p.subcategories) && labels != []
    ensures |SubcategoriesDisplay(p)| == TotalLength(labels) + 2 * (|labels| - 1)
  {
    assert |Join(labels, ", ")| == TotalLength(labels) + (|labels| - 1) * |", "|;
  }

  /** The layout of a non-empty display: label `k` at its offset and the
      separator ", " right after it. */
  lemma DisplayLayout(p: Product, labels: seq<string>, sep: string)
    requires labels == Labels(p.subcategories) && labels != [] && sep == ", "
    ensures forall k | 0 <= k < |labels| ::
      OccursAt(SubcategoriesDisplay(p), labels[k], JoinOffset(labels, sep, k))
    ensures forall k | 0 <= k < |labels| - 1 ::
      OccursAt(SubcategoriesDisplay(p), sep, JoinOffset(labels, sep, k) + |labels[k]|)
  {
    JoinElements(labels, sep);
    JoinSeparators(labels, sep);
  }

  /** The placeholder is not reserved: a product whose only label is
      "Ninguna" displays exactly what a product without labels does. */
  lemma DisplayPlaceholderAmbiguous(p: Product)
    requires Labels(p.subcategories) == [NoSubcategories]
    ensures SubcategoriesDisplay(p) == NoSubcategories
  {
  }

  /** The display lists the same labels the catalog shows as variants. */
  lemma DisplayMatchesGrid(p: Product)
    ensures Labels(p.subcategories) == ProductGrid.VariantLabels(ProductGrid.Variants(p))
  {
    LabelsAreGridVariants(p, SlotCount);
    assert p.subcategories[..SlotCount] == p.subcategories;
  }

  // ---------------------------------------------------------------------
  // The page state
  // ---------------------------------------------------------------------

  datatype MessageKind = Success | Failure

  /** The image slot an upload is writing: the source's `${id}-${index}`. */
  datatype UploadKey = UploadKey(productId: string, index: nat)

  class AdminPage {
    var products: seq<Product>
    var categories: seq<Category>
    var loading: bool
    var uploading: Option<UploadKey>
    var message: Option<MessageKind>
    var editing: Option<string>        // the product whose subcategories are open
    var buffer: Buffer                 // the editor's seven text fields
    var showAddProduct: bool
    var form: NewProductForm
    var deleting: Option<string>       // the product awaiting delete confirmation
    var formErrors: FormErrors

    constructor ()
      ensures products == [] && categories == [] && loading
      ensures uploading == None && message == None
      ensures editing == None && buffer == EmptyBuffer
      ensures !showAddProduct && form == EmptyForm && deleting == None && formErrors == NoErrors
    {
      products := [];
      categories := [];
      loading := true;
      uploading := None;
      message := None;
      editing := None;
      buffer := EmptyBuffer;
      showAddProduct := false;
      form := EmptyForm;
      deleting := None;
      formErrors := NoErrors;
    }

    /** The initial load: an error in either query leaves the lists as they
        were; otherwise they are the returned rows, absent counting as empty. */
    method LoadProducts(productsResult: Fetch<Product>, categoriesResult: Fetch<Category>)
      modifies this`products, this`categories, this`loading
      ensures !loading
      ensures productsResult.Failed? || categoriesResult.Failed? ==>
        products == old(products) && categories == old(categories)
      ensures productsResult.Rows? && categoriesResult.Rows? ==>
        products == productsResult.data.GetOr([]) && categories == categoriesResult.data.GetOr([])
    {
      if productsResult.Rows? && categoriesResult.Rows? {
        products := productsResult.data.GetOr([]);
        categories := categoriesResult.data.GetOr([]);
      }
      loading := false;
    }

    /** `handleImageUpload` for slot `index`, given whether the storage upload
        and the row update succeeded. A file that is not an image is turned
        away before anything starts. */
    method UploadImage(productId: string, fileType: string, index: nat,
                       uploadOk: bool, publicUrl: string, updateOk: bool)
      requires index < SlotCount
      modifies this`products, this`uploading, this`message
      ensures !StartsWith(fileType, "image/") ==>
        products == old(products) && uploading == old(uploading) && message == Some(Failure)
      ensures StartsWith(fileType, "image/") ==> uploading == None
      ensures StartsWith(fileType, "image/") && uploadOk && updateOk ==>
        products == SetImage(old(products), productId, index, publicUrl) && message == Some(Success)
      ensures StartsWith(fileType, "image/") && !(uploadOk && updateOk) ==>
        products == old(products) && message == Some(Failure)
    {
      if !StartsWith(fileType, "image/") {
        message := Some(Failure);
        return;
      }
      uploading := Some(UploadKey(productId, index));
      if uploadOk && updateOk {
        products := SetImage(products, productId, index, publicUrl);
        message := Some(Success);
      } else {
        message := Some(Failure);
      }
      uploading := None;
    }

    /** `validateProduct`: record the errors, report whether there are none. */
    method ValidateProduct() returns (valid: bool)
      modifies this`formErrors
      ensures formErrors == Validate(form, products)
      ensures valid <==> formErrors == NoErrors
    {
      formErrors := Validate(form, products);
      valid := formErrors == NoErrors;
    }

    /** `handleAddProduct`, given whether the insert succeeded and the row
        it returned. `request` is the insert sent to the backend, if any:
        the sanitized code and name with the category id as entered. */
    method AddProduct(insertOk: bool, inserted: Option<Product>) returns (request: Option<NewProductForm>)
      modifies this`products, this`showAddProduct, this`form, this`formErrors, this`message
      ensures formErrors == old(Validate(form, products))
      ensures request.Some? <==> formErrors == NoErrors
      ensures request.Some? ==>
        request.value == NewProductForm(Sanitize(old(form).code), Sanitize(old(form).name), old(form).categoryId)
      ensures formErrors != NoErrors ==>
        products == old(products) && form == old(form) &&
        showAddProduct == old(showAddProduct) && message == old(message)
      ensures formErrors == NoErrors && insertOk && inserted.Some? ==>
        products == old(products) + [inserted.value] && !showAddProduct &&
        form == EmptyForm && message == Some(Success)
      ensures formErrors == NoErrors && !insertOk ==>
        products == old(products) && form == old(form) &&
        showAddProduct == old(showAddProduct) && message == Some(Failure)
      ensures formErrors == NoErrors && insertOk && inserted.None? ==>
        products == old(products) && form == old(form) &&
        showAddProduct == old(showAddProduct) && message == old(message)
    {
      var valid := ValidateProduct();
      if !valid {
        return None;
      }
      request := Some(NewProductForm(Sanitize(form.code), Sanitize(form.name), form.categoryId));
      if !insertOk {
        message := Some(Failure);
        return;
      }
      if inserted.Some? {
        products := products + [inserted.value];
        showAddProduct := false;
        form := EmptyForm;
        formErrors := NoErrors;
        message := Some(Success);
      }
    }

    /** Typing in the code field clears its error. */
    method EditFormCode(value: string)
      modifies this`form, this`formErrors
      ensures form == old(form).(code := value)
      ensures formErrors == old(formErrors).(code := None)
    {
      form := form.(code := value);
      if formErrors.code.Some? {
        formErrors := formErrors.(code := None);
      }
    }

    /** Typing in the name field clears its error. */
    method EditFormName(value: string)
      modifies this`form, this`formErrors
      ensures form == old(form).(name := value)
      ensures formErrors == old(formErrors).(name := None)
    {
      form := form.(name := value);
      if formErrors.name.Some? {
        formErrors := formErrors.(name := None);
      }
    }

    /** Choosing a category clears its error. */
    method EditFormCategory(value: string)
      modifies this`form, this`formErrors
      ensures form == old(form).(categoryId := value)
      ensures formErrors == old(formErrors).(categoryId := None)
    {
      form := form.(categoryId := value);
      if formErrors.categoryId.Some? {
        formErrors := formErrors.(categoryId := None);
      }
    }

    /** The "add product" button opens the dialog. */
    method OpenAddProduct()
      modifies this`showAddProduct
      ensures showAddProduct
    {
      showAddProduct := true;
    }

    /** Closing the add-product dialog discards its contents. */
    method CloseAddProduct()
      modifies this`showAddProduct, this`form, this`formErrors
      ensures !showAddProduct && form == EmptyForm && formErrors == NoErrors
    {
      showAddProduct := false;
      form := EmptyForm;
      formErrors := NoErrors;
    }

    /** `handleDeleteProduct`, given whether the backend delete succeeded. */
    method DeleteProduct(id: string, ok: bool)
      modifies this`products, this`deleting, this`message
      ensures ok ==> products == RemoveId(old(products), id) && deleting == None && message == Some(Success)
      ensures !ok ==> products == old(products) && deleting == old(deleting) && message == Some(Failure)
    {
      if ok {
        products := RemoveId(products, id);
        deleting := None;
        message := Some(Success);
      } else {
        message := Some(Failure);
      }
    }

    /** The delete button asks for confirmation of this product. */
    method AskDelete(id: string)
      modifies this`deleting
      ensures deleting == Some(id)
    {
      deleting := Some(id);
    }

    /** The confirmation's cancel button. */
    method CancelDelete()
      modifies this`deleting
      ensures deleting == None
    {
      deleting := None;
    }

    /** The file input of image slot `index` of this product is disabled
        while that slot's upload runs. */
    predicate UploadDisabled(productId: string, index: nat)
      reads this
    {
      uploading == Some(UploadKey(productId, index))
    }

    /** `toggleBestseller`: the new status is the negation of the status the
        row showed when clicked. */
    method ToggleBestseller(id: string, currentStatus: bool, ok: bool)
      modifies this`products, this`message
      ensures ok ==> products == SetBestseller(old(products), id, !currentStatus) && message == Some(Success)
      ensures !ok ==> products == old(products) && message == Some(Failure)
    {
      if ok {
        products := SetBestseller(products, id, !currentStatus);
        message := Some(Success);
      } else {
        message := Some(Failure);
      }
    }

    /** `startEditingSubcategories`: open the editor on this product, its
        slots loaded into the buffer. Any other open editor closes, as
        there is a single editing id. */
    method StartEditing(p: Product)
      modifies this`editing, this`buffer
      ensures editing == Some(p.id)
      ensures buffer == Load(p.subcategories)
    {
      editing := Some(p.id);
      buffer := Load(p.subcategories);
    }

    /** Typing in text field `index` of the editor. */
    method EditSlot(index: nat, value: string)
      requires index < SlotCount
      modifies this`buffer
      ensures buffer == old(buffer)[index := value]
    {
      buffer := buffer[index := value];
    }

    /** The editor's cancel button: back to viewing; the buffer is kept. */
    method CancelEditing()
      modifies this`editing
      ensures editing == None
    {
      editing := None;
    }

    /** `handleUpdateSubcategories`, given whether the backend update
        succeeded: the buffer, with empty fields as null, becomes the
        product's slots, and the editor closes and clears. */
    method UpdateSubcategories(id: string, ok: bool)
      modifies this`products, this`editing, this`buffer, this`message
      ensures ok ==>
        products == SetSubcategories(old(products), id, Normalize(old(buffer))) &&
        editing == None && buffer == EmptyBuffer && message == Some(Success)
      ensures !ok ==>
        products == old(products) && editing == old(editing) && buffer == old(buffer) &&
        message == Some(Failure)
    {
      if ok {
        products := SetSubcategories(products, id, Normalize(buffer));
        editing := None;
        buffer := EmptyBuffer;
        message := Some(Success);
      } else {
        message := Some(Failure);
      }
    }
  }
}
