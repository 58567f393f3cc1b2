# Candle catalog: a verified model of its core

The catalog is a React single-page application over a hosted database.
Visitors browse candle products by category and by a free-text search. The
product grid merges all rows sharing a product name into one card. Each
labelled subcategory slot of a row becomes a selectable variant with its own
image. Bestseller cards come first, then cards in name order. An
administration page validates and adds products. It also deletes products,
toggles their bestseller flag, uploads images into seven slots and edits
seven subcategory labels per product. Clicking the header logo ten times in
quick succession opens the administrator login.

This Dafny project models that core:

- `types.dfy` (module `Types`): the data types. A product's seven image
  columns and seven subcategory columns are a length-7 `Slots` sequence
  each. Nullable strings are `Option<string>`, and JavaScript truthiness
  and `||` are written out.
- `js_string.dfy` (module `JsString`): the string built-ins the core uses:
  - `toLowerCase`, `includes`, `startsWith` and `join`;
  - `trim`, with the ECMAScript white-space set;
  - `localeCompare`, as a code-point lexicographic order, proved to be a
    strict total order.
- `lists.dfy` (module `Lists`): `Array.prototype.filter`, with the
  subsequence relation it establishes.
- `product_grid.dfy` (module `ProductGrid`): the `reduce` that groups
  products by name and the comparator sort. `Reduce` and `ReduceStep` are
  imperative methods with the component's loops. `GroupProducts` combines
  them with the sort. They are proved against `GroupOf`, a reference
  description of each group, and against the sort order. The file also models the reduce exactly as written (see
  Findings).
- `catalog.dfy` (module `Catalog`): the catalog page.
  - Pure parts: the filter predicate, the per-category counts and the
    heading name.
  - `CatalogPage`, a class with the page's state: loading, first-category
    auto-selection and the two input callbacks.
- `admin_panel.dfy` (module `AdminPanel`): the administration page.
  - Pure parts:
    - `sanitizeInput`, written as trim followed by the global `<[^>]*>`
      replacement;
    - form validation;
    - the local patches of the product list;
    - the subcategory summary;
    - `getImageUrl`;
    - the editor's seven-field buffer.
  - `AdminPage`, a class with the page's state and one method per handler.
- `product_card.dfy` (module `ProductCard`): the image a card shows, its
  variant buttons, and `Card`, a class with the card's selection and
  image-loading flags.
- `catalog_header.dfy` (module `CatalogHeader`): the logo click counter as a
  state machine over `Click` and `Timeout` events, and `Header`, a class
  with the counter.

Backend calls (database queries, storage upload) are not modelled as calls.
Their outcomes are parameters of the methods that await them: a `Fetch`
value, or an `ok` flag and the returned row or URL. `optimizeImageUrl`
(`src/lib/supabase.ts:9-13`) returns its argument unchanged. The model
therefore uses the raw URL everywhere.

## Model

| member | source | states |
|---|---|---|
| Types.OrElse | src/components/ProductCard.tsx:29-31 | JavaScript `a \|\| b` on nullable strings: `a` when it is present and non-empty, otherwise `b` |
| JsString.LowerChar | src/pages/AdminPanel.tsx:110 | the character case mapping changes only upper-case ASCII and Latin-1 capitals |
| JsString.Lower | src/pages/Catalog.tsx:48-49 | `toLowerCase` keeps the length and maps every character through `LowerChar` |
| JsString.LowerIdempotent | src/pages/AdminPanel.tsx:110 | lower-casing twice equals lower-casing once, so comparing lower-cased codes is stable |
| JsString.IncludesIff | src/pages/Catalog.tsx:48-49 | `includes` holds exactly when the needle occurs at some position of the haystack (both directions) |
| JsString.OccursAtShift | src/pages/Catalog.tsx:48-49 | dropping the first character of the haystack moves each occurrence one position left |
| JsString.IncludesEmpty | src/pages/Catalog.tsx:48-49 | every string includes the empty string |
| JsString.TrimStartIndex | src/pages/AdminPanel.tsx:95 | the first non-white-space position: everything before it is white space |
| JsString.TrimEndIndex | src/pages/AdminPanel.tsx:95 | the end of the last non-white-space run: everything after it is white space |
| JsString.Trim | src/pages/AdminPanel.tsx:95 | `trim` yields a contiguous slice that starts and ends with non-white-space and has only white space around it |
| JsString.Join | src/pages/AdminPanel.tsx:275 | `join` of no elements is empty; otherwise it starts with the first element, is that element alone for a one-element list, and is as long as the elements plus one separator between each two |
| JsString.JoinOffset | src/pages/AdminPanel.tsx:275 | element `k` starts after the `k` elements before it and `k` separators |
| JsString.JoinContains | src/pages/AdminPanel.tsx:275 | every joined element occurs in the joined string at its offset |
| JsString.JoinSeparator | src/pages/AdminPanel.tsx:275 | right after element `k` stands the separator, and element `k + 1` starts right after that |
| JsString.JoinElements | src/pages/AdminPanel.tsx:275 | every element sits at its offset in the joined string |
| JsString.JoinSeparators | src/pages/AdminPanel.tsx:275 | every element but the last is followed by the separator |
| JsString.LocaleCompare | src/components/ProductGrid.tsx:76 | `localeCompare` is negative exactly when the first name is smaller and zero exactly on equal names |
| JsString.LessIrreflexive | src/components/ProductGrid.tsx:76 | no name sorts before itself |
| JsString.LessTransitive | src/components/ProductGrid.tsx:76 | the name order is transitive |
| JsString.LessTotal | src/components/ProductGrid.tsx:76 | of two distinct names one sorts before the other |
| JsString.LessAsymmetric | src/components/ProductGrid.tsx:76 | two names never sort before each other |
| Lists.FilterBy | src/pages/Catalog.tsx:46 | `filter` keeps exactly the elements satisfying the predicate, each as many times as it occurs in the input, and drops every other |
| Lists.FilterBySubsequence | src/pages/Catalog.tsx:46 | `filter` keeps the relative order of the kept elements |
| Lists.FilterByAgree | src/pages/Catalog.tsx:46-63 | two predicates that agree on every element filter the list identically |
| Lists.FilterByAll | src/pages/AdminPanel.tsx:173 | a filter that keeps every element returns the list unchanged |
| Lists.FilterByConcat | src/pages/Catalog.tsx:46 | filtering a concatenation is the concatenation of the filtered parts |
| Lists.FilterBySingle | src/pages/Catalog.tsx:46 | filtering one element keeps it exactly when the predicate holds |
| Lists.SubsequenceMember | src/components/ProductCard.tsx:35-37 | whatever a subsequence holds, the sequence holds |
| ProductGrid.SlotVariants | src/components/ProductGrid.tsx:52-60 | the variants from the first `k` slots come from this product and carry non-empty labels, at most one per slot |
| ProductGrid.SlotVariantsPosition | src/components/ProductGrid.tsx:32-60 | one variant per labelled slot, in slot order; the variant of slot `m` carries slot `m`'s label and slot `m`'s image, even a null image |
| ProductGrid.SlotVariantsCount | src/components/ProductGrid.tsx:52-60 | the number of variants is the number of labelled slots |
| ProductGrid.VariantLabels | src/components/ProductCard.tsx:35-36 | the labels of a list of variants, one per variant, in order |
| ProductGrid.NameSetSnoc | src/components/ProductGrid.tsx:19-22 | the names present grow by the name of the product appended |
| ProductGrid.Step | src/components/ProductGrid.tsx:20-70 | definition, no contract: the reduce callback, opening a group for a new name, appending the slot variants, then the fallback when the group has none; tied to `GroupOf` by `StepKeepsGroupOf` |
| ProductGrid.Accumulate | src/components/ProductGrid.tsx:19-71 | definition, no contract: the reduce over the list from `{}`; `AccumulateIsGroupOf` states what it computes |
| ProductGrid.NameSetMember | src/components/ProductGrid.tsx:19-22 | a name is present exactly when some product carries it |
| ProductGrid.WithName | src/components/ProductGrid.tsx:19-30 | the products collected for a name are products of the list with that name, every such product is among them, and there are some exactly when the name is present |
| ProductGrid.WithNameIsFilter | src/components/ProductGrid.tsx:19-30 | the products collected for a name are the list filtered on that name: in input order, each with its multiplicity |
| ProductGrid.Concat | src/components/ProductGrid.tsx:52-60 | every collected variant comes from one of the products and has a label |
| ProductGrid.ConcatOwnVariants | src/components/ProductGrid.tsx:52-60 | every collected variant is one of the slot variants of its own product |
| ProductGrid.NoLabelNoVariants | src/components/ProductGrid.tsx:52-60 | a product with no labelled slot contributes no slot variant |
| ProductGrid.LaterUnlabelledProductHidden | src/components/ProductGrid.tsx:62-68 | a product with no labelled slot that is not the first of its name gets no variant in its group |
| ProductGrid.GroupOf | src/components/ProductGrid.tsx:19-68 | the reference group for a name is headed by that name |
| ProductGrid.ConcatCoversFirst | src/components/ProductGrid.tsx:52-68 | a group has at least as many collected variants as its first product has slot variants |
| ProductGrid.GroupOfNonEmpty | src/components/ProductGrid.tsx:62-68 | every group has at least one variant |
| ProductGrid.GroupOfVariants | src/components/ProductGrid.tsx:52-68 | every variant of a group comes from an input product of that name; an empty label (the fallback) can only be the first variant |
| ProductGrid.GroupOfFirstProduct | src/components/ProductGrid.tsx:22-30 | the code, bestseller flag and main image of a group come from the first product in input order carrying the name |
| ProductGrid.WithNameHead | src/components/ProductGrid.tsx:22-30 | the first product sharing a name is the first such product of the input |
| ProductGrid.AccumulateSnoc | src/components/ProductGrid.tsx:19-71 | the reduce over a list with one product appended is one more callback step |
| ProductGrid.WithNameSnoc | src/components/ProductGrid.tsx:19-30 | appending a product adds it to the products of its own name only |
| ProductGrid.ConcatSnoc | src/components/ProductGrid.tsx:52-60 | appending a product appends its slot variants |
| ProductGrid.StepOnKnownName | src/components/ProductGrid.tsx:22-60 | on a name that already has a group, the callback appends the slot variants and changes nothing else |
| ProductGrid.StepOnNewName | src/components/ProductGrid.tsx:22-68 | on a new name, the callback opens one group seeded from this product, with the fallback variant when no slot is labelled |
| ProductGrid.GroupVariantsSnoc | src/components/ProductGrid.tsx:52-68 | one more product of a group adds exactly its slot variants |
| ProductGrid.GroupOfSnocKnown | src/components/ProductGrid.tsx:22-60 | the reference group of a present name gains exactly the new product's slot variants |
| ProductGrid.GroupOfSnocNew | src/components/ProductGrid.tsx:22-68 | the reference group of a new name is the group opened from this product |
| ProductGrid.GroupVariantsSingle | src/components/ProductGrid.tsx:52-68 | a one-product group holds that product's slot variants, or only the fallback when it has none |
| ProductGrid.GroupOfSnocOther | src/components/ProductGrid.tsx:19-71 | the groups of other names are untouched by the new product |
| ProductGrid.StepKeepsGroupOf | src/components/ProductGrid.tsx:19-71 | one callback step keeps every group equal to its reference description |
| ProductGrid.NamesSnoc | src/components/ProductGrid.tsx:19-30 | the key order gains a product's name exactly when it is new |
| ProductGrid.StepKeys | src/components/ProductGrid.tsx:22-30 | the callback adds the name to the keys, and to the key order only when it is new |
| ProductGrid.AccumulateSnocIsGroupOf | src/components/ProductGrid.tsx:19-71 | one more product keeps the keys, the key order and every group equal to their description |
| ProductGrid.AccumulateIsGroupOf | src/components/ProductGrid.tsx:19-71 | after the reduce, the keys are the input's names in order of first occurrence and each group equals `GroupOf` |
| ProductGrid.NamesDistinct | src/components/ProductGrid.tsx:19-30 | the key order lists every name of the input exactly once |
| ProductGrid.CompareFlip | src/components/ProductGrid.tsx:73-77 | the comparator is antisymmetric: if it puts `a` after `b` it puts `b` before `a` |
| ProductGrid.CompareTransitive | src/components/ProductGrid.tsx:73-77 | the comparator's order is transitive, so the sort is well defined |
| ProductGrid.Compare | src/components/ProductGrid.tsx:73-77 | definition, no contract: the sort comparator, bestsellers first and then `localeCompare` of the names; `CompareFlip` and `CompareTransitive` state its order |
| ProductGrid.Insert | src/components/ProductGrid.tsx:73 | inserting a group adds exactly that group to the multiset |
| ProductGrid.InsertMembers | src/components/ProductGrid.tsx:73 | an insertion holds only the inserted group and the old ones |
| ProductGrid.InsertSorted | src/components/ProductGrid.tsx:73-77 | inserting into a sorted list keeps it sorted |
| ProductGrid.InsertNames | src/components/ProductGrid.tsx:73 | inserting adds exactly the inserted group's name to the names |
| ProductGrid.ConsNames | src/components/ProductGrid.tsx:73 | the names of a list with a group put in front are that group's name plus the list's names |
| ProductGrid.ConsDistinct | src/components/ProductGrid.tsx:73 | a group with a new name put in front of a list with distinct names keeps them distinct |
| ProductGrid.InsertDistinct | src/components/ProductGrid.tsx:73 | inserting a group under a name not yet present into a list with distinct names keeps the names distinct |
| ProductGrid.DistinctTail | src/components/ProductGrid.tsx:73 | the tail of a list with distinct names has distinct names and lacks the head's name |
| ProductGrid.SortGroups | src/components/ProductGrid.tsx:73-77 | the sort yields a permutation of the groups in comparator order |
| ProductGrid.SortGroupsNames | src/components/ProductGrid.tsx:73-77 | sorting keeps the set of names and keeps distinct names distinct |
| ProductGrid.SortedGroupsOrder | src/components/ProductGrid.tsx:73-77 | in the sorted list every bestseller card precedes every other card, and cards of equal status are in strictly ascending name order |
| ProductGrid.Values | src/components/ProductGrid.tsx:73 | `Object.values` lists one group per key, in key order |
| ProductGrid.ValuesOfAccumulate | src/components/ProductGrid.tsx:19-73 | the values after the reduce are one group per input name, each equal to `GroupOf` |
| ProductGrid.ValuesOfKeyed | src/components/ProductGrid.tsx:73 | values of an accumulator whose order lists each key once have distinct names covering the keys |
| ProductGrid.ValuesNames | src/components/ProductGrid.tsx:73 | the names of the values are exactly the keys |
| ProductGrid.SortedValues | src/components/ProductGrid.tsx:73-77 | sorting the values keeps every group's description and produces the comparator order |
| ProductGrid.ReduceStep | src/components/ProductGrid.tsx:19-70 | the callback body, with its loop over the seven slots, updates the accumulator exactly as one `Step` of the reduce |
| ProductGrid.Reduce | src/components/ProductGrid.tsx:19-71 | the reduce loop leaves the accumulator the reduce specification gives for the whole list |
| ProductGrid.GroupedResult | src/components/ProductGrid.tsx:19-77 | the sorted values of the reduce are one group per distinct name, each equal to its reference group, bestsellers first and names ascending; they are empty only for an empty list |
| ProductGrid.GroupProducts | src/components/ProductGrid.tsx:19-77 | the grouping loop and sort return one card per distinct product name, each equal to its reference group, bestsellers first, names ascending, and no card for an empty list |
| ProductGrid.Render | src/components/ProductGrid.tsx:9-108 | an empty list shows only the "no products" message; otherwise the cards are one per distinct name, each the group of that name's products with at least one variant, bestsellers first and then in name order |
| ProductGrid.StepAsWritten | src/components/ProductGrid.tsx:20-70 | definition, no contract: the callback as written, failing for a new name that `{}` answers through its prototype |
| ProductGrid.AccumulateAsWritten | src/components/ProductGrid.tsx:19-71 | definition, no contract: the reduce as written, failing once any step fails |
| ProductGrid.AsWrittenAgrees | src/components/ProductGrid.tsx:19-71 | the reduce as written equals the model's reduce when no product name is an inherited object member |
| ProductGrid.AsWrittenThrowsOnInheritedName | src/components/ProductGrid.tsx:22-54 | a single product named after an inherited member (`toString`, `constructor`, ...) makes the reduce as written throw |
| Catalog.MatchesSearch | src/pages/Catalog.tsx:47-49 | definition, no contract: the search test on the lower-cased code and name; `MatchesSearchIff` states its meaning |
| Catalog.MatchesSearchIff | src/pages/Catalog.tsx:47-51 | an empty search term matches everything; otherwise a product matches exactly when the term, ignoring case, occurs in its code or its name |
| Catalog.InCategory | src/pages/Catalog.tsx:53-62 | definition, no contract: the selection test; `FilterWithoutSelection`, `FilterBestsellerSelection` and `FilterOrdinarySelection` state its cases |
| Catalog.CategoryCount | src/pages/Catalog.tsx:74-78 | definition, no contract: the count for one category; `ProductCountsMatchFilter` ties it to the filtered list |
| Catalog.FindCategory | src/pages/Catalog.tsx:57 | `find` returns nothing exactly when no category has the id, and otherwise the first category with it |
| Catalog.FilterProducts | src/pages/Catalog.tsx:45-64 | the shown list keeps the input order and holds a product exactly when it matches the search and the category rule |
| Catalog.FilterWithoutSelection | src/pages/Catalog.tsx:53-55 | with no selected category, the list is exactly the search matches |
| Catalog.FilterBestsellerSelection | src/pages/Catalog.tsx:57-60 | a selected id naming the bestseller pseudo-category shows the bestseller matches of every category |
| Catalog.FilterOrdinarySelection | src/pages/Catalog.tsx:57-62 | any other selected id, even one no category has, shows the matches filed under that id |
| Catalog.ProductCounts | src/pages/Catalog.tsx:72-81 | the counts have one entry per category id, and the last category's entry is its count |
| Catalog.ProductCountsLastWins | src/pages/Catalog.tsx:72-81 | for a repeated id, the entry is the count of the last category carrying it |
| Catalog.ProductCountsMatchFilter | src/pages/Catalog.tsx:45-81 | with distinct ids, the count next to a category is the length of the list shown when it is selected and the search box is empty |
| Catalog.SelectedCategoryName | src/pages/Catalog.tsx:66-70 | the heading name is present exactly for a truthy selection whose first matching category (the one `find` returns) has a non-empty name, and it is that category's name |
| Catalog.CatalogPage.constructor | src/pages/Catalog.tsx:10-14 | the page starts empty, with nothing selected, an empty search and loading |
| Catalog.CatalogPage.Filtered | src/pages/Catalog.tsx:45-64 | the grid receives a subsequence of the loaded products |
| Catalog.CatalogPage.Counts | src/pages/Catalog.tsx:72-81 | the counts are keyed by the loaded category ids |
| Catalog.CatalogPage.AutoSelectFirst | src/pages/Catalog.tsx:20-24 | the first category is selected when categories exist and nothing is selected; otherwise the selection is kept |
| Catalog.CatalogPage.LoadData | src/pages/Catalog.tsx:16-43 | an error leaves the lists and selection unchanged; otherwise the lists are the returned rows, null counting as empty, and the auto-selection runs; loading ends either way |
| Catalog.CatalogPage.SelectCategory | src/pages/Catalog.tsx:87-89 | selecting sets the selection and leaves the counts unchanged |
| Catalog.CatalogPage.SetSearchTerm | src/pages/Catalog.tsx:83-85 | typing sets the term and leaves the counts unchanged |
| AdminPanel.IndexFrom | src/pages/AdminPanel.tsx:95 | the first position at or after `i` holding the character, or the end |
| AdminPanel.StripTags | src/pages/AdminPanel.tsx:95 | the global tag replacement never lengthens the text, keeps only characters of the input, and leaves nothing the pattern matches |
| AdminPanel.StripTagsFixed | src/pages/AdminPanel.tsx:95 | text containing no tag is left unchanged |
| AdminPanel.StripTagsIdempotent | src/pages/AdminPanel.tsx:95 | stripping tags twice equals stripping once |
| AdminPanel.StripTagsKeepsPlainPrefix | src/pages/AdminPanel.tsx:95 | text before the first `<` is kept unchanged and in place |
| AdminPanel.StripTagsDropsTag | src/pages/AdminPanel.tsx:95 | a `<`, any text without `>`, and the next `>` are removed together, and nothing else is |
| AdminPanel.StripTagsKeepsUnclosed | src/pages/AdminPanel.tsx:95 | text with no `>` at all, an unclosed `<` included, is kept unchanged |
| AdminPanel.Sanitize | src/pages/AdminPanel.tsx:94-96 | `sanitizeInput` never lengthens its input, keeps only its characters, and leaves no tag |
| AdminPanel.SanitizeExample | src/pages/AdminPanel.tsx:94-96 | example: `"<b>Vela</b>"` sanitizes to `"Vela"` |
| AdminPanel.TrimBolded | src/pages/AdminPanel.tsx:95 | example: trimming leaves `"<b>Vela</b>"` as it is |
| AdminPanel.StripBolded | src/pages/AdminPanel.tsx:95 | example: stripping tags from `"<b>Vela</b>"` leaves `"Vela"` |
| AdminPanel.SanitizeLeavesInnerSpace | src/pages/AdminPanel.tsx:94-96 | trimming before stripping lets white space hidden by a tag survive (`"a <>"` gives `"a "`), so sanitizing is not idempotent |
| AdminPanel.TrimExamples | src/pages/AdminPanel.tsx:95 | example: `trim` on three sample inputs |
| AdminPanel.CodeTaken | src/pages/AdminPanel.tsx:110 | definition, no contract: some product has the code, ignoring case; `DuplicateCodeIgnoresCase` is an example |
| AdminPanel.CodeError | src/pages/AdminPanel.tsx:101-112 | the code is accepted exactly when the sanitized code has 2 to 20 characters and no product has it ignoring case; "required" exactly when it sanitizes to empty; "too short" exactly when it sanitizes to one character; "too long" exactly when it sanitizes to more than 20; "exists" exactly when the length is fine but the code is taken |
| AdminPanel.NameError | src/pages/AdminPanel.tsx:114-120 | the name is accepted exactly when the sanitized name has 3 to 100 characters; "required" exactly when it sanitizes to empty; "too short" exactly for 1 or 2 characters; "too long" exactly for more than 100 |
| AdminPanel.Validate | src/pages/AdminPanel.tsx:98-128 | the form has no errors exactly when the code and name checks pass and a category is chosen; the code and name fields carry their own field's error, whatever the other fields hold; the category error is "select a category" exactly when none is chosen |
| AdminPanel.DuplicateCodeIgnoresCase | src/pages/AdminPanel.tsx:110-111 | example: the code "ab" is rejected as existing once a product has code "AB" |
| AdminPanel.LowerSameWord | src/pages/AdminPanel.tsx:110 | example: "AB" and "ab" lower-case to the same string |
| AdminPanel.RemoveId | src/pages/AdminPanel.tsx:173 | deleting keeps the order and exactly the products with another id |
| AdminPanel.RemoveAbsentId | src/pages/AdminPanel.tsx:173 | deleting an id no product has changes nothing |
| AdminPanel.SetBestseller | src/pages/AdminPanel.tsx:191-193 | the bestseller patch changes only the flag, and only on products with the id |
| AdminPanel.SetBestsellerRestores | src/pages/AdminPanel.tsx:182-193 | toggling twice from the real status restores the list |
| AdminPanel.SetSubcategories | src/pages/AdminPanel.tsx:219-230 | the subcategory patch replaces only the seven labels, and only on products with the id |
| AdminPanel.SetImage | src/pages/AdminPanel.tsx:73-83 | the upload patch writes the URL into exactly one image slot of the products with the id |
| AdminPanel.GetImageUrl | src/pages/AdminPanel.tsx:278-289 | slot 0 is the primary image, the one the grid's fallback variant uses |
| AdminPanel.UploadedImageShown | src/pages/AdminPanel.tsx:73-83 | after an upload into slot `k`, the editor shows the new URL in slot `k` and the other slots unchanged |
| AdminPanel.Load | src/pages/AdminPanel.tsx:243-251 | a buffer field is empty exactly when its label is null or empty, and otherwise holds the stored label |
| AdminPanel.Normalize | src/pages/AdminPanel.tsx:207-213 | a label is saved as null exactly when its field is empty, and otherwise as the field's text |
| AdminPanel.SavedLabels | src/pages/AdminPanel.tsx:207-213 | after a save the stored labels, as the summary and the grid read them, are the filled fields in field order |
| AdminPanel.SavedLabelsPrefix | src/pages/AdminPanel.tsx:207-213 | the same for the first `k` fields |
| AdminPanel.SavedLabelsStep | src/pages/AdminPanel.tsx:207-213 | one more saved field adds its text to the stored labels exactly when it is filled |
| AdminPanel.FilledStep | src/pages/AdminPanel.tsx:207-213 | one more field adds its text to the filled fields exactly when it is filled |
| AdminPanel.LoadNormalize | src/pages/AdminPanel.tsx:207-251 | saving and reopening the editor gives back the same seven fields |
| AdminPanel.NormalizeLoad | src/pages/AdminPanel.tsx:207-251 | opening and saving unchanged gives back the labels, with an empty label turned into null |
| AdminPanel.Labels | src/pages/AdminPanel.tsx:265-273 | `filter(Boolean)` on the labels keeps only non-empty labels, no more than there are slots |
| AdminPanel.LabelsAreGridVariants | src/pages/AdminPanel.tsx:265-273 | the labels kept from the first `k` slots are the names of the grid's variants from those slots |
| AdminPanel.SubcategoriesDisplay | src/pages/AdminPanel.tsx:264-276 | the summary is "Ninguna" when no label is set; otherwise it is the labels joined by ", ", so every label occurs in it and it starts with the first label |
| AdminPanel.DisplayLength | src/pages/AdminPanel.tsx:275 | a non-empty summary is as long as its labels plus two characters between each two |
| AdminPanel.DisplayLayout | src/pages/AdminPanel.tsx:275 | in a non-empty summary each label sits at its offset and each but the last is followed by ", " |
| AdminPanel.DisplayPlaceholderAmbiguous | src/pages/AdminPanel.tsx:275 | a product whose only label is "Ninguna" shows the same summary as a product with no label |
| AdminPanel.DisplayMatchesGrid | src/pages/AdminPanel.tsx:264-276 | the labels summarised are exactly the variant names the catalog shows for the product, in the same order |
| AdminPanel.AdminPage.constructor | src/pages/AdminPanel.tsx:11-22 | the page starts with empty lists, loading, no editor open, an empty buffer and an empty form |
| AdminPanel.AdminPage.LoadProducts | src/pages/AdminPanel.tsx:32-49 | an error leaves the lists unchanged; otherwise they are the returned rows, null counting as empty; loading ends |
| AdminPanel.AdminPage.UploadDisabled | src/pages/AdminPanel.tsx:451 | definition, no contract: a slot's file input is disabled exactly while that slot's upload runs |
| AdminPanel.AdminPage.UploadImage | src/pages/AdminPanel.tsx:51-92 | a non-image file is refused with nothing else changed; otherwise a successful upload patches the slot, a failure leaves the list, and the uploading mark clears |
| AdminPanel.AdminPage.ValidateProduct | src/pages/AdminPanel.tsx:98-128 | the recorded errors are `Validate` of the form, and the result is true exactly when there are none |
| AdminPanel.AdminPage.AddProduct | src/pages/AdminPanel.tsx:130-162 | an invalid form changes nothing but the errors; a valid one sends the sanitized code and name; a returned row is appended and the dialog closes and clears; a failure, or a success without a row, keeps the form and leaves the dialog as it was |
| AdminPanel.AdminPage.EditFormCode | src/pages/AdminPanel.tsx:555-558 | typing a code sets it and clears only the code error |
| AdminPanel.AdminPage.EditFormName | src/pages/AdminPanel.tsx:577-580 | typing a name sets it and clears only the name error |
| AdminPanel.AdminPage.EditFormCategory | src/pages/AdminPanel.tsx:598-601 | choosing a category sets it and clears only the category error |
| AdminPanel.AdminPage.OpenAddProduct | src/pages/AdminPanel.tsx:355 | the add button opens the dialog |
| AdminPanel.AdminPage.CloseAddProduct | src/pages/AdminPanel.tsx:536-540 | closing the dialog discards the form and its errors |
| AdminPanel.AdminPage.DeleteProduct | src/pages/AdminPanel.tsx:164-180 | a successful delete removes the id's products and ends the confirmation; a failure changes neither |
| AdminPanel.AdminPage.AskDelete | src/pages/AdminPanel.tsx:513 | the delete button asks to confirm this product |
| AdminPanel.AdminPage.CancelDelete | src/pages/AdminPanel.tsx:505 | cancelling drops the pending confirmation |
| AdminPanel.AdminPage.ToggleBestseller | src/pages/AdminPanel.tsx:182-200 | success sets the flag to the negation of the status passed; failure leaves the list |
| AdminPanel.AdminPage.StartEditing | src/pages/AdminPanel.tsx:241-252 | the editor opens on this product with its labels loaded into the buffer |
| AdminPanel.AdminPage.EditSlot | src/pages/AdminPanel.tsx:412-416 | typing changes exactly one buffer field |
| AdminPanel.AdminPage.CancelEditing | src/pages/AdminPanel.tsx:466 | cancel closes the editor |
| AdminPanel.AdminPage.UpdateSubcategories | src/pages/AdminPanel.tsx:202-239 | success stores the buffer, empty fields as null, into the id's products, then closes and clears the editor; failure changes none of them |
| ProductCard.CurrentImageRaw | src/components/ProductCard.tsx:29-31 | the main selection shows `mainImage`, or the product image when it is not truthy; a selected variant with a truthy URL shows that URL; anything else shows the product image |
| ProductCard.VariantNames | src/components/ProductCard.tsx:35-37 | the non-empty variant names, in order, each as many times as the variants carry it |
| ProductCard.Pressed | src/components/ProductCard.tsx:123 | definition, no contract: a button is highlighted exactly when it stands for the current selection |
| ProductCard.VariantButtons | src/components/ProductCard.tsx:117-118 | one button per variant with a non-empty name, in index order |
| ProductCard.Buttons | src/components/ProductCard.tsx:96-118 | "Principal" appears exactly when some variant is named and the main image is truthy; a variant button appears exactly for each named variant; "Principal" never appears alone; "Principal" comes first, and the variant buttons follow in index order |
| ProductCard.PrincipalFirst | src/components/ProductCard.tsx:103-118 | putting "Principal" before the variant buttons keeps their order and adds only "Principal" |
| ProductCard.SomeVariantButton | src/components/ProductCard.tsx:96-118 | when some variant is named, some variant button exists |
| ProductCard.SectionShownIff | src/components/ProductCard.tsx:96 | the variants section is shown exactly when some variant has a name |
| ProductCard.GroupCardButtons | src/components/ProductCard.tsx:117-118 | on a grid card every variant after the first has a button; only the fallback variant can lack one |
| ProductCard.Card.constructor | src/components/ProductCard.tsx:24-27 | a card starts on the main image with no load finished or failed |
| ProductCard.Card.ClickVariant | src/components/ProductCard.tsx:39-43 | selecting a variant resets the image flags, highlights exactly that button, and shows its URL when truthy, otherwise the product image |
| ProductCard.Card.ClickMain | src/components/ProductCard.tsx:45-49 | back to the main image: flags reset, exactly "Principal" highlighted |
| ProductCard.Card.ImageLoaded | src/components/ProductCard.tsx:70 | a finished load sets only the loaded flag |
| ProductCard.Card.ImageFailed | src/components/ProductCard.tsx:71-74 | a failed load shows the placeholder instead of the picture |
| CatalogHeader.Step | src/components/CatalogHeader.tsx:8-24 | the counter stays below ten; a timeout resets it; a click adds one to ten times the navigations plus the counter |
| CatalogHeader.ClickRun | src/components/CatalogHeader.tsx:22-24 | `n` clicks in a row |
| CatalogHeader.RunStaysBelow | src/components/CatalogHeader.tsx:8-13 | after any events the counter is below ten |
| CatalogHeader.RunAccounting | src/components/CatalogHeader.tsx:8-24 | each navigation costs ten clicks: ten times the navigations plus the counter grows by at most one per click, and by exactly one when no timeout fires |
| CatalogHeader.ClicksFromStart | src/components/CatalogHeader.tsx:6-24 | from the start, `n` uninterrupted clicks navigate `n / 10` times and leave `n % 10` |
| CatalogHeader.ClicksOfClickRun | src/components/CatalogHeader.tsx:22-24 | `n` clicks in a row are `n` clicks |
| CatalogHeader.TimeoutClears | src/components/CatalogHeader.tsx:15-20 | a timeout after any history clears the counter |
| CatalogHeader.Header.constructor | src/components/CatalogHeader.tsx:6 | the counter starts at zero with no timer |
| CatalogHeader.Header.LogoClick | src/components/CatalogHeader.tsx:8-24 | a click is one `Step` with `Click`, and keeps the counter below ten |
| CatalogHeader.Header.TimerFires | src/components/CatalogHeader.tsx:15-20 | the timer is one `Step` with `Timeout`; the counter is zero and no timer runs afterwards |

## Left out

- Backend I/O: database queries, the storage upload and `getPublicUrl` are
  not modelled. Their outcomes (`Fetch`, `ok` flags, the returned row and
  URL) are method parameters. Each handler is atomic, so the interleaving
  of concurrent awaits is not modelled.
- AdminPanel.AdminPage.UploadImage: the storage file name
  (`Date.now()` and the file extension) is not modelled. Only its outcome
  is. The mark of the running upload exists only during the await, so
  after the method it is always clear.
- AdminPanel.AdminPage.UploadImage: an upload started while another runs
  overwrites the single `uploading` mark. The list patch also reads the
  `products` captured when the upload began (a stale closure in React).
  Neither is modelled; the method patches the current list.
- AdminPanel.AdminPage.AddProduct: `data` is an array, and an empty array
  is truthy in JavaScript, so the source would append `undefined`. The
  model takes the returned row as an `Option<Product>` and leaves that case
  out.
- Messages: the texts of the success and error banners are reduced to
  `Success`/`Failure`. Their dismissal after three seconds is not modelled.
- CatalogHeader.Step: the three-second timer is the abstract `Timeout`
  event. Its rearming on every click is not modelled. The navigation is
  counted rather than performed, and folded into the click that reaches
  ten, because the effect runs before any further event.
- JsString.Lower: Unicode case mapping is limited to ASCII and the
  Latin-1 capitals. Other scripts and multi-character mappings are not
  covered.
- JsString.LocaleCompare: locale collation is modelled as code-point
  lexicographic order, so accents and case do not sort as a browser would.
- String lengths are counted in characters, not UTF-16 code units. The
  length limits differ only for characters outside the basic plane.
- ProductGrid.Values: `Object.values` lists integer-like keys first, in
  numeric order. The model lists keys in first-assignment order. Product
  names that are canonical array indices would therefore order differently
  before the sort. The sort puts groups in the same order either way,
  because names are distinct.
- ProductGrid.SortGroups: `Array.prototype.sort` is modelled as an
  insertion sort. With distinct names the comparator is a strict total
  order, so any correct sort gives the same result.
- AdminPanel.GetImageUrl: callers pass only slot indices 0 to 6, so the
  index is required to be below seven. Out-of-range access to the literal
  array is not modelled.
- Authentication: the redirect to the login page when no user is signed
  in, sign-in and sign-out are not part of this model. The login page and
  the authentication context are not part of this model either. The tab
  switch between products and categories is not modelled. Neither is the
  rest of the rendering (JSX, styling, spinners).
- The search bar and category filter components only forward values to
  the callbacks modelled in `Catalog.CatalogPage`.

## Findings

| source | as written | input that shows it | evidently intended | confidence | as-written member | corrected member |
|---|---|---|---|---|---|---|
| src/components/ProductGrid.tsx:19-71 | the accumulator is `{}`, so `!acc[mainName]` reads inherited `Object.prototype` members and the next `acc[mainName].variants` access throws a TypeError: `.push` when a slot is labelled, `.length` when none is | one product named `toString` (or `constructor`, `valueOf`, ...) | every product name gets its own group, as for any other name | not executed | ProductGrid.AsWrittenThrowsOnInheritedName | ProductGrid.GroupProducts |

The grouping keeps variants only for labelled subcategory slots. When the
first product of a name has no subcategory label, it contributes just the
fallback variant with its primary image, and its images in slots 2 to 7 do
not appear on the card. A later product of the same name with no label
contributes nothing at all, because its group already has a variant by
then (`ProductGrid.LaterUnlabelledProductHidden`). The card for such a name
never shows that product. The model follows the code here.

The "Ninguna" placeholder is not reserved: a product whose only label is
the word "Ninguna" gets the same summary as a product without labels
(`AdminPanel.DisplayPlaceholderAmbiguous`). The model follows the code.

The upload handler keeps a single `uploading` mark for the whole page, not
one per slot. The model follows the code here too.
