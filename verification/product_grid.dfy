/** The product grid (src/components/ProductGrid.tsx): the filtered product
    list is folded into one display group per product name, each group
    collecting one variant per labelled subcategory slot, and the groups are
    sorted bestsellers first, then by name. */
module ProductGrid {
  import opened Types
  import opened JsString
  import opened Lists

  // ---------------------------------------------------------------------
  // Variants contributed by one product
  // ---------------------------------------------------------------------

  /** The variants a product contributes from its first `k` slots: one per
      truthy subcategory label, in slot order, paired with the image of the
      same slot (an absent image is kept, not dropped). */
  function SlotVariants(p: Product, k: nat): (vs: seq<ProductVariant>)
    requires k <= SlotCount
    ensures |vs| <= k
    ensures forall v | v in vs :: v.product == p && v.variantName != ""
  {
    if k == 0 then []
    else
      SlotVariants(p, k - 1) +
      (if Truthy(p.subcategories[k - 1])
       then [ProductVariant(p, p.subcategories[k - 1].value, p.images[k - 1])]
       else [])
  }

  /** All variants a product contributes from its seven slots. */
  function Variants(p: Product): seq<ProductVariant> {
    SlotVariants(p, |p.subcategories|)
  }

  /** The variant pushed when a group would otherwise have none: an empty
      label and the product's primary image. */
  function Fallback(p: Product): ProductVariant {
    ProductVariant(p, "", p.images[0])
  }

  /** `variants.map(v => v.variantName)`: the labels of a list of variants,
      one per variant, in order. */
  function VariantLabels(vs: seq<ProductVariant>): (r: seq<string>)
    ensures |r| == |vs|
    ensures forall i | 0 <= i < |vs| :: r[i] == vs[i].variantName
  {
    seq(|vs|, i requires 0 <= i < |vs| => vs[i].variantName)
  }

  /** Number of truthy subcategory labels among the first `k` slots. */
  function TruthyBefore(p: Product, k: nat): nat
    requires k <= SlotCount
  {
    if k == 0 then 0
    else TruthyBefore(p, k - 1) + (if Truthy(p.subcategories[k - 1]) then 1 else 0)
  }

  /** A product yields exactly one variant per labelled slot, and the variant
      for slot `m` sits after those of the labelled slots before it, carrying
      slot `m`'s label and slot `m`'s image. */
  lemma {:induction false} SlotVariantsPosition(p: Product, k: nat, m: nat)
    requires m < k <= SlotCount
    requires Truthy(p.subcategories[m])
    ensures |SlotVariants(p, k)| == TruthyBefore(p, k)
    ensures TruthyBefore(p, m) < TruthyBefore(p, k)
    ensures SlotVariants(p, k)[TruthyBefore(p, m)] ==
      ProductVariant(p, p.subcategories[m].value, p.images[m])
  {
    SlotVariantsCount(p, k);
    if m < k - 1 {
      SlotVariantsPosition(p, k - 1, m);
      SlotVariantsCount(p, k - 1);
    } else {
      SlotVariantsCount(p, m);
    }
  }

  lemma {:induction false} SlotVariantsCount(p: Product, k: nat)
    requires k <= SlotCount
    ensures |SlotVariants(p, k)| == TruthyBefore(p, k)
  {
    if k > 0 {
      SlotVariantsCount(p, k - 1);
    }
  }

  // ---------------------------------------------------------------------
  // The reduce, step by step
  // ---------------------------------------------------------------------

  /** The reduce accumulator: a JavaScript object keyed by product name.
      `order` is the order in which its keys were first assigned. */
  datatype Acc = Acc(groups: map<string, ProductGroup>, order: seq<string>)

  /** The group created on the first occurrence of a name. */
  function Open(p: Product): ProductGroup {
    ProductGroup(p.name, p.code, p.isBestseller, p.images[0], [])
  }

  /** One call of the reduce callback on `p`: open the group if the name is
      new, append the slot variants, then the fallback if still empty. */
  function Step(acc: Acc, p: Product): Acc {
    var seeded :=
      if p.name in acc.groups then acc
      else Acc(acc.groups[p.name := Open(p)], acc.order + [p.name]);
    var g := seeded.groups[p.name];
    var vs := g.variants + Variants(p);
    Acc(seeded.groups[p.name := g.(variants := if vs == [] then [Fallback(p)] else vs)],
        seeded.order)
  }

  /** The accumulator after the reduce has consumed `ps`. */
  function Accumulate(ps: seq<Product>): Acc
  {
    if ps == [] then Acc(map[], [])
    else Step(Accumulate(ps[..|ps| - 1]), ps[|ps| - 1])
  }

  // ---------------------------------------------------------------------
  // Reference definition of a group
  // ---------------------------------------------------------------------

  /** The names present in `ps`. */
  function NameSet(ps: seq<Product>): set<string> {
    if ps == [] then {} else NameSet(ps[..|ps| - 1]) + {ps[|ps| - 1].name}
  }

  lemma NameSetSnoc(ps: seq<Product>, p: Product)
    ensures NameSet(ps + [p]) == NameSet(ps) + {p.name}
  {
    assert (ps + [p])[..|ps|] == ps;
  }

  /** A name is in `NameSet(ps)` exactly when some product of `ps` has it. */
  lemma {:induction false} NameSetMember(ps: seq<Product>, n: string)
    ensures n in NameSet(ps) <==> exists i :: 0 <= i < |ps| && ps[i].name == n
  {
    if ps != [] {
      var pre := ps[..|ps| - 1];
      NameSetMember(pre, n);
      if exists i :: 0 <= i < |ps| && ps[i].name == n {
        var i :| 0 <= i < |ps| && ps[i].name == n;
        if i < |pre| {
          assert pre[i].name == n;
        }
      }
    }
  }

  /** The products of `ps` named `n`, in input order. */
  function WithName(ps: seq<Product>, n: string): (r: seq<Product>)
    ensures forall q | q in r :: q.name == n && q in ps
    ensures r != [] <==> n in NameSet(ps)
    ensures forall q | q in ps && q.name == n :: q in r
  {
    if ps == [] then []
    else
      var pre := ps[..|ps| - 1];
      var last := ps[|ps| - 1];
      assert ps == pre + [last];
      NameSetSnoc(pre, last);
      WithName(pre, n) + (if last.name == n then [last] else [])
  }

  /** The filter callback selecting one name. */
  function HasName(n: string): Product -> bool {
    (q: Product) => q.name == n
  }

  /** The products of a name are `ps.filter(q => q.name === n)`: in input
      order, each as often as it occurs. */
  lemma {:induction false} WithNameIsFilter(ps: seq<Product>, n: string)
    ensures WithName(ps, n) == FilterBy(ps, HasName(n))
    ensures IsSubsequence(WithName(ps, n), ps)
    ensures forall q | q in ps :: multiset(WithName(ps, n))[q] == if q.name == n then multiset(ps)[q] else 0
  {
    if ps != [] {
      var pre := ps[..|ps| - 1];
      var last := ps[|ps| - 1];
      assert ps == pre + [last];
      WithNameIsFilter(pre, n);
      FilterByConcat(pre, [last], HasName(n));
      assert FilterBy([last], HasName(n)) == if last.name == n then [last] else [];
    }
    FilterBySubsequence(ps, HasName(n));
  }

  /** The slot variants of every product of `qs`, one product after the other. */
  function Concat(qs: seq<Product>): (vs: seq<ProductVariant>)
    ensures forall v | v in vs :: v.product in qs && v.variantName != ""
  {
    if qs == [] then []
    else
      var pre := qs[..|qs| - 1];
      assert qs == pre + [qs[|qs| - 1]];
      Concat(pre) + Variants(qs[|qs| - 1])
  }

  /** The variants of a group whose products are `w`, in input order: the
      slot variants of each, preceded by one fallback exactly when the first
      product has no labelled slot. */
  function GroupVariants(w: seq<Product>): seq<ProductVariant>
    requires w != []
  {
    (if Variants(w[0]) == [] then [Fallback(w[0])] else []) + Concat(w)
  }

  /** The group the grid shows for name `n`, described directly: header
      fields from the first product named `n`, variants from all of them. */
  function GroupOf(ps: seq<Product>, n: string): (g: ProductGroup)
    requires n in NameSet(ps)
    ensures g.mainName == n
  {
    var w := WithName(ps, n);
    ProductGroup(n, w[0].code, w[0].isBestseller, w[0].images[0], GroupVariants(w))
  }

  /** Every collected variant is one of its own product's slot variants. */
  lemma {:induction false} ConcatOwnVariants(qs: seq<Product>)
    ensures forall v | v in Concat(qs) :: v in Variants(v.product)
  {
    if qs != [] {
      var pre := qs[..|qs| - 1];
      ConcatOwnVariants(pre);
      forall v | v in Variants(qs[|qs| - 1]) ensures v.product == qs[|qs| - 1] {
      }
    }
  }

  /** A product with no labelled slot contributes no slot variant. */
  lemma {:induction false} NoLabelNoVariants(p: Product, k: nat)
    requires k <= SlotCount
    requires forall m | 0 <= m < k :: !Truthy(p.subcategories[m])
    ensures SlotVariants(p, k) == []
  {
    if k > 0 {
      NoLabelNoVariants(p, k - 1);
    }
  }

  /** Only the first product of a name can stand in through the fallback:
      a later product of the same name with no labelled slot gets no
      variant in its group, so nothing of it (its images included) is
      shown. */
  lemma LaterUnlabelledProductHidden(ps: seq<Product>, n: string, q: Product)
    requires n in NameSet(ps)
    requires q in ps && q.name == n && q != WithName(ps, n)[0]
    requires forall m | 0 <= m < SlotCount :: !Truthy(q.subcategories[m])
    ensures q in WithName(ps, n)
    ensures forall v | v in GroupOf(ps, n).variants :: v.product != q
  {
    NoLabelNoVariants(q, SlotCount);
    ConcatOwnVariants(WithName(ps, n));
  }

  /** Distinct names of `ps` in order of first occurrence. */
  function Names(ps: seq<Product>): seq<string>
  {
    if ps == [] then []
    else
      var pre := ps[..|ps| - 1];
      var n := ps[|ps| - 1].name;
      if n in NameSet(pre) then Names(pre) else Names(pre) + [n]
  }

  lemma {:induction false} ConcatCoversFirst(qs: seq<Product>)
    requires qs != []
    ensures |Concat(qs)| >= |Variants(qs[0])|
  {
    var pre := qs[..|qs| - 1];
    if pre != [] {
      ConcatCoversFirst(pre);
      assert pre[0] == qs[0];
    }
  }

  /** Every group has at least one variant. */
  lemma GroupOfNonEmpty(ps: seq<Product>, n: string)
    requires n in NameSet(ps)
    ensures |GroupOf(ps, n).variants| >= 1
  {
    ConcatCoversFirst(WithName(ps, n));
  }

  /** Variant provenance: every variant of the group for `n` comes from an
      input product named `n`; an empty label occurs only as the fallback,
      which can only be the first variant. */
  lemma GroupOfVariants(ps: seq<Product>, n: string)
    requires n in NameSet(ps)
    ensures forall v | v in GroupOf(ps, n).variants :: v.product in ps && v.product.name == n
    ensures forall i | 0 < i < |GroupOf(ps, n).variants| ::
      GroupOf(ps, n).variants[i].variantName != ""
  {
    var w := WithName(ps, n);
    var first := w[0];
    var vs := GroupOf(ps, n).variants;
    var pre := if Variants(first) == [] then [Fallback(first)] else [];
    assert vs == pre + Concat(w);
    forall i | 0 < i < |vs| ensures vs[i].variantName != "" {
      assert vs[i] in Concat(w);
    }
  }

  /** The header fields of a group come from the first product, in input
      order, that carries the group's name. */
  lemma {:induction false} GroupOfFirstProduct(ps: seq<Product>, n: string, i: nat)
    requires i < |ps| && ps[i].name == n
    requires forall j :: 0 <= j < i ==> ps[j].name != n
    ensures n in NameSet(ps)
    ensures GroupOf(ps, n).code == ps[i].code
    ensures GroupOf(ps, n).isBestseller == ps[i].isBestseller
    ensures GroupOf(ps, n).mainImage == ps[i].images[0]
  {
    WithNameHead(ps, n, i);
  }

  lemma {:induction false} WithNameHead(ps: seq<Product>, n: string, i: nat)
    requires i < |ps| && ps[i].name == n
    requires forall j :: 0 <= j < i ==> ps[j].name != n
    ensures WithName(ps, n) != [] && WithName(ps, n)[0] == ps[i]
  {
    var pre := ps[..|ps| - 1];
    if i < |pre| {
      WithNameHead(pre, n, i);
    } else {
      NameSetMember(pre, n);
    }
  }

  lemma AccumulateSnoc(pre: seq<Product>, p: Product)
    ensures Accumulate(pre + [p]) == Step(Accumulate(pre), p)
  {
    assert (pre + [p])[..|pre|] == pre;
  }

  lemma WithNameSnoc(pre: seq<Product>, p: Product, n: string)
    ensures WithName(pre + [p], n) == WithName(pre, n) + (if p.name == n then [p] else [])
  {
    assert (pre + [p])[..|pre|] == pre;
  }

  lemma ConcatSnoc(w: seq<Product>, p: Product)
    ensures Concat(w + [p]) == Concat(w) + Variants(p)
  {
    assert (w + [p])[..|w|] == w;
  }

  /** The callback on a product whose name already has a group: the slot
      variants are appended and nothing else changes. */
  lemma StepOnKnownName(acc: Acc, p: Product)
    requires p.name in acc.groups && acc.groups[p.name].variants != []
    ensures Step(acc, p).order == acc.order
    ensures Step(acc, p).groups ==
      acc.groups[p.name := acc.groups[p.name].(variants := acc.groups[p.name].variants + Variants(p))]
  {
  }

  /** The callback on a product whose name is new: one group opened, seeded
      from this product. */
  lemma StepOnNewName(acc: Acc, p: Product)
    requires p.name !in acc.groups
    ensures Step(acc, p).order == acc.order + [p.name]
    ensures Step(acc, p).groups ==
      acc.groups[p.name := Open(p).(variants := if Variants(p) == [] then [Fallback(p)] else Variants(p))]
  {
    assert [] + Variants(p) == Variants(p);
  }

  lemma GroupVariantsSnoc(w: seq<Product>, p: Product)
    requires w != []
    ensures GroupVariants(w + [p]) == GroupVariants(w) + Variants(p)
  {
    assert (w + [p])[0] == w[0];
    ConcatSnoc(w, p);
    var A, B, C := (if Variants(w[0]) == [] then [Fallback(w[0])] else []), Concat(w), Variants(p);
    assert A + (B + C) == (A + B) + C;
  }

  /** The reference group for a name already present gains exactly the slot
      variants of one more product with that name. */
  lemma GroupOfSnocKnown(pre: seq<Product>, p: Product)
    requires p.name in NameSet(pre)
    ensures p.name in NameSet(pre + [p])
    ensures GroupOf(pre + [p], p.name) ==
      GroupOf(pre, p.name).(variants := GroupOf(pre, p.name).variants + Variants(p))
  {
    var n := p.name;
    NameSetSnoc(pre, p);
    var w := WithName(pre, n);
    assert WithName(pre + [p], n) == w + [p] by {
      WithNameSnoc(pre, p, n);
    }
    GroupVariantsSnoc(w, p);
  }

  /** The reference group for a name seen for the first time. */
  lemma GroupOfSnocNew(pre: seq<Product>, p: Product)
    requires p.name !in NameSet(pre)
    ensures p.name in NameSet(pre + [p])
    ensures GroupOf(pre + [p], p.name) ==
      Open(p).(variants := if Variants(p) == [] then [Fallback(p)] else Variants(p))
  {
    NameSetSnoc(pre, p);
    assert WithName(pre + [p], p.name) == [p] by {
      WithNameSnoc(pre, p, p.name);
      assert WithName(pre, p.name) == [];
    }
    GroupVariantsSingle(p);
  }

  /** The variants of a group with a single product. */
  lemma GroupVariantsSingle(p: Product)
    ensures GroupVariants([p]) == if Variants(p) == [] then [Fallback(p)] else Variants(p)
  {
    assert Concat([p]) == Variants(p) by {
      ConcatSnoc([], p);
      assert [] + [p] == [p];
    }
  }

  lemma GroupOfSnocOther(pre: seq<Product>, p: Product, n: string)
    requires n in NameSet(pre) && n != p.name
    ensures n in NameSet(pre + [p])
    ensures GroupOf(pre + [p], n) == GroupOf(pre, n)
  {
    NameSetSnoc(pre, p);
    WithNameSnoc(pre, p, n);
    assert WithName(pre + [p], n) == WithName(pre, n);
  }

  /** The reduce callback keeps every group equal to its reference
      description when one more product is consumed. */
  lemma StepKeepsGroupOf(acc: Acc, pre: seq<Product>, p: Product, n: string)
    requires acc.groups.Keys == NameSet(pre)
    requires n in NameSet(pre) ==> acc.groups[n] == GroupOf(pre, n)
    requires p.name in NameSet(pre) ==> acc.groups[p.name] == GroupOf(pre, p.name)
    requires n in NameSet(pre + [p])
    ensures Step(acc, p).groups[n] == GroupOf(pre + [p], n)
  {
    NameSetSnoc(pre, p);
    if p.name in NameSet(pre) {
      GroupOfNonEmpty(pre, p.name);
      StepOnKnownName(acc, p);
      if n == p.name {
        GroupOfSnocKnown(pre, p);
      } else {
        GroupOfSnocOther(pre, p, n);
      }
    } else {
      StepOnNewName(acc, p);
      if n == p.name {
        GroupOfSnocNew(pre, p);
      } else {
        GroupOfSnocOther(pre, p, n);
      }
    }
  }

  lemma NamesSnoc(pre: seq<Product>, p: Product)
    ensures Names(pre + [p]) == if p.name in NameSet(pre) then Names(pre) else Names(pre) + [p.name]
  {
    assert (pre + [p])[..|pre|] == pre;
  }

  /** The callback adds the product's name to the keys, and to the key
      order exactly when it is new. */
  lemma StepKeys(acc: Acc, p: Product)
    ensures Step(acc, p).groups.Keys == acc.groups.Keys + {p.name}
    ensures Step(acc, p).order == if p.name in acc.groups then acc.order else acc.order + [p.name]
  {
  }

  /** One more product keeps the accumulator equal to its description. */
  lemma AccumulateSnocIsGroupOf(pre: seq<Product>, p: Product)
    requires Accumulate(pre).groups.Keys == NameSet(pre)
    requires Accumulate(pre).order == Names(pre)
    requires forall n | n in NameSet(pre) :: Accumulate(pre).groups[n] == GroupOf(pre, n)
    ensures Accumulate(pre + [p]).groups.Keys == NameSet(pre + [p])
    ensures Accumulate(pre + [p]).order == Names(pre + [p])
    ensures forall n | n in NameSet(pre + [p]) :: Accumulate(pre + [p]).groups[n] == GroupOf(pre + [p], n)
  {
    var acc := Accumulate(pre);
    var next := Step(acc, p);
    assert Accumulate(pre + [p]) == next by {
      AccumulateSnoc(pre, p);
    }
    assert next.groups.Keys == NameSet(pre + [p]) && next.order == Names(pre + [p]) by {
      StepKeys(acc, p);
      NameSetSnoc(pre, p);
      NamesSnoc(pre, p);
    }
    forall n | n in NameSet(pre + [p])
      ensures next.groups[n] == GroupOf(pre + [p], n)
    {
      StepKeepsGroupOf(acc, pre, p, n);
    }
  }

  /** The step function agrees with the reference description: after the
      reduce has consumed `ps`, the keys are the names of `ps` in order of
      first occurrence and the group under each name is `GroupOf(ps, n)`. */
  lemma {:induction false} AccumulateIsGroupOf(ps: seq<Product>)
    ensures Accumulate(ps).groups.Keys == NameSet(ps)
    ensures Accumulate(ps).order == Names(ps)
    ensures forall n | n in NameSet(ps) :: Accumulate(ps).groups[n] == GroupOf(ps, n)
  {
    if ps != [] {
      var pre := ps[..|ps| - 1];
      assert ps == pre + [ps[|ps| - 1]];
      AccumulateIsGroupOf(pre);
      AccumulateSnocIsGroupOf(pre, ps[|ps| - 1]);
    }
  }

  lemma {:induction false} NamesDistinct(ps: seq<Product>)
    ensures forall i, j | 0 <= i < j < |Names(ps)| :: Names(ps)[i] != Names(ps)[j]
    ensures forall k | 0 <= k < |Names(ps)| :: Names(ps)[k] in NameSet(ps)
    ensures forall n | n in NameSet(ps) :: n in Names(ps)
  {
    if ps != [] {
      var pre := ps[..|ps| - 1];
      var p := ps[|ps| - 1];
      assert ps == pre + [p];
      NamesDistinct(pre);
      NameSetSnoc(pre, p);
    }
  }

  // ---------------------------------------------------------------------
  // The sort
  // ---------------------------------------------------------------------

  /** The comparator passed to `sort`: bestsellers first, then `localeCompare`
      on the names. */
  function Compare(a: ProductGroup, b: ProductGroup): int {
    if a.isBestseller && !b.isBestseller then -1
    else if !a.isBestseller && b.isBestseller then 1
    else LocaleCompare(a.mainName, b.mainName)
  }

  lemma CompareFlip(a: ProductGroup, b: ProductGroup)
    requires Compare(a, b) > 0
    ensures Compare(b, a) < 0
  {
    if a.isBestseller == b.isBestseller {
      LessTotal(a.mainName, b.mainName);
    }
  }

  lemma CompareTransitive(a: ProductGroup, b: ProductGroup, c: ProductGroup)
    requires Compare(a, b) <= 0 && Compare(b, c) <= 0
    ensures Compare(a, c) <= 0
  {
    if a.isBestseller == b.isBestseller == c.isBestseller
       && Less(a.mainName, b.mainName) && Less(b.mainName, c.mainName) {
      LessTransitive(a.mainName, b.mainName, c.mainName);
    }
  }

  /** `gs` is in the comparator's order. */
  predicate SortedGroups(gs: seq<ProductGroup>) {
    forall i, j | 0 <= i < j < |gs| :: Compare(gs[i], gs[j]) <= 0
  }

  /** No name heads two groups. */
  predicate DistinctNames(gs: seq<ProductGroup>) {
    forall i, j | 0 <= i < j < |gs| :: gs[i].mainName != gs[j].mainName
  }

  function GroupNames(gs: seq<ProductGroup>): set<string> {
    set g | g in gs :: g.mainName
  }

  /** Insert `g` into the sorted sequence `s` before the first element it
      does not follow. */
  function Insert(g: ProductGroup, s: seq<ProductGroup>): (r: seq<ProductGroup>)
    ensures multiset(r) == multiset(s) + multiset{g}
    ensures |r| == |s| + 1
  {
    if s == [] then [g]
    else if Compare(g, s[0]) <= 0 then [g] + s
    else
      assert s == [s[0]] + s[1..];
      [s[0]] + Insert(g, s[1..])
  }

  lemma InsertMembers(g: ProductGroup, s: seq<ProductGroup>)
    ensures forall x | x in Insert(g, s) :: x == g || x in s
  {
    forall x | x in Insert(g, s) ensures x == g || x in s {
      assert x in multiset(Insert(g, s));
    }
  }

  lemma {:induction false} InsertSorted(g: ProductGroup, s: seq<ProductGroup>)
    requires SortedGroups(s)
    ensures SortedGroups(Insert(g, s))
  {
    if s == [] {
    } else if Compare(g, s[0]) <= 0 {
      forall j | 0 <= j < |s| ensures Compare(g, s[j]) <= 0 {
        if j > 0 {
          CompareTransitive(g, s[0], s[j]);
        }
      }
    } else {
      CompareFlip(g, s[0]);
      var rest := Insert(g, s[1..]);
      InsertSorted(g, s[1..]);
      InsertMembers(g, s[1..]);
      forall x | x in rest ensures Compare(s[0], x) <= 0 {
        if x != g {
          var j :| 0 <= j < |s[1..]| && s[1..][j] == x;
          assert s[j + 1] == x;
        }
      }
    }
  }

  /** The names of a list with one group put in front. */
  lemma ConsNames(x: ProductGroup, t: seq<ProductGroup>)
    ensures GroupNames([x] + t) == {x.mainName} + GroupNames(t)
  {
    assert forall y | y in [x] + t :: y == x || y in t;
    assert forall y | y in t :: y in [x] + t;
  }

  /** A group put in front of a list with distinct names, under a name the
      list lacks, keeps the names distinct. */
  lemma ConsDistinct(x: ProductGroup, t: seq<ProductGroup>)
    requires DistinctNames(t) && x.mainName !in GroupNames(t)
    ensures DistinctNames([x] + t)
  {
    var r := [x] + t;
    forall i, j | 0 <= i < j < |r| ensures r[i].mainName != r[j].mainName {
      assert r[j] == t[j - 1];
      if i == 0 {
        assert t[j - 1] in t;
      } else {
        assert r[i] == t[i - 1];
      }
    }
  }

  lemma {:induction false} InsertNames(g: ProductGroup, s: seq<ProductGroup>)
    ensures GroupNames(Insert(g, s)) == GroupNames(s) + {g.mainName}
  {
    if s == [] {
      ConsNames(g, s);
    } else {
      assert s == [s[0]] + s[1..];
      ConsNames(s[0], s[1..]);
      if Compare(g, s[0]) <= 0 {
        ConsNames(g, s);
      } else {
        InsertNames(g, s[1..]);
        ConsNames(s[0], Insert(g, s[1..]));
      }
    }
  }

  /** Inserting a group under a name not yet present keeps names distinct. */
  lemma {:induction false} InsertDistinct(g: ProductGroup, s: seq<ProductGroup>)
    requires DistinctNames(s) && g.mainName !in GroupNames(s)
    ensures DistinctNames(Insert(g, s))
  {
    if s == [] || Compare(g, s[0]) <= 0 {
      ConsDistinct(g, s);
    } else {
      assert s == [s[0]] + s[1..];
      ConsNames(s[0], s[1..]);
      DistinctTail(s);
      InsertDistinct(g, s[1..]);
      InsertNames(g, s[1..]);
      ConsDistinct(s[0], Insert(g, s[1..]));
    }
  }

  lemma DistinctTail(gs: seq<ProductGroup>)
    requires gs != []
    ensures DistinctNames(gs) ==> DistinctNames(gs[1..]) && gs[0].mainName !in GroupNames(gs[1..])
  {
  }

  /** `Array.prototype.sort` with the group comparator: a permutation of the
      input in comparator order. */
  function SortGroups(gs: seq<ProductGroup>): (r: seq<ProductGroup>)
    ensures multiset(r) == multiset(gs)
    ensures |r| == |gs|
    ensures SortedGroups(r)
  {
    if gs == [] then []
    else
      var rest := SortGroups(gs[1..]);
      assert gs == [gs[0]] + gs[1..];
      InsertSorted(gs[0], rest);
      Insert(gs[0], rest)
  }

  /** Sorting keeps the set of names, and keeps distinct names distinct. */
  lemma {:induction false} SortGroupsNames(gs: seq<ProductGroup>)
    ensures GroupNames(SortGroups(gs)) == GroupNames(gs)
    ensures DistinctNames(gs) ==> DistinctNames(SortGroups(gs))
  {
    if gs != [] {
      var rest := SortGroups(gs[1..]);
      assert gs == [gs[0]] + gs[1..];
      SortGroupsNames(gs[1..]);
      ConsNames(gs[0], gs[1..]);
      InsertNames(gs[0], rest);
      if DistinctNames(gs) {
        DistinctTail(gs);
        InsertDistinct(gs[0], rest);
      }
    }
  }

  /** What the comparator order means for groups with distinct names: every
      bestseller group precedes every other group, and groups with the same
      bestseller status are in strictly ascending name order. */
  lemma SortedGroupsOrder(gs: seq<ProductGroup>, i: nat, j: nat)
    requires SortedGroups(gs) && DistinctNames(gs)
    requires i < j < |gs|
    ensures gs[j].isBestseller ==> gs[i].isBestseller
    ensures gs[i].isBestseller == gs[j].isBestseller ==> Less(gs[i].mainName, gs[j].mainName)
  {
    assert Compare(gs[i], gs[j]) <= 0;
  }

  // ---------------------------------------------------------------------
  // The component
  // ---------------------------------------------------------------------

  /** `Object.values(acc)`: the groups in the order their keys were assigned. */
  function Values(acc: Acc): (vs: seq<ProductGroup>)
    requires forall n | n in acc.order :: n in acc.groups
    ensures |vs| == |acc.order|
    ensures forall j | 0 <= j < |vs| :: vs[j] == acc.groups[acc.order[j]]
  {
    seq(|acc.order|, j requires 0 <= j < |acc.order| => acc.groups[acc.order[j]])
  }

  /** After the whole reduce, the values are one group per name of the input,
      each equal to its reference description. */
  lemma ValuesOfAccumulate(ps: seq<Product>)
    ensures forall n | n in Accumulate(ps).order :: n in Accumulate(ps).groups
    ensures DistinctNames(Values(Accumulate(ps)))
    ensures GroupNames(Values(Accumulate(ps))) == NameSet(ps)
    ensures forall g | g in Values(Accumulate(ps)) :: g.mainName in NameSet(ps) && g == GroupOf(ps, g.mainName)
  {
    var acc := Accumulate(ps);
    AccumulateIsGroupOf(ps);
    NamesDistinct(ps);
    ValuesOfKeyed(acc, NameSet(ps));
  }

  /** The values of an accumulator whose key order lists each key once. */
  lemma ValuesOfKeyed(acc: Acc, names: set<string>)
    requires acc.groups.Keys == names
    requires forall i, j | 0 <= i < j < |acc.order| :: acc.order[i] != acc.order[j]
    requires forall k | 0 <= k < |acc.order| :: acc.order[k] in names
    requires forall n | n in names :: n in acc.order
    requires forall n | n in names :: acc.groups[n].mainName == n
    ensures forall n | n in acc.order :: n in acc.groups
    ensures DistinctNames(Values(acc))
    ensures GroupNames(Values(acc)) == names
    ensures forall g | g in Values(acc) :: g.mainName in names && g == acc.groups[g.mainName]
  {
    var vs := Values(acc);
    assert forall j | 0 <= j < |vs| :: vs[j].mainName == acc.order[j];
    forall g | g in vs ensures g.mainName in names && g == acc.groups[g.mainName] {
      var j :| 0 <= j < |vs| && vs[j] == g;
    }
    ValuesNames(acc.order, vs, names);
  }

  lemma ValuesNames(order: seq<string>, vs: seq<ProductGroup>, names: set<string>)
    requires |vs| == |order|
    requires forall j | 0 <= j < |vs| :: vs[j].mainName == order[j]
    requires forall k | 0 <= k < |order| :: order[k] in names
    requires forall n | n in names :: n in order
    ensures GroupNames(vs) == names
  {
    forall n | n in names ensures n in GroupNames(vs) {
      var j :| 0 <= j < |order| && order[j] == n;
      assert vs[j] in vs;
    }
  }

  /** The sorted values keep the description of every group and are in the
      order the comparator asks for. */
  lemma SortedValues(ps: seq<Product>, vs: seq<ProductGroup>)
    requires DistinctNames(vs) && GroupNames(vs) == NameSet(ps)
    requires forall g | g in vs :: g.mainName in NameSet(ps) && g == GroupOf(ps, g.mainName)
    ensures GroupNames(SortGroups(vs)) == NameSet(ps)
    ensures DistinctNames(SortGroups(vs))
    ensures forall g | g in SortGroups(vs) :: g.mainName in NameSet(ps) && g == GroupOf(ps, g.mainName)
    ensures forall i, j | 0 <= i < j < |SortGroups(vs)| ::
      (SortGroups(vs)[j].isBestseller ==> SortGroups(vs)[i].isBestseller) &&
      (SortGroups(vs)[i].isBestseller == SortGroups(vs)[j].isBestseller ==>
         Less(SortGroups(vs)[i].mainName, SortGroups(vs)[j].mainName))
  {
    var r := SortGroups(vs);
    SortGroupsNames(vs);
    forall g | g in r ensures g in vs {
      assert g in multiset(r);
    }
    forall i, j | 0 <= i < j < |r|
      ensures r[j].isBestseller ==> r[i].isBestseller
      ensures r[i].isBestseller == r[j].isBestseller ==> Less(r[i].mainName, r[j].mainName)
    {
      SortedGroupsOrder(r, i, j);
    }
  }

  /** The reduce callback on one product, updating the accumulator in
      place: open the group if the name is new, push one variant per
      labelled slot, then the fallback if the group is still empty. */
  method ReduceStep(acc0: map<string, ProductGroup>, order0: seq<string>, product: Product)
    returns (acc: map<string, ProductGroup>, order: seq<string>)
    ensures Acc(acc, order) == Step(Acc(acc0, order0), product)
  {
    acc, order := acc0, order0;
    var mainName := product.name;
    if mainName !in acc {
      acc := acc[mainName := ProductGroup(mainName, product.code, product.isBestseller, product.images[0], [])];
      order := order + [mainName];
    }
    var variants := acc[mainName].variants;
    var k := 0;
    while k < SlotCount
      invariant k <= SlotCount
      invariant variants == acc[mainName].variants + SlotVariants(product, k)
    {
      if Truthy(product.subcategories[k]) {
        variants := variants + [ProductVariant(product, product.subcategories[k].value, product.images[k])];
      }
      k := k + 1;
    }
    assert Variants(product) == SlotVariants(product, SlotCount);
    if |variants| == 0 {
      variants := variants + [ProductVariant(product, "", product.images[0])];
      assert variants == [Fallback(product)];
    }
    acc := acc[mainName := acc[mainName].(variants := variants)];
  }

  /** What the grouping and the sort produce, stated on the reduce. */
  lemma GroupedResult(ps: seq<Product>)
    ensures forall n | n in Accumulate(ps).order :: n in Accumulate(ps).groups
    ensures ps == [] <==> SortGroups(Values(Accumulate(ps))) == []
    ensures GroupNames(SortGroups(Values(Accumulate(ps)))) == NameSet(ps)
    ensures DistinctNames(SortGroups(Values(Accumulate(ps))))
    ensures forall g | g in SortGroups(Values(Accumulate(ps))) ::
      g.mainName in NameSet(ps) && g == GroupOf(ps, g.mainName)
    ensures forall i, j | 0 <= i < j < |SortGroups(Values(Accumulate(ps)))| ::
      var gs := SortGroups(Values(Accumulate(ps)));
      (gs[j].isBestseller ==> gs[i].isBestseller) &&
      (gs[i].isBestseller == gs[j].isBestseller ==> Less(gs[i].mainName, gs[j].mainName))
  {
    ValuesOfAccumulate(ps);
    var values := Values(Accumulate(ps));
    SortedValues(ps, values);
    var gs := SortGroups(values);
    if ps != [] {
      assert ps[|ps| - 1].name in NameSet(ps);
    }
    if gs != [] {
      assert gs[0].mainName in GroupNames(gs);
    }
  }

  /** `products.reduce(callback, {})`: a loop over the products that
      updates the name-keyed accumulator in place. */
  method Reduce(products: seq<Product>) returns (acc: map<string, ProductGroup>, order: seq<string>)
    ensures Acc(acc, order) == Accumulate(products)
  {
    acc, order := map[], [];
    var i := 0;
    while i < |products|
      invariant i <= |products|
      invariant Acc(acc, order) == Accumulate(products[..i])
    {
      acc, order := ReduceStep(acc, order, products[i]);
      assert products[..i + 1] == products[..i] + [products[i]];
      AccumulateSnoc(products[..i], products[i]);
      i := i + 1;
    }
    assert products[..i] == products;
  }

  /** The grouping and the sort, as the component computes them: the reduce,
      then the values in key order, sorted. */
  method GroupProducts(products: seq<Product>) returns (groups: seq<ProductGroup>)
    ensures products == [] <==> groups == []
    ensures GroupNames(groups) == NameSet(products)
    ensures DistinctNames(groups)
    ensures forall g | g in groups :: g.mainName in NameSet(products) && g == GroupOf(products, g.mainName)
    ensures forall i, j | 0 <= i < j < |groups| ::
      (groups[j].isBestseller ==> groups[i].isBestseller) &&
      (groups[i].isBestseller == groups[j].isBestseller ==> Less(groups[i].mainName, groups[j].mainName))
  {
    var acc, order := Reduce(products);
    GroupedResult(products);
    groups := SortGroups(Values(Acc(acc, order)));
  }

  /** What the grid renders. */
  datatype GridView =
    | NoProducts                          // the "no products in this category" message
    | Cards(groups: seq<ProductGroup>)

  /** The component: the empty list shows only the message; otherwise one
      card per distinct name, each the group of that name's products, in
      the order of the sort. */
  method Render(products: seq<Product>) returns (view: GridView)
    ensures view == NoProducts <==> products == []
    ensures view.Cards? ==> |view.groups| >= 1 && GroupNames(view.groups) == NameSet(products)
    ensures view.Cards? ==> forall g | g in view.groups :: |g.variants| >= 1
    ensures view.Cards? ==> DistinctNames(view.groups)
    ensures view.Cards? ==> forall g | g in view.groups :: g == GroupOf(products, g.mainName)
    ensures view.Cards? ==> forall i, j | 0 <= i < j < |view.groups| ::
      (view.groups[j].isBestseller ==> view.groups[i].isBestseller) &&
      (view.groups[i].isBestseller == view.groups[j].isBestseller ==>
         Less(view.groups[i].mainName, view.groups[j].mainName))
  {
    if |products| == 0 {
      return NoProducts;
    }
    var groups := GroupProducts(products);
    forall g | g in groups ensures |g.variants| >= 1 {
      GroupOfNonEmpty(products, g.mainName);
    }
    view := Cards(groups);
  }

  // ---------------------------------------------------------------------
  // The reduce as written: `acc` starts as `{}`, which inherits
  // Object.prototype, so `!acc[name]` is false for an inherited member name
  // and the following `acc[name].variants.push` throws a TypeError.
  // ---------------------------------------------------------------------

  /** Property names an empty object literal answers through Object.prototype. */
  const InheritedKeys: set<string> := {
    "constructor", "__proto__", "toString", "toLocaleString", "valueOf",
    "hasOwnProperty", "isPrototypeOf", "propertyIsEnumerable",
    "__defineGetter__", "__defineSetter__", "__lookupGetter__", "__lookupSetter__"
  }

  /** The callback as written; `None` is the thrown TypeError. */
  function StepAsWritten(acc: Acc, p: Product): Option<Acc> {
    if p.name !in acc.groups && p.name in InheritedKeys then None
    else Some(Step(acc, p))
  }

  function AccumulateAsWritten(ps: seq<Product>): Option<Acc>
  {
    if ps == [] then Some(Acc(map[], []))
    else
      match AccumulateAsWritten(ps[..|ps| - 1])
      case None => None
      case Some(acc) => StepAsWritten(acc, ps[|ps| - 1])
  }

  /** Away from the inherited names, the reduce as written computes exactly
      the accumulator the model uses. */
  lemma {:induction false} AsWrittenAgrees(ps: seq<Product>)
    requires forall q | q in ps :: q.name !in InheritedKeys
    ensures AccumulateAsWritten(ps) == Some(Accumulate(ps))
  {
    if ps != [] {
      var pre := ps[..|ps| - 1];
      assert forall q | q in pre :: q in ps;
      AsWrittenAgrees(pre);
    }
  }

  /** A single product named after an inherited member ("toString", say)
      makes the reduce as written throw, while it has its own group in the
      model. */
  lemma AsWrittenThrowsOnInheritedName(p: Product)
    requires p.name in InheritedKeys
    ensures AccumulateAsWritten([p]) == None
    ensures Accumulate([p]).groups.Keys == {p.name}
  {
    assert [p][..0] == [];
  }
}
