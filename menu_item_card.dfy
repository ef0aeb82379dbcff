/**
 * The customisation card of one catalogue item: unit price, the counted add-on
 * selection and its update rule, the flat add-on list handed to the cart, the
 * grouping of add-ons by category, and the add / customise decision.
 */
module MenuItemCard {
  import opened Wrappers
  import opened Catalog
  import opened Seqs

  /** An entry of the selection list: an add-on together with its chosen count. */
  datatype SelectedAddOn = SelectedAddOn(addOn: AddOn, quantity: int)

  /** The arguments of one `onAddToCart` call. */
  datatype AddToCartCall = AddToCartCall(
    item: MenuItem,
    quantity: int,
    variation: Option<Variation>,
    addOns: Option<seq<AddOn>>)

  // ---------------------------------------------------------------- pricing

  /** `item.effectivePrice || item.basePrice`: a missing or zero effective price falls back. */
  function BasePrice(item: MenuItem): (r: int)
    ensures item.effectivePrice.Some? && item.effectivePrice.value != 0 ==> r == item.effectivePrice.value
    ensures item.effectivePrice.None? || item.effectivePrice == Some(0) ==> r == item.basePrice
  {
    if item.effectivePrice.Some? && item.effectivePrice.value != 0 then item.effectivePrice.value
    else item.basePrice
  }

  function VariationPrice(v: Option<Variation>): int {
    if v.Some? then v.value.price else 0
  }

  /** The sum of price times count over the selection. */
  function AddOnsTotal(sel: seq<SelectedAddOn>): int {
    if sel == [] then 0
    else AddOnsTotal(sel[..|sel| - 1]) + sel[|sel| - 1].addOn.price * sel[|sel| - 1].quantity
  }

  /**
   * The unit price of an item with the given variation and counted add-ons; with
   * non-negative prices and counts it is never below the base price.
   */
  function UnitPrice(item: MenuItem, v: Option<Variation>, sel: seq<SelectedAddOn>): (r: int)
    ensures (v.Some? ==> v.value.price >= 0) &&
            (forall i :: 0 <= i < |sel| ==> sel[i].addOn.price >= 0 && sel[i].quantity >= 0)
            ==> r >= BasePrice(item)
  {
    AddOnsTotalNonNegative(sel);
    BasePrice(item) + VariationPrice(v) + AddOnsTotal(sel)
  }

  /** `calculatePrice`: start from the base price, add the variation, then each add-on in turn. */
  method CalculatePrice(item: MenuItem, selectedVariation: Option<Variation>, selectedAddOns: seq<SelectedAddOn>)
    returns (price: int)
    ensures price == UnitPrice(item, selectedVariation, selectedAddOns)
  {
    price := if item.effectivePrice.Some? && item.effectivePrice.value != 0
      then item.effectivePrice.value else item.basePrice;
    if selectedVariation.Some? {
      price := price + selectedVariation.value.price;
    }
    var i := 0;
    while i < |selectedAddOns|
      invariant 0 <= i <= |selectedAddOns|
      invariant price == BasePrice(item) + VariationPrice(selectedVariation) + AddOnsTotal(selectedAddOns[..i])
    {
      assert selectedAddOns[..i + 1][..i] == selectedAddOns[..i];
      price := price + selectedAddOns[i].addOn.price * selectedAddOns[i].quantity;
      i := i + 1;
    }
    assert selectedAddOns[..i] == selectedAddOns;
  }

  lemma {:induction false} AddOnsTotalAppend(a: seq<SelectedAddOn>, b: seq<SelectedAddOn>)
    ensures AddOnsTotal(a + b) == AddOnsTotal(a) + AddOnsTotal(b)
    decreases |b|
  {
    if b == [] {
      assert a + b == a;
    } else {
      assert (a + b)[..|a + b| - 1] == a + b[..|b| - 1];
      AddOnsTotalAppend(a, b[..|b| - 1]);
    }
  }

  lemma {:induction false} AddOnsTotalNonNegative(sel: seq<SelectedAddOn>)
    ensures (forall i :: 0 <= i < |sel| ==> sel[i].addOn.price >= 0 && sel[i].quantity >= 0) ==>
            AddOnsTotal(sel) >= 0
  {
    if sel != [] {
      AddOnsTotalNonNegative(sel[..|sel| - 1]);
    }
  }

  // ------------------------------------------------------ selection updates

  /** `prev.findIndex(a => a.id === id)`. */
  function FindIndex(sel: seq<SelectedAddOn>, id: string): (k: int)
    ensures -1 <= k < |sel|
    ensures k >= 0 ==> sel[k].addOn.id == id
    ensures forall j :: 0 <= j < |sel| && (k < 0 || j < k) ==> sel[j].addOn.id != id
  {
    if sel == [] then -1
    else if sel[0].addOn.id == id then 0
    else
      var k := FindIndex(sel[1..], id);
      if k < 0 then -1 else k + 1
  }

  /** The quantity of the first entry with this id, if any (`selectedAddOns.find(...)?.quantity`). */
  function FindQuantity(sel: seq<SelectedAddOn>, id: string): Option<int> {
    var k := FindIndex(sel, id);
    if k < 0 then None else Some(sel[k].quantity)
  }

  /** `q || d` on an optional number: an absent or zero quantity gives `d`. */
  function OrDefault(q: Option<int>, d: int): int {
    if q.Some? && q.value != 0 then q.value else d
  }

  function HasOtherId(id: string): SelectedAddOn -> bool {
    (e: SelectedAddOn) => e.addOn.id != id
  }

  /** The update rule of `updateAddOnQuantity`: remove at 0, replace the existing entry, or append. */
  function UpdatedSelection(prev: seq<SelectedAddOn>, addOn: AddOn, quantity: int): (r: seq<SelectedAddOn>)
    // quantity 0: every entry with this id is removed, the others stay, in order
    ensures quantity == 0 ==> IsSubseq(r, prev)
    ensures quantity == 0 ==> forall e :: multiset(r)[e] == if e.addOn.id == addOn.id then 0 else multiset(prev)[e]
    // present: only the first entry with this id changes, and only its quantity
    ensures quantity != 0 && FindIndex(prev, addOn.id) >= 0 ==>
      var k := FindIndex(prev, addOn.id);
      |r| == |prev| && r[k] == prev[k].(quantity := quantity) &&
      forall j :: 0 <= j < |r| && j != k ==> r[j] == prev[j]
    // absent: the new entry goes at the end
    ensures quantity != 0 && FindIndex(prev, addOn.id) < 0 ==>
      |r| == |prev| + 1 && r[..|prev|] == prev && r[|prev|] == SelectedAddOn(addOn, quantity)
  {
    var k := FindIndex(prev, addOn.id);
    if quantity == 0 then
      FilterIsSubseq(prev, HasOtherId(addOn.id));
      FilterMultiset(prev, HasOtherId(addOn.id));
      Filter(prev, HasOtherId(addOn.id))
    else if k >= 0 then prev[k := prev[k].(quantity := quantity)]
    else prev + [SelectedAddOn(addOn, quantity)]
  }

  /** No two entries of the selection have the same add-on id. */
  ghost predicate UniqueIds(sel: seq<SelectedAddOn>) {
    forall i, j :: 0 <= i < j < |sel| ==> sel[i].addOn.id != sel[j].addOn.id
  }

  /** The invariant the card keeps: unique ids, and every stored count at least 1. */
  ghost predicate ValidSelection(sel: seq<SelectedAddOn>) {
    UniqueIds(sel) && forall i :: 0 <= i < |sel| ==> sel[i].quantity >= 1
  }

  /** With unique ids, removing an id deletes exactly its single entry. */
  lemma RemoveSplices(prev: seq<SelectedAddOn>, addOn: AddOn)
    requires UniqueIds(prev) && FindIndex(prev, addOn.id) >= 0
    ensures var k := FindIndex(prev, addOn.id);
      UpdatedSelection(prev, addOn, 0) == prev[..k] + prev[k + 1..]
  {
    var k := FindIndex(prev, addOn.id);
    var p := HasOtherId(addOn.id);
    assert forall i :: 0 <= i < |prev| && i != k ==> p(prev[i]);
    FilterDropsOne(prev, k, p);
  }

  /** Every update keeps the ids of the selection unique. */
  lemma UpdatePreservesUniqueIds(prev: seq<SelectedAddOn>, addOn: AddOn, quantity: int)
    requires UniqueIds(prev)
    ensures UniqueIds(UpdatedSelection(prev, addOn, quantity))
  {
    var r := UpdatedSelection(prev, addOn, quantity);
    if quantity == 0 {
      SubseqKeepsUnique(r, prev);
    }
  }

  lemma {:induction false} SubseqKeepsUnique(r: seq<SelectedAddOn>, s: seq<SelectedAddOn>)
    requires IsSubseq(r, s) && UniqueIds(s)
    ensures UniqueIds(r)
    decreases |s|
  {
    if r != [] {
      var s' := s[..|s| - 1];
      if r[|r| - 1] == s[|s| - 1] {
        var r' := r[..|r| - 1];
        SubseqKeepsUnique(r', s');
        SubseqMembers(r', s');
        forall i | 0 <= i < |r'| ensures r'[i].addOn.id != r[|r| - 1].addOn.id {
          assert r'[i] in s';
          var j :| 0 <= j < |s'| && s'[j] == r'[i];
          assert s[j] == s'[j];
        }
      } else {
        SubseqKeepsUnique(r, s');
      }
    }
  }

  /**
   * The count the minus button passes, `(current?.quantity || 1) - 1`: one less than
   * the stored count, or 0 when the add-on is not selected or its count is 0.
   */
  function DecrementedCount(sel: seq<SelectedAddOn>, id: string): (r: int)
    ensures FindIndex(sel, id) < 0 ==> r == 0
    ensures FindIndex(sel, id) >= 0 ==>
      r == if sel[FindIndex(sel, id)].quantity != 0 then sel[FindIndex(sel, id)].quantity - 1 else 0
    ensures ValidSelection(sel) ==> r >= 0
  {
    OrDefault(FindQuantity(sel, id), 1) - 1
  }

  /**
   * The count the plus button passes, `(current?.quantity || 0) + 1`: one more than
   * the stored count, or 1 when the add-on is not selected or its count is 0.
   */
  function IncrementedCount(sel: seq<SelectedAddOn>, id: string): (r: int)
    ensures FindIndex(sel, id) < 0 ==> r == 1
    ensures FindIndex(sel, id) >= 0 ==>
      r == if sel[FindIndex(sel, id)].quantity != 0 then sel[FindIndex(sel, id)].quantity + 1 else 1
    ensures ValidSelection(sel) ==> r >= 2 || (FindIndex(sel, id) < 0 && r == 1)
  {
    OrDefault(FindQuantity(sel, id), 0) + 1
  }

  /** An update with a count of at least 0 keeps every stored count at least 1. */
  lemma UpdatePreservesValid(prev: seq<SelectedAddOn>, addOn: AddOn, quantity: int)
    requires ValidSelection(prev) && quantity >= 0
    ensures ValidSelection(UpdatedSelection(prev, addOn, quantity))
  {
    UpdatePreservesUniqueIds(prev, addOn, quantity);
    var r := UpdatedSelection(prev, addOn, quantity);
    if quantity == 0 {
      SubseqMembers(r, prev);
      forall i | 0 <= i < |r| ensures r[i].quantity >= 1 {
        assert r[i] in prev;
      }
    }
  }

  /** The three call sites (minus, plus, first add) pass counts that keep the selection valid. */
  lemma ButtonsPreserveValid(prev: seq<SelectedAddOn>, addOn: AddOn)
    requires ValidSelection(prev)
    ensures ValidSelection(UpdatedSelection(prev, addOn, DecrementedCount(prev, addOn.id)))
    ensures ValidSelection(UpdatedSelection(prev, addOn, IncrementedCount(prev, addOn.id)))
    ensures ValidSelection(UpdatedSelection(prev, addOn, 1))
  {
    UpdatePreservesValid(prev, addOn, DecrementedCount(prev, addOn.id));
    UpdatePreservesValid(prev, addOn, IncrementedCount(prev, addOn.id));
    UpdatePreservesValid(prev, addOn, 1);
  }

  /** Changing one entry changes the add-on total by the difference of that entry's price times count. */
  lemma AddOnsTotalReplace(sel: seq<SelectedAddOn>, k: nat, e: SelectedAddOn)
    requires k < |sel|
    ensures AddOnsTotal(sel[k := e]) ==
      AddOnsTotal(sel) - sel[k].addOn.price * sel[k].quantity + e.addOn.price * e.quantity
  {
    var before, after := sel[..k], sel[k + 1..];
    assert sel == (before + [sel[k]]) + after;
    assert sel[k := e] == (before + [e]) + after;
    AddOnsTotalAppend(before + [sel[k]], after);
    AddOnsTotalAppend(before + [e], after);
    AddOnsTotalAppend(before, [sel[k]]);
    AddOnsTotalAppend(before, [e]);
    assert [sel[k]][..0] == [] && [e][..0] == [];
  }

  /** Pressing plus raises the add-on total by one unit of that add-on's stored price. */
  lemma IncrementAddsOneUnit(prev: seq<SelectedAddOn>, addOn: AddOn)
    requires ValidSelection(prev)
    ensures var k := FindIndex(prev, addOn.id);
      AddOnsTotal(UpdatedSelection(prev, addOn, IncrementedCount(prev, addOn.id))) ==
      AddOnsTotal(prev) + (if k >= 0 then prev[k].addOn.price else addOn.price)
  {
    var k := FindIndex(prev, addOn.id);
    if k >= 0 {
      assert prev[k].quantity >= 1;
      assert FindQuantity(prev, addOn.id) == Some(prev[k].quantity);
      assert IncrementedCount(prev, addOn.id) == prev[k].quantity + 1;
      IncrementPresent(prev, addOn, k);
    } else {
      assert IncrementedCount(prev, addOn.id) == 1;
      IncrementAbsent(prev, addOn);
    }
  }

  lemma IncrementPresent(prev: seq<SelectedAddOn>, addOn: AddOn, k: nat)
    requires k < |prev| && k == FindIndex(prev, addOn.id) && prev[k].quantity >= 1
    ensures AddOnsTotal(UpdatedSelection(prev, addOn, prev[k].quantity + 1)) ==
      AddOnsTotal(prev) + prev[k].addOn.price
  {
    var q := prev[k].quantity + 1;
    var e := prev[k].(quantity := q);
    assert UpdatedSelection(prev, addOn, q) == prev[k := e];
    AddOnsTotalReplace(prev, k, e);
    var p, n := prev[k].addOn.price, prev[k].quantity;
    assert e.addOn.price * e.quantity == p * (n + 1) == p * n + p;
  }

  lemma IncrementAbsent(prev: seq<SelectedAddOn>, addOn: AddOn)
    requires FindIndex(prev, addOn.id) < 0
    ensures AddOnsTotal(UpdatedSelection(prev, addOn, 1)) == AddOnsTotal(prev) + addOn.price
  {
    assert UpdatedSelection(prev, addOn, 1) == prev + [SelectedAddOn(addOn, 1)];
    AddOnsTotalAppend(prev, [SelectedAddOn(addOn, 1)]);
    assert [SelectedAddOn(addOn, 1)][..0] == [];
  }

  // ------------------------------------------------------ flat add-on list

  /** `{ ...addOn, quantity: undefined }`. */
  function Cleared(e: SelectedAddOn): AddOn {
    e.addOn.(quantity := None)
  }

  function Repeat(x: AddOn, n: nat): (r: seq<AddOn>)
    ensures |r| == n && forall i :: 0 <= i < n ==> r[i] == x
  {
    if n == 0 then [] else Repeat(x, n - 1) + [x]
  }

  /** The sum of the counts of the selection. */
  function TotalCount(sel: seq<SelectedAddOn>): int {
    if sel == [] then 0 else TotalCount(sel[..|sel| - 1]) + sel[|sel| - 1].quantity
  }

  /**
   * `selectedAddOns.flatMap(a => Array(a.quantity).fill({ ...a, quantity: undefined }))`.
   * `Array(n)` throws for a negative `n`, so the counts must not be negative.
   */
  function Expand(sel: seq<SelectedAddOn>): (r: seq<AddOn>)
    requires forall i :: 0 <= i < |sel| ==> sel[i].quantity >= 0
    ensures |r| == TotalCount(sel)
    ensures forall i :: 0 <= i < |r| ==> r[i].quantity.None?
  {
    if sel == [] then []
    else Expand(sel[..|sel| - 1]) + Repeat(Cleared(sel[|sel| - 1]), sel[|sel| - 1].quantity)
  }

  /** The price of a flat list of add-ons, one unit each. */
  function ListPrice(addOns: seq<AddOn>): int {
    if addOns == [] then 0 else ListPrice(addOns[..|addOns| - 1]) + addOns[|addOns| - 1].price
  }

  lemma {:induction false} ListPriceAppend(a: seq<AddOn>, b: seq<AddOn>)
    ensures ListPrice(a + b) == ListPrice(a) + ListPrice(b)
    decreases |b|
  {
    if b == [] {
      assert a + b == a;
    } else {
      assert (a + b)[..|a + b| - 1] == a + b[..|b| - 1];
      ListPriceAppend(a, b[..|b| - 1]);
    }
  }

  lemma {:induction false} ListPriceRepeat(x: AddOn, n: nat)
    ensures ListPrice(Repeat(x, n)) == x.price * n
  {
    if n > 0 {
      var r := Repeat(x, n);
      assert r[..n - 1] == Repeat(x, n - 1);
      assert ListPrice(r) == ListPrice(Repeat(x, n - 1)) + x.price;
      ListPriceRepeat(x, n - 1);
      assert x.price * (n - 1) + x.price == x.price * n;
    }
  }

  /** Pricing the flat list one unit at a time gives the counted add-on total. */
  lemma {:induction false} ExpandPreservesPrice(sel: seq<SelectedAddOn>)
    requires forall i :: 0 <= i < |sel| ==> sel[i].quantity >= 0
    ensures ListPrice(Expand(sel)) == AddOnsTotal(sel)
  {
    if sel != [] {
      var init := sel[..|sel| - 1];
      var e := sel[|sel| - 1];
      ExpandPreservesPrice(init);
      ListPriceAppend(Expand(init), Repeat(Cleared(e), e.quantity));
      ListPriceRepeat(Cleared(e), e.quantity);
    }
  }

  /** The flat list is the blocks of the selection, one after the other. */
  lemma {:induction false} ExpandAppend(a: seq<SelectedAddOn>, b: seq<SelectedAddOn>)
    requires forall i :: 0 <= i < |a| ==> a[i].quantity >= 0
    requires forall i :: 0 <= i < |b| ==> b[i].quantity >= 0
    ensures Expand(a + b) == Expand(a) + Expand(b)
    decreases |b|
  {
    if b == [] {
      assert a + b == a;
    } else {
      var b' := b[..|b| - 1];
      assert (a + b)[..|a + b| - 1] == a + b';
      ExpandAppend(a, b');
    }
  }

  /**
   * Entry `k` of the selection fills a consecutive block of the flat list, as many
   * copies of its cleared add-on as its count, after the blocks of the entries before it.
   */
  lemma ExpandBlock(sel: seq<SelectedAddOn>, k: nat)
    requires forall i :: 0 <= i < |sel| ==> sel[i].quantity >= 0
    requires k < |sel|
    ensures var start := |Expand(sel[..k])|;
      start == TotalCount(sel[..k]) && start + sel[k].quantity <= |Expand(sel)| &&
      Expand(sel)[start..start + sel[k].quantity] == Repeat(Cleared(sel[k]), sel[k].quantity)
  {
    assert sel == sel[..k] + [sel[k]] + sel[k + 1..];
    ExpandAppend(sel[..k] + [sel[k]], sel[k + 1..]);
    ExpandAppend(sel[..k], [sel[k]]);
    assert [sel[k]][..0] == [];
  }

  // ---------------------------------------------------------------- grouping

  function InCategory(c: string): AddOn -> bool {
    (a: AddOn) => a.category == c
  }

  /** `groups` holds, for each category occurring in `s`, the add-ons of `s` in that category. */
  ghost predicate GroupsOf(groups: map<string, seq<AddOn>>, s: seq<AddOn>) {
    (forall c :: c in groups <==> exists j :: 0 <= j < |s| && s[j].category == c)
    && forall c | c in groups :: groups[c] == Filter(s, InCategory(c))
  }

  /** Pushing the next add-on into the group of its category keeps the grouping exact. */
  lemma GroupsSnoc(groups: map<string, seq<AddOn>>, s: seq<AddOn>, a: AddOn)
    requires GroupsOf(groups, s)
    ensures GroupsOf(groups[a.category := (if a.category in groups then groups[a.category] else []) + [a]], s + [a])
  {
    var c0 := a.category;
    var g := groups[c0 := (if c0 in groups then groups[c0] else []) + [a]];
    var t := s + [a];
    if c0 !in groups {
      FilterNone(s, InCategory(c0));
    }
    forall c | c in g ensures g[c] == Filter(t, InCategory(c)) {
      FilterSnoc(s, a, InCategory(c));
    }
    forall c ensures c in g <==> exists j :: 0 <= j < |t| && t[j].category == c {
      if c in groups {
        var j :| 0 <= j < |s| && s[j].category == c;
        assert t[j] == s[j];
      }
      if c == c0 {
        assert t[|s|].category == c;
      }
      if exists j :: 0 <= j < |t| && t[j].category == c {
        var j :| 0 <= j < |t| && t[j].category == c;
        if j < |s| {
          assert s[j] == t[j];
        }
      }
    }
  }

  /** What an exact grouping says about each group and each add-on. */
  lemma GroupsOfProperties(groups: map<string, seq<AddOn>>, s: seq<AddOn>)
    requires GroupsOf(groups, s)
    ensures forall c | c in groups :: IsSubseq(groups[c], s)
    ensures forall c | c in groups :: forall i :: 0 <= i < |groups[c]| ==> groups[c][i].category == c
    ensures forall i :: 0 <= i < |s| ==>
      s[i].category in groups && multiset(groups[s[i].category])[s[i]] == multiset(s)[s[i]]
  {
    forall c | c in groups ensures IsSubseq(groups[c], s) {
      FilterIsSubseq(s, InCategory(c));
    }
    forall i | 0 <= i < |s|
      ensures s[i].category in groups && multiset(groups[s[i].category])[s[i]] == multiset(s)[s[i]]
    {
      FilterMultiset(s, InCategory(s[i].category));
    }
  }

  /**
   * `groupedAddOns`: the add-ons pushed, one by one, into the list of their category.
   * Every category that occurs gets a group; each group is the add-ons of that category
   * in their catalogue order, each with all its occurrences.
   */
  method GroupAddOns(addOns: seq<AddOn>) returns (groups: map<string, seq<AddOn>>)
    ensures forall c :: c in groups <==> exists i :: 0 <= i < |addOns| && addOns[i].category == c
    ensures forall c | c in groups :: IsSubseq(groups[c], addOns)
    ensures forall c | c in groups :: forall i :: 0 <= i < |groups[c]| ==> groups[c][i].category == c
    ensures forall i :: 0 <= i < |addOns| ==>
      addOns[i].category in groups &&
      multiset(groups[addOns[i].category])[addOns[i]] == multiset(addOns)[addOns[i]]
  {
    groups := map[];
    var i := 0;
    while i < |addOns|
      invariant 0 <= i <= |addOns|
      invariant GroupsOf(groups, addOns[..i])
    {
      var addOn := addOns[i];
      var category := addOn.category;
      assert addOns[..i + 1] == addOns[..i] + [addOn];
      GroupsSnoc(groups, addOns[..i], addOn);
      if category !in groups {
        groups := groups[category := []];
      }
      groups := groups[category := groups[category] + [addOn]];
      i := i + 1;
    }
    assert addOns[..i] == addOns;
    GroupsOfProperties(groups, addOns);
  }

  lemma {:induction false} FilterNone(s: seq<AddOn>, p: AddOn -> bool)
    requires forall i :: 0 <= i < |s| ==> !p(s[i])
    ensures Filter(s, p) == []
  {
    if s != [] {
      FilterNone(s[..|s| - 1], p);
    }
  }

  // --------------------------------------------------------- card behaviour

  /** An item with any variation or add-on opens the customisation dialog. */
  predicate NeedsCustomization(item: MenuItem) {
    |item.variations| > 0 || |item.addOns| > 0
  }

  /** The button the card shows. */
  datatype CardButton = Unavailable | Added | Customize | Add

  /** The button choice: unavailable first, then added when some is in the cart, then customise or add. */
  function ButtonFor(item: MenuItem, quantity: int): (b: CardButton)
    ensures b == Unavailable <==> !item.available
    ensures b == Added <==> item.available && quantity > 0
    ensures b == Customize <==> item.available && quantity <= 0 && NeedsCustomization(item)
    ensures b == Add <==> item.available && quantity <= 0 && !NeedsCustomization(item)
  {
    if !item.available then Unavailable
    else if quantity > 0 then Added
    else if NeedsCustomization(item) then Customize
    else Add
  }

  /** `item.variations?.[0]`: the variation selected when the card is created. */
  function FirstVariation(item: MenuItem): (v: Option<Variation>)
    ensures v.Some? <==> |item.variations| > 0
    ensures v.Some? ==> v.value == item.variations[0]
  {
    if |item.variations| > 0 then Some(item.variations[0]) else None
  }

  /** The state of one card: the dialog flag, the chosen variation and the add-on selection. */
  class Card {
    const item: MenuItem
    var showCustomization: bool
    var selectedVariation: Option<Variation>
    var selectedAddOns: seq<SelectedAddOn>

    ghost predicate Valid()
      reads this
    {
      ValidSelection(selectedAddOns)
    }

    constructor (item: MenuItem)
      ensures this.item == item && !showCustomization
      ensures selectedVariation == FirstVariation(item) && selectedAddOns == []
      ensures Valid()
    {
      this.item := item;
      showCustomization := false;
      selectedVariation := FirstVariation(item);
      selectedAddOns := [];
    }

    /** `handleAddToCart`: open the dialog for a customisable item, otherwise add one plain unit. */
    method HandleAddToCart() returns (call: Option<AddToCartCall>)
      modifies this
      ensures NeedsCustomization(item) ==> call == None && showCustomization
      ensures !NeedsCustomization(item) ==>
        call == Some(AddToCartCall(item, 1, None, None)) && showCustomization == old(showCustomization)
      ensures selectedVariation == old(selectedVariation) && selectedAddOns == old(selectedAddOns)
    {
      if |item.variations| > 0 || |item.addOns| > 0 {
        showCustomization := true;
        call := None;
      } else {
        call := Some(AddToCartCall(item, 1, None, None));
      }
    }

    /**
     * `handleCustomizedAddToCart`: add one unit with the chosen variation and the flat
     * add-on list, close the dialog and clear the selection.
     */
    method HandleCustomizedAddToCart() returns (call: AddToCartCall)
      requires Valid()
      modifies this
      ensures call == AddToCartCall(item, 1, old(selectedVariation), Some(Expand(old(selectedAddOns))))
      ensures !showCustomization && selectedAddOns == [] && selectedVariation == old(selectedVariation)
      ensures Valid()
    {
      call := AddToCartCall(item, 1, selectedVariation, Some(Expand(selectedAddOns)));
      showCustomization := false;
      selectedAddOns := [];
    }

    /** `updateAddOnQuantity`: replace the selection by its update. */
    method UpdateAddOnQuantity(addOn: AddOn, quantity: int)
      modifies this`selectedAddOns
      ensures selectedAddOns == UpdatedSelection(old(selectedAddOns), addOn, quantity)
      ensures old(Valid()) && quantity >= 0 ==> Valid()
    {
      if Valid() && quantity >= 0 {
        UpdatePreservesValid(selectedAddOns, addOn, quantity);
      }
      selectedAddOns := UpdatedSelection(selectedAddOns, addOn, quantity);
    }

    /** The minus button of a selected add-on. */
    method DecrementAddOn(addOn: AddOn)
      requires Valid()
      modifies this`selectedAddOns
      ensures selectedAddOns == UpdatedSelection(old(selectedAddOns), addOn, DecrementedCount(old(selectedAddOns), addOn.id))
      ensures Valid()
    {
      var current := FindQuantity(selectedAddOns, addOn.id);
      ButtonsPreserveValid(selectedAddOns, addOn);
      UpdateAddOnQuantity(addOn, OrDefault(current, 1) - 1);
    }

    /** The plus button of a selected add-on. */
    method IncrementAddOn(addOn: AddOn)
      requires Valid()
      modifies this`selectedAddOns
      ensures selectedAddOns == UpdatedSelection(old(selectedAddOns), addOn, IncrementedCount(old(selectedAddOns), addOn.id))
      ensures Valid()
    {
      var current := FindQuantity(selectedAddOns, addOn.id);
      ButtonsPreserveValid(selectedAddOns, addOn);
      UpdateAddOnQuantity(addOn, OrDefault(current, 0) + 1);
    }

    /** The add button of an add-on that is not selected yet. */
    method AddAddOn(addOn: AddOn)
      requires Valid()
      modifies this`selectedAddOns
      ensures selectedAddOns == UpdatedSelection(old(selectedAddOns), addOn, 1)
      ensures Valid()
    {
      UpdateAddOnQuantity(addOn, 1);
    }

    /** Choosing a size in the dialog. */
    method SelectVariation(v: Variation)
      modifies this`selectedVariation
      ensures selectedVariation == Some(v)
    {
      selectedVariation := Some(v);
    }

    /** The close button of the dialog; the selection is kept. */
    method CloseCustomization()
      modifies this`showCustomization
      ensures !showCustomization
    {
      showCustomization := false;
    }
  }
}
