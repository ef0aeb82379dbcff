/**
 * The browsing surface: the search filter over the catalogue list, the
 * catalogue id read back out of a cart line id, the quantity of the plain
 * configuration already in the cart, and where a quantity change is sent.
 */
module Menu {
  import opened Wrappers
  import opened Catalog
  import opened Seqs
  import opened Text
  import MenuItemCard

  // ------------------------------------------------------------------ search

  /** The de-duplication key: the lower-cased name. */
  function NameKey(item: MenuItem): string {
    ToLower(item.name)
  }

  /** `!searchQuery.trim()`: a query of whitespace only disables the search. */
  predicate IsBlank(query: string) {
    Trim(query) == []
  }

  /** `searchQuery.toLowerCase().trim()`. */
  function Needle(query: string): string {
    Trim(ToLower(query))
  }

  /** The lower-cased name or description contains the needle. */
  predicate MatchesQuery(item: MenuItem, needle: string) {
    Contains(ToLower(item.name), needle) || Contains(ToLower(item.description), needle)
  }

  function Matcher(needle: string): MenuItem -> bool {
    (item: MenuItem) => MatchesQuery(item, needle)
  }

  /** The items matching the needle, the first of each lower-cased name, in catalogue order. */
  ghost function FirstMatches(items: seq<MenuItem>, needle: string): seq<MenuItem> {
    KeepFirstBy(Filter(items, Matcher(needle)), NameKey)
  }

  /** What `filterItemsBySearch` returns: all items for a blank query, else the first match of each name. */
  ghost function SearchResult(items: seq<MenuItem>, query: string): seq<MenuItem> {
    if IsBlank(query) then items else FirstMatches(items, Needle(query))
  }

  /** The second `filter`: keep an item when its name key is not yet in `seen`, then add the key. */
  method DedupByName(items: seq<MenuItem>) returns (r: seq<MenuItem>)
    ensures r == KeepFirstBy(items, NameKey)
  {
    var seen: set<string> := {};
    r := [];
    var i := 0;
    while i < |items|
      invariant 0 <= i <= |items|
      invariant r == KeepFirstBy(items[..i], NameKey)
      invariant seen == KeysOf(items[..i], NameKey)
    {
      var item := items[i];
      var nameKey := ToLower(item.name);
      assert items[..i + 1] == items[..i] + [item];
      KeepFirstSnoc(items[..i], item, NameKey);
      KeysOfSnoc(items[..i], item, NameKey);
      if nameKey !in seen {
        r := r + [item];
        seen := seen + {nameKey};
      }
      i := i + 1;
    }
    assert items[..i] == items;
  }

  /** `filterItemsBySearch`. */
  method FilterItemsBySearch(items: seq<MenuItem>, searchQuery: string) returns (r: seq<MenuItem>)
    ensures r == SearchResult(items, searchQuery)
  {
    if Trim(searchQuery) == [] {
      return items;
    }
    var query := Trim(ToLower(searchQuery));
    var filtered := Filter(items, Matcher(query));
    r := DedupByName(filtered);
  }

  /** A blank query returns the list as it is, duplicates included. */
  lemma BlankQueryKeepsAll(items: seq<MenuItem>, query: string)
    requires forall k :: 0 <= k < |query| ==> IsWhitespace(query[k])
    ensures SearchResult(items, query) == items
  {
  }

  /** Every item a non-blank search returns matches the needle. */
  lemma SearchSound(items: seq<MenuItem>, needle: string)
    ensures forall i :: 0 <= i < |FirstMatches(items, needle)| ==>
      MatchesQuery(FirstMatches(items, needle)[i], needle)
  {
    var f := Filter(items, Matcher(needle));
    var r := KeepFirstBy(f, NameKey);
    KeepFirstIsSubseq(f, NameKey);
    SubseqMembers(r, f);
    forall i | 0 <= i < |r| ensures MatchesQuery(r[i], needle) {
      assert r[i] in f;
    }
  }

  /** The search keeps the catalogue order: its result is a subsequence of the input. */
  lemma SearchKeepsOrder(items: seq<MenuItem>, query: string)
    ensures IsSubseq(SearchResult(items, query), items)
  {
    if IsBlank(query) {
      SubseqRefl(items);
    } else {
      var f := Filter(items, Matcher(Needle(query)));
      KeepFirstIsSubseq(f, NameKey);
      FilterIsSubseq(items, Matcher(Needle(query)));
      SubseqTrans(KeepFirstBy(f, NameKey), f, items);
    }
  }

  /** A non-blank search returns no two items with the same lower-cased name. */
  lemma SearchDistinctNames(items: seq<MenuItem>, needle: string)
    ensures var r := FirstMatches(items, needle);
      forall i, j :: 0 <= i < j < |r| ==> NameKey(r[i]) != NameKey(r[j])
  {
    var f := Filter(items, Matcher(needle));
    assert FirstMatches(items, needle) == KeepFirstBy(f, NameKey);
    KeepFirstDistinct(f, NameKey);
  }

  /** No matching name is lost: every matching item's name key is represented in the result. */
  lemma SearchComplete(items: seq<MenuItem>, needle: string, k: nat)
    requires k < |items| && MatchesQuery(items[k], needle)
    ensures NameKey(items[k]) in KeysOf(FirstMatches(items, needle), NameKey)
  {
    var f := Filter(items, Matcher(needle));
    assert items[k] in f;
    var j :| 0 <= j < |f| && f[j] == items[k];
    assert NameKey(f[j]) in KeysOf(f, NameKey);
    KeepFirstKeys(f, NameKey);
  }

  /** Among the matches, the one kept for each name is the first. */
  lemma {:induction false} SearchKeepsFirstMatch(items: seq<MenuItem>, needle: string, i: nat)
    requires i < |KeepFirstBy(Filter(items, Matcher(needle)), NameKey)|
    ensures var f := Filter(items, Matcher(needle));
      exists k :: 0 <= k < |f| && f[k] == KeepFirstBy(f, NameKey)[i] &&
                  forall j :: 0 <= j < k ==> NameKey(f[j]) != NameKey(f[k])
  {
    KeepFirstIsFirst(Filter(items, Matcher(needle)), NameKey, i);
  }

  // ------------------------------------------------------------- cart ids

  /** The marker between the catalogue id and the unique suffix of a cart line id. */
  const CartSeparator: string := ":::CART:::"

  /**
   * The catalogue id of a cart line: the part before the first `:::CART:::` when
   * there is one (`split(...)` gives more than one part), otherwise the part before
   * the first `-` (the older id format), otherwise the whole id.
   */
  function CatalogIdOf(cartId: string): (r: string)
    ensures r <= cartId
  {
    match IndexOf(cartId, CartSeparator)
    case Some(i) => cartId[..i]
    case None =>
      match IndexOf(cartId, "-")
      case Some(j) => cartId[..j]
      case None => cartId
  }

  /** `catalogId + ":::CART:::" + suffix` reads back as `catalogId`, unless the marker starts inside it. */
  lemma CatalogIdOfTagged(catalogId: string, suffix: string)
    requires forall i :: 0 <= i < |catalogId| ==> !(CartSeparator <= (catalogId + CartSeparator)[i..])
    ensures CatalogIdOf(catalogId + CartSeparator + suffix) == catalogId
  {
    var s := catalogId + CartSeparator + suffix;
    var t := catalogId + CartSeparator;
    assert CartSeparator <= s[|catalogId|..];
    forall i | 0 <= i < |catalogId| ensures !(CartSeparator <= s[i..]) {
      assert s[i..][..|CartSeparator|] == t[i..][..|CartSeparator|];
    }
    var r := IndexOf(s, CartSeparator);
    assert r.Some? && r.value == |catalogId|;
  }

  /** In the older format the id is cut at its first `-`. */
  lemma CatalogIdOfLegacy(catalogId: string, suffix: string)
    requires IndexOf(catalogId + "-" + suffix, CartSeparator).None?
    requires '-' !in catalogId
    ensures CatalogIdOf(catalogId + "-" + suffix) == catalogId
  {
    var s := catalogId + "-" + suffix;
    assert "-" <= s[|catalogId|..];
    forall j | 0 <= j < |catalogId| ensures !("-" <= s[j..]) {
      assert s[j] == catalogId[j];
    }
    var r := IndexOf(s, "-");
    assert r.Some? && r.value == |catalogId|;
  }

  /** An id with neither the marker nor a `-` is its own catalogue id. */
  lemma CatalogIdOfPlain(cartId: string)
    requires IndexOf(cartId, CartSeparator).None? && '-' !in cartId
    ensures CatalogIdOf(cartId) == cartId
  {
    IndexOfFindsChar(cartId, '-');
  }

  lemma IndexOfFindsChar(s: string, c: char)
    ensures IndexOf(s, [c]).Some? ==> s[IndexOf(s, [c]).value] == c
  {
  }

  /**
   * Without the marker, a catalogue id that itself contains `-` cannot be recovered:
   * the result is strictly shorter than the line id and has no `-`.
   */
  lemma LegacyIdLosesHyphenatedSuffix(cartId: string)
    requires IndexOf(cartId, CartSeparator).None? && '-' in cartId
    ensures |CatalogIdOf(cartId)| < |cartId| && '-' !in CatalogIdOf(cartId)
  {
    var k :| 0 <= k < |cartId| && cartId[k] == '-';
    assert "-" <= cartId[k..];
    var j := IndexOf(cartId, "-").value;
    forall m | 0 <= m < j ensures cartId[m] != '-' {
      assert !("-" <= cartId[m..]);
    }
  }

  // -------------------------------------------------- plain-configuration count

  /** A line of the item's plain configuration: same catalogue id, no variation, no add-ons. */
  predicate IsDefaultLine(line: CartItem, itemId: string): (b: bool)
    ensures b ==> itemId <= line.id && line.selectedVariation.None? && line.selectedAddOns == []
  {
    CatalogIdOf(line.id) == itemId && line.selectedVariation.None? && |line.selectedAddOns| == 0
  }

  function DefaultLineOf(itemId: string): CartItem -> bool {
    (line: CartItem) => IsDefaultLine(line, itemId)
  }

  /** `matchingCartItems`. */
  function MatchingLines(cart: seq<CartItem>, itemId: string): seq<CartItem> {
    Filter(cart, DefaultLineOf(itemId))
  }

  /** `lines.reduce((sum, l) => sum + l.quantity, 0)`. */
  function SumQuantities(lines: seq<CartItem>): int {
    if lines == [] then 0 else SumQuantities(lines[..|lines| - 1]) + lines[|lines| - 1].quantity
  }

  /**
   * The quantity shown on the card: the summed quantity of the matching lines,
   * never negative when no line quantity is, and never above the cart's total then.
   */
  function DefaultQuantity(cart: seq<CartItem>, itemId: string): (r: int)
    ensures (forall i :: 0 <= i < |cart| ==> cart[i].quantity >= 0) ==> 0 <= r <= SumQuantities(cart)
  {
    SumQuantitiesBounds(cart, DefaultLineOf(itemId));
    SumQuantities(MatchingLines(cart, itemId))
  }

  /** Keeping only some lines never raises a sum of non-negative quantities, nor makes it negative. */
  lemma {:induction false} SumQuantitiesBounds(lines: seq<CartItem>, p: CartItem -> bool)
    ensures (forall i :: 0 <= i < |lines| ==> lines[i].quantity >= 0) ==>
            0 <= SumQuantities(Filter(lines, p)) <= SumQuantities(lines)
  {
    if lines != [] {
      var init, last := lines[..|lines| - 1], lines[|lines| - 1];
      assert lines == init + [last];
      SumQuantitiesBounds(init, p);
      FilterSnoc(init, last, p);
      if p(last) {
        SumQuantitiesAppend(Filter(init, p), [last]);
        assert [last][..0] == [];
      }
    }
  }

  lemma {:induction false} SumQuantitiesAppend(a: seq<CartItem>, b: seq<CartItem>)
    ensures SumQuantities(a + b) == SumQuantities(a) + SumQuantities(b)
    decreases |b|
  {
    if b == [] {
      assert a + b == a;
    } else {
      assert (a + b)[..|a + b| - 1] == a + b[..|b| - 1];
      SumQuantitiesAppend(a, b[..|b| - 1]);
    }
  }

  /** A line added at the end counts exactly when it matches. */
  lemma DefaultQuantitySnoc(cart: seq<CartItem>, line: CartItem, itemId: string)
    ensures DefaultQuantity(cart + [line], itemId) ==
      DefaultQuantity(cart, itemId) + (if IsDefaultLine(line, itemId) then line.quantity else 0)
  {
    FilterSnoc(cart, line, DefaultLineOf(itemId));
    if IsDefaultLine(line, itemId) {
      SumQuantitiesAppend(MatchingLines(cart, itemId), [line]);
      assert [line][..0] == [];
    }
  }

  /** A line that does not match has no effect on the count, wherever it stands. */
  lemma DefaultQuantityIgnoresOtherLines(a: seq<CartItem>, line: CartItem, b: seq<CartItem>, itemId: string)
    requires !IsDefaultLine(line, itemId)
    ensures DefaultQuantity(a + [line] + b, itemId) == DefaultQuantity(a + b, itemId)
  {
    var p := DefaultLineOf(itemId);
    FilterAppend(a + [line], b, p);
    FilterSnoc(a, line, p);
    FilterAppend(a, b, p);
  }

  /** With no matching line the count is 0. */
  lemma {:induction false} DefaultQuantityNoMatch(cart: seq<CartItem>, itemId: string)
    requires forall i :: 0 <= i < |cart| ==> !IsDefaultLine(cart[i], itemId)
    ensures DefaultQuantity(cart, itemId) == 0
  {
    if cart != [] {
      var init := cart[..|cart| - 1];
      assert cart == init + [cart[|cart| - 1]];
      DefaultQuantityNoMatch(init, itemId);
      DefaultQuantitySnoc(init, cart[|cart| - 1], itemId);
    }
  }

  lemma {:induction false} SumQuantitiesPositive(lines: seq<CartItem>)
    requires lines != [] && forall i :: 0 <= i < |lines| ==> lines[i].quantity >= 1
    ensures SumQuantities(lines) >= 1
  {
    if |lines| > 1 {
      SumQuantitiesPositive(lines[..|lines| - 1]);
    }
  }

  /**
   * With positive line quantities, an available item whose plain configuration is in
   * the cart shows "Added"; with none in the cart it shows its add or customise button.
   */
  lemma CardShowsAdded(cart: seq<CartItem>, item: MenuItem)
    requires item.available
    requires forall i :: 0 <= i < |cart| ==> cart[i].quantity >= 1
    ensures (exists k :: 0 <= k < |cart| && IsDefaultLine(cart[k], item.id)) <==>
      MenuItemCard.ButtonFor(item, DefaultQuantity(cart, item.id)) == MenuItemCard.Added
  {
    var m := MatchingLines(cart, item.id);
    if exists k :: 0 <= k < |cart| && IsDefaultLine(cart[k], item.id) {
      var k :| 0 <= k < |cart| && IsDefaultLine(cart[k], item.id);
      assert cart[k] in m;
      SumQuantitiesPositive(m);
    } else {
      DefaultQuantityNoMatch(cart, item.id);
    }
  }

  // ------------------------------------------------------------- routing

  /** The store call a quantity change on the card turns into. */
  datatype QuantityRoute = UpdateLine(lineId: string, quantity: int) | AddItem(item: MenuItem, quantity: int) | NoCall

  /**
   * The `onUpdateQuantity` closure: update the first matching line, or else add the
   * item when the new quantity is positive. The id the card passes is not used.
   */
  function RouteQuantityUpdate(cart: seq<CartItem>, item: MenuItem, id: string, qty: int): (r: QuantityRoute)
    ensures r.UpdateLine? <==> exists k :: 0 <= k < |cart| && IsDefaultLine(cart[k], item.id)
    ensures r.UpdateLine? ==> r.quantity == qty
    ensures r.UpdateLine? ==>
              exists k :: 0 <= k < |cart| && cart[k].id == r.lineId && IsDefaultLine(cart[k], item.id) &&
                          forall j :: 0 <= j < k ==> !IsDefaultLine(cart[j], item.id)
    ensures r.AddItem? ==> r == AddItem(item, qty) && qty > 0
    ensures r.NoCall? <==> qty <= 0 && forall k :: 0 <= k < |cart| ==> !IsDefaultLine(cart[k], item.id)
  {
    var matching := MatchingLines(cart, item.id);
    if |matching| > 0 then
      FilterFirst(cart, DefaultLineOf(item.id));
      UpdateLine(matching[0].id, qty)
    else if qty > 0 then AddItem(item, qty) else NoCall
  }
}
