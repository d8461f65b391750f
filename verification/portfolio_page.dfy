/** The portfolio page: the category filter over the item list fetched
    from GET /api/portfolio, the image list handed to the viewer, and the
    position at which a click on an item opens the viewer. The list is
    `None` while it is still loading. */
module PortfolioPage {
  import opened Wrappers
  import opened Text
  import opened Table
  import opened Schema
  import Storage
  import Lightbox

  /** The filter buttons, in order. */
  const Categories: seq<string> := ["all", "formal", "casual", "bridal"]

  /** Whether the page shows `item` under the selected `category`. */
  predicate Shown(category: string, item: Portfolio) {
    category == "all" || Lower(item.data.category) == category
  }

  /** `filteredItems`: the items shown under the selected category, in
      list order. */
  function FilteredItems(items: Option<seq<Portfolio>>, category: string): (r: Option<seq<Portfolio>>)
    ensures r.Some? <==> items.Some?
    ensures r.Some? ==> |r.value| <= |items.value|
    ensures r.Some? ==> forall x :: x in r.value <==> x in items.value && Shown(category, x)
  {
    match items
    case None => None
    case Some(xs) => Some(Filter(xs, (x: Portfolio) => Shown(category, x)))
  }

  /** With "all" selected every item is shown, in list order. */
  lemma {:induction false} AllShowsEverything(xs: seq<Portfolio>)
    ensures FilteredItems(Some(xs), "all") == Some(xs)
  {
    FilterKeepsPrefix(xs, (x: Portfolio) => Shown("all", x), |xs|);
    assert xs[..|xs|] == xs;
  }

  /** Under another category the shown items are exactly the
      order-preserving selection of the items in that category. */
  lemma FilteredIsOrderedSelection(xs: seq<Portfolio>, category: string)
    requires IdsIncreasing(xs)
    requires category != "all"
    ensures var r := FilteredItems(Some(xs), category).value;
      && IdsIncreasing(r)
      && (forall x :: x in r <==> x in xs && Lower(x.data.category) == category)
  {
  }

  /** Every filter button other than "all" is spelled in lower case. */
  lemma CategoriesAreLowerCase()
    ensures forall k :: 1 <= k < |Categories| ==> IsLowerCase(Categories[k])
  {
    assert IsLowerCase("formal") && IsLowerCase("casual") && IsLowerCase("bridal");
  }

  /** For a lower-case category the page shows what the server's category
      route returns for it: comparing the lower-cased item category with
      the button's label is the case-insensitive match storage performs. */
  lemma PageAgreesWithCategoryRoute(s: Storage.MemStorage, category: string)
    requires category != "all" && IsLowerCase(category)
    ensures FilteredItems(Some(Storage.GetPortfolioItems(s)), category)
      == Some(Storage.GetPortfolioItemsByCategory(s, category))
  {
    LowerOfLowerCase(category);
    FilterExtensional(s.portfolioItems.rows,
      (x: Portfolio) => Shown(category, x),
      (x: Portfolio) => Storage.InCategory(x, category));
  }

  /** An entry of the viewer's image list. */
  datatype Image = Image(src: string, alt: string)

  /** `lightboxImages`: one image per item of the full list, in order, or
      no images while the list is loading. */
  function LightboxImages(items: Option<seq<Portfolio>>): (r: seq<Image>)
    ensures items.None? ==> r == []
    ensures items.Some? ==> |r| == |items.value|
    ensures items.Some? ==> forall k :: 0 <= k < |r| ==>
      r[k].src == items.value[k].data.imageUrl && r[k].alt == items.value[k].data.name
  {
    match items
    case None => []
    case Some(xs) => seq(|xs|, k requires 0 <= k < |xs| => Image(xs[k].data.imageUrl, xs[k].data.name))
  }

  /** The index a click on `item` opens the viewer at: the position of the
      first item with the same id in the full list. An id that is not in
      the list gives -1 (`findIndex`), which `|| 0` keeps since -1 is not
      falsy; a list that has not loaded gives 0. */
  function ClickIndex(items: Option<seq<Portfolio>>, item: Portfolio): (r: int)
    ensures items.None? ==> r == 0
    ensures items.Some? ==> -1 <= r < |items.value|
    ensures items.Some? && r >= 0 ==> items.value[r].id == item.id
    ensures items.Some? && r >= 0 ==> forall k :: 0 <= k < r ==> items.value[k].id != item.id
    ensures items.Some? && r == -1 ==> forall k :: 0 <= k < |items.value| ==> items.value[k].id != item.id
  {
    match items
    case None => 0
    case Some(xs) =>
      match FindFirst(xs, (p: Portfolio) => p.id == item.id)
      case Some(k) => k
      case None => -1
  }

  /** Clicking an item the page shows opens the viewer inside the image
      list, on the clicked item's own picture, because ids in the list
      are unique. */
  lemma ClickOpensClickedImage(xs: seq<Portfolio>, category: string, item: Portfolio)
    requires IdsIncreasing(xs)
    requires item in FilteredItems(Some(xs), category).value
    ensures var k := ClickIndex(Some(xs), item);
      && Lightbox.InRange(|LightboxImages(Some(xs))|, k)
      && LightboxImages(Some(xs))[k] == Image(item.data.imageUrl, item.data.name)
  {
    var k := ClickIndex(Some(xs), item);
    var j :| 0 <= j < |xs| && xs[j] == item;
    assert k >= 0;
    assert xs[k] == item;
  }
}
