/** The paging arithmetic of the menu's item data source: how a flat, ordered
    list of `count` menu items is laid out over pages of six, and how a
    (page, row) coordinate is turned back into a position in that list. */
module Pagination {

  /** Capacity of one menu page, independent of the configuration. */
  const MaxItemsPerPage: int := 6

  /** A coordinate as the menu view hands it to its data source: `section` is
      the page, `row` the slot on that page. */
  datatype IndexPath = IndexPath(section: int, row: int)

  function Min(a: int, b: int): int {
    if a <= b then a else b
  }

  /** Number of pages the menu view shows for `count` items: the least number
      of pages of six that can hold them all. */
  function PageCount(count: nat): (pages: nat)
    ensures pages * MaxItemsPerPage >= count
    ensures count > 0 ==> (pages - 1) * MaxItemsPerPage < count
    ensures pages == 0 <==> count == 0
  {
    (count + MaxItemsPerPage - 1) / MaxItemsPerPage
  }

  /** The page count as the data source computes it: the real quotient
      count / 6 rounded up (exact reals stand in for `Double`). */
  function CeilingOfQuotient(count: nat): (pages: int)
    ensures (count as real) / (MaxItemsPerPage as real) <= pages as real
    ensures (pages as real) < (count as real) / (MaxItemsPerPage as real) + 1.0
  {
    -((-(count as real) / (MaxItemsPerPage as real)).Floor)
  }

  /** Number of items on `page`. A page whose six slots would run past the
      end of the list holds what is left; every other page holds six. Pages
      are not range-checked: one at or after the last gives a count <= 0,
      and a negative one gives six. */
  function ItemsOnPage(count: nat, page: int): (items: int)
    ensures items <= MaxItemsPerPage
    ensures 0 <= page < PageCount(count) - 1 ==> items == MaxItemsPerPage
    ensures count > 0 && page == PageCount(count) - 1 ==>
              items == count - MaxItemsPerPage * (PageCount(count) - 1) && 1 <= items
    ensures 0 <= page < PageCount(count) ==> 1 <= items
    ensures page >= PageCount(count) ==> items <= 0
    ensures page < 0 ==> items == MaxItemsPerPage
  {
    var pageStartIndex := page * MaxItemsPerPage;
    if pageStartIndex + MaxItemsPerPage > count then count - pageStartIndex
    else MaxItemsPerPage
  }

  /** Position in the flat item list of the item shown at `path`. */
  function MenuItemIndex(path: IndexPath): (index: int)
    ensures 0 <= path.row < MaxItemsPerPage ==>
              index / MaxItemsPerPage == path.section && index % MaxItemsPerPage == path.row
  {
    path.section * MaxItemsPerPage + path.row
  }

  /** The coordinate at which the item at flat position `index` is shown. */
  function IndexPathFor(index: nat): (path: IndexPath)
    ensures 0 <= path.section && 0 <= path.row < MaxItemsPerPage
  {
    IndexPath(index / MaxItemsPerPage, index % MaxItemsPerPage)
  }

  /** The coordinates a host that respects the page and item counts asks for. */
  predicate IsValidPosition(count: nat, path: IndexPath) {
    && 0 <= path.section < PageCount(count)
    && 0 <= path.row < ItemsOnPage(count, path.section)
  }

  /** Items held by pages 0 .. page-1 together. */
  function ItemsBeforePage(count: nat, page: nat): int {
    if page == 0 then 0 else ItemsBeforePage(count, page - 1) + ItemsOnPage(count, page - 1)
  }

  /** Integer ceiling division agrees with the real-number ceiling the data
      source takes of count / 6. */
  lemma PageCountIsRealCeiling(count: nat)
    ensures PageCount(count) == CeilingOfQuotient(count)
  {
  }

  /** No smaller number of pages can hold `count` items. */
  lemma PageCountIsLeast(count: nat, pages: nat)
    requires pages * MaxItemsPerPage >= count
    ensures PageCount(count) <= pages
  {
  }

  /** The items on a page are the smaller of six and what is left from the
      page's first slot onward. */
  lemma ItemsOnPageIsMin(count: nat, page: int)
    ensures ItemsOnPage(count, page) == Min(MaxItemsPerPage, count - page * MaxItemsPerPage)
  {
  }

  /** The pages before `page` hold exactly the first min(6 * page, count)
      items, so no item is lost or counted twice. */
  lemma {:induction false} ItemsBeforePageIsPrefix(count: nat, page: nat)
    requires page <= PageCount(count)
    ensures ItemsBeforePage(count, page) == Min(page * MaxItemsPerPage, count)
  {
    if page > 0 {
      ItemsBeforePageIsPrefix(count, page - 1);
    }
  }

  /** Summed over all pages, the item counts give back the number of items. */
  lemma PagesHoldEveryItem(count: nat)
    ensures ItemsBeforePage(count, PageCount(count)) == count
  {
    ItemsBeforePageIsPrefix(count, PageCount(count));
  }

  /** Every coordinate the host may ask for names an item inside the list, so
      the lookup `menuItems[index]` never goes out of bounds. */
  lemma ValidIndexInBounds(count: nat, path: IndexPath)
    requires IsValidPosition(count, path)
    ensures 0 <= MenuItemIndex(path) < count
  {
  }

  /** Two valid coordinates that name the same item are the same coordinate. */
  lemma MenuItemIndexInjective(count: nat, a: IndexPath, b: IndexPath)
    requires IsValidPosition(count, a) && IsValidPosition(count, b)
    requires MenuItemIndex(a) == MenuItemIndex(b)
    ensures a == b
  {
  }

  /** Every item of the list is shown at a valid coordinate, the one
      `IndexPathFor` gives. */
  lemma MenuItemIndexCovers(count: nat, index: nat)
    requires index < count
    ensures IsValidPosition(count, IndexPathFor(index))
    ensures MenuItemIndex(IndexPathFor(index)) == index
  {
  }

  /** `IndexPathFor` undoes `MenuItemIndex` on every coordinate whose row
      fits on a page. */
  lemma IndexPathRoundTrip(path: IndexPath)
    requires 0 <= path.section && 0 <= path.row < MaxItemsPerPage
    ensures IndexPathFor(MenuItemIndex(path)) == path
  {
  }

  /** The valid coordinates map exactly onto the positions 0 .. count-1. */
  lemma MenuItemIndexImage(count: nat)
    ensures forall index :: index in IndexImage(count) <==> 0 <= index < count
  {
    var image := IndexImage(count);
    forall index | 0 <= index < count
      ensures index in image
    {
      MenuItemIndexCovers(count, index);
      assert IndexPathFor(index) in ValidPositions(count);
    }
    forall index | index in image
      ensures 0 <= index < count
    {
      var path :| path in ValidPositions(count) && MenuItemIndex(path) == index;
      ValidIndexInBounds(count, path);
    }
  }

  /** The flat positions named by the valid coordinates for `count` items. */
  function IndexImage(count: nat): set<int> {
    set path | path in ValidPositions(count) :: MenuItemIndex(path)
  }

  /** All valid coordinates for `count` items. */
  function ValidPositions(count: nat): (positions: set<IndexPath>)
    ensures forall path :: path in positions <==> IsValidPosition(count, path)
  {
    set section, row | 0 <= section < PageCount(count) && 0 <= row < ItemsOnPage(count, section)
      :: IndexPath(section, row)
  }

  /** A coordinate is valid exactly when its row fits on a page and its flat
      index falls inside the list. */
  lemma ValidPositionIff(count: nat, path: IndexPath)
    ensures IsValidPosition(count, path) <==>
              && 0 <= path.section
              && 0 <= path.row < MaxItemsPerPage
              && MenuItemIndex(path) < count
  {
  }

  /** There are exactly `count` valid coordinates: one per item. */
  lemma {:induction false} ValidPositionCount(count: nat)
    ensures |ValidPositions(count)| == count
  {
    if count > 0 {
      var last := IndexPathFor(count - 1);
      ValidPositionCount(count - 1);
      forall path
        ensures path in ValidPositions(count) <==> path in ValidPositions(count - 1) || path == last
      {
        ValidPositionIff(count, path);
        ValidPositionIff(count - 1, path);
        if path == last {
          MenuItemIndexCovers(count, count - 1);
        } else if 0 <= path.section && 0 <= path.row < MaxItemsPerPage {
          IndexPathRoundTrip(path);
        }
      }
      assert ValidPositions(count) == ValidPositions(count - 1) + {last};
      MenuItemIndexCovers(count, count - 1);
      assert last !in ValidPositions(count - 1);
    }
  }

  /** The cases the page layout is usually described by. */
  lemma PageScenarios()
    ensures PageCount(0) == 0
    ensures PageCount(6) == 1 && ItemsOnPage(6, 0) == 6
    ensures PageCount(7) == 2 && ItemsOnPage(7, 0) == 6 && ItemsOnPage(7, 1) == 1
  {
  }
}
