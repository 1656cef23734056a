/** The menu controller in its role as data source of the menu view: it owns
    a configuration with the menu items and the optional toolbar items, and
    answers the view's questions about them with the paging arithmetic of
    `Pagination`. */
module MenuDataSource {
  import opened Wrappers
  import opened Pagination

  /** A grid entry: a title and an optional icon, named by its image. */
  datatype MenuItem = MenuItem(title: string, icon: Option<string>)

  /** A toolbar entry: an icon only. */
  datatype MenuToolbarItem = MenuToolbarItem(icon: string)

  /** What the controller is constructed with and never changes: the ordered
      menu items, the toolbar items if there are any, and the number of
      items per grid row. Theme colours and fonts are not modelled. */
  datatype MenuConfiguration = MenuConfiguration(
    menuItems: seq<MenuItem>,
    menuToolbarItems: Option<seq<MenuToolbarItem>>,
    numberOfItemsInRow: int)

  /** The items split into consecutive pages of six, the last one holding
      the rest: a reference layout built by cutting the list rather than by
      index arithmetic. */
  function Pages<T>(items: seq<T>): (pages: seq<seq<T>>)
    ensures forall page :: page in pages ==> 0 < |page| <= MaxItemsPerPage
    decreases |items|
  {
    if |items| == 0 then []
    else if |items| <= MaxItemsPerPage then [items]
    else [items[..MaxItemsPerPage]] + Pages(items[MaxItemsPerPage..])
  }

  /** The pages laid end to end. */
  function Concat<T>(pages: seq<seq<T>>): seq<T> {
    if |pages| == 0 then [] else pages[0] + Concat(pages[1..])
  }

  /** The item the view shows at `path`: the menu item at the flat index of
      the coordinate, or None where that index is outside the list (where
      the array subscript would trap). */
  function ItemForIndexPath(config: MenuConfiguration, path: IndexPath): (item: Option<MenuItem>)
    ensures item.Some? <==> 0 <= MenuItemIndex(path) < |config.menuItems|
    ensures item.Some? ==> item.value in config.menuItems
  {
    var index := MenuItemIndex(path);
    if 0 <= index < |config.menuItems| then Some(config.menuItems[index]) else None
  }

  /** Number of toolbar buttons: none when the configuration has no toolbar
      items, one per item otherwise. */
  function ToolbarItemCount(config: MenuConfiguration): (count: nat)
    ensures config.menuToolbarItems.None? ==> count == 0
    ensures config.menuToolbarItems.Some? ==> count == |config.menuToolbarItems.value|
  {
    match config.menuToolbarItems
    case None => 0
    case Some(toolbarItems) => |toolbarItems|
  }

  /** Laying the pages end to end gives back the item list: the pages
      partition it, losing and repeating nothing. */
  lemma {:induction false} PagesPartitionItems<T>(items: seq<T>)
    ensures Concat(Pages(items)) == items
    decreases |items|
  {
    if |items| > MaxItemsPerPage {
      var rest := items[MaxItemsPerPage..];
      PagesPartitionItems(rest);
      var pages := Pages(items);
      assert pages[1..] == Pages(rest);
      assert items == items[..MaxItemsPerPage] + rest;
    }
  }

  /** Page `page` of the reference layout is the slice of the items that the
      index arithmetic assigns to it: it starts at slot 6 * page and holds
      `ItemsOnPage` items. */
  lemma PageIsSlice<T>(items: seq<T>, page: nat)
    requires page < PageCount(|items|)
    ensures page < |Pages(items)|
    ensures page * MaxItemsPerPage + ItemsOnPage(|items|, page) <= |items|
    ensures Pages(items)[page]
            == items[page * MaxItemsPerPage .. page * MaxItemsPerPage + ItemsOnPage(|items|, page)]
  {
    ItemsOnPageIsMin(|items|, page);
    PageIsChunk(items, page);
  }

  /** Page `page` of the reference layout runs from slot 6 * page up to six
      slots further or the end of the list, whichever comes first. */
  lemma {:induction false} PageIsChunk<T>(items: seq<T>, page: nat)
    requires page * MaxItemsPerPage < |items|
    ensures page < |Pages(items)|
    ensures Pages(items)[page]
            == items[page * MaxItemsPerPage .. Min(page * MaxItemsPerPage + MaxItemsPerPage, |items|)]
    decreases page
  {
    if page > 0 {
      var rest := items[MaxItemsPerPage..];
      var start := (page - 1) * MaxItemsPerPage;
      var end := Min(start + MaxItemsPerPage, |rest|);
      assert start + MaxItemsPerPage == page * MaxItemsPerPage;
      PageIsChunk(rest, page - 1);
      assert Pages(items) == [items[..MaxItemsPerPage]] + Pages(rest);
      SliceOfSuffix(items, MaxItemsPerPage, start, end);
    }
  }

  /** A slice of a suffix is the slice of the whole shifted by the suffix's
      start. */
  lemma SliceOfSuffix<T>(s: seq<T>, k: nat, a: nat, b: nat)
    requires k <= |s| && a <= b <= |s| - k
    ensures s[k..][a..b] == s[k + a .. k + b]
  {
  }

  /** The reference layout has exactly as many pages as the data source
      reports, and each page as many items. */
  lemma {:induction false} PagesMatchCounts<T>(items: seq<T>)
    ensures |Pages(items)| == PageCount(|items|)
    ensures forall page :: 0 <= page < |Pages(items)| ==>
              |Pages(items)[page]| == ItemsOnPage(|items|, page)
    decreases |items|
  {
    if |items| > MaxItemsPerPage {
      PagesMatchCounts(items[MaxItemsPerPage..]);
    }
    forall page | 0 <= page < |Pages(items)|
      ensures |Pages(items)[page]| == ItemsOnPage(|items|, page)
    {
      PageIsSlice(items, page);
    }
  }

  /** At every coordinate a well-behaved host asks for, the view shows a menu
      item, and it is the one the reference layout puts in that slot. */
  lemma ValidPositionShowsItem(config: MenuConfiguration, path: IndexPath)
    requires IsValidPosition(|config.menuItems|, path)
    ensures ItemForIndexPath(config, path).Some?
    ensures path.section < |Pages(config.menuItems)|
    ensures path.row < |Pages(config.menuItems)[path.section]|
    ensures ItemForIndexPath(config, path).value == Pages(config.menuItems)[path.section][path.row]
  {
    ValidIndexInBounds(|config.menuItems|, path);
    PageIsSlice(config.menuItems, path.section);
  }

  /** Every index below the toolbar count names a toolbar item, so the view
      never reaches the fallback button for a missing toolbar list. */
  lemma ToolbarIndexInRange(config: MenuConfiguration, index: int)
    requires 0 <= index < ToolbarItemCount(config)
    ensures config.menuToolbarItems.Some?
    ensures index < |config.menuToolbarItems.value|
  {
  }
}
