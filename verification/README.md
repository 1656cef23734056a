# Menu pagination of the browser's popup menu

The popup menu of the iOS browser shows a flat, ordered list of menu items in a
grid that is split into pages of six. It can also show an optional toolbar of
icon buttons. The menu view controller acts as the data source of the menu view.
It answers four questions with plain integer arithmetic:

- how many pages there are;
- how many items a page holds;
- which item sits at a (page, row) coordinate;
- how many toolbar buttons there are.

This project models those answers in Dafny and proves what a menu view can rely on:

- the pages partition the item list;
- every page the host may ask about holds one to six items;
- the (page, row) to flat-index map is a bijection between the valid coordinates
  and the positions `0 .. count-1`, so the item lookup never goes out of bounds;
- the toolbar count is zero when there is no toolbar list, and the list's length otherwise.

Modules:

- `Wrappers` (`wrappers.dfy`): `Option`. It stands for Swift's optional toolbar
  list and for an array lookup that would trap.
- `Pagination` (`pagination.dfy`): the page capacity, `IndexPath`, the page
  count, the items on a page, the flat index and its inverse, and the lemmas
  about them.
- `MenuDataSource` (`menu_data_source.dfy`): the configuration (`MenuItem`,
  `MenuToolbarItem`, `MenuConfiguration`), the item lookup and the toolbar count.
  It also defines `Pages`, an independent layout that cuts the list into chunks
  of six. Lemmas tie that layout to the index arithmetic.

The source computes the page count as `Int(ceil(Double(count) / Double(6)))`.
The model uses integer ceiling division, `(count + 5) / 6`.
`Pagination.PageCountIsRealCeiling` proves that this equals the ceiling of the
exact real quotient for every count.

`numberOfPagesInMenuView` is `Pagination.PageCount` applied to the number of menu items.
`menuView(_:numberOfItemsForPage:)` is `Pagination.ItemsOnPage` applied to that
same number and the page.

## Model

| member | source | states |
|---|---|---|
| Pagination.PageCount | Client/Frontend/Menu/MenuViewController.swift:125-128 | the page count is the least number of six-item pages that hold every item: 6·pages ≥ count, 6·(pages−1) < count when count > 0, and it is zero exactly when there are no items |
| Pagination.CeilingOfQuotient | Client/Frontend/Menu/MenuViewController.swift:127 | the source's route to the page count, rounding the real quotient count / 6 up: the result is at least the quotient and less than the quotient plus one |
| Pagination.PageCountIsRealCeiling | Client/Frontend/Menu/MenuViewController.swift:127 | integer ceiling division equals the real-number ceiling of count / 6 that the source takes |
| Pagination.PageCountIsLeast | Client/Frontend/Menu/MenuViewController.swift:125-128 | no smaller number of pages can hold all the items |
| Pagination.ItemsOnPage | Client/Frontend/Menu/MenuViewController.swift:134-141 | every page before the last holds six items; the last holds count − 6·(pages−1), between 1 and 6; a page at or after the page count gets a count ≤ 0 (unguarded); a negative page gets six |
| Pagination.ItemsOnPageIsMin | Client/Frontend/Menu/MenuViewController.swift:136-140 | the item count of any page is min(6, count − 6·page) |
| Pagination.ItemsBeforePageIsPrefix | Client/Frontend/Menu/MenuViewController.swift:125-141 | the pages before page k together hold min(6·k, count) items |
| Pagination.PagesHoldEveryItem | Client/Frontend/Menu/MenuViewController.swift:125-141 | the item counts summed over all pages equal the number of items, so nothing is lost or duplicated |
| Pagination.MenuItemIndex | Client/Frontend/Menu/MenuViewController.swift:185-188 | for a row inside a page, dividing the flat index by six gives back the page and the remainder gives back the row |
| Pagination.IndexPathFor | Client/Frontend/Menu/MenuViewController.swift:185-188 | the model's own inverse of `getMenuItemIndex` (the source has no such function): the coordinate of a flat index has a non-negative page and a row inside a page |
| Pagination.IndexPathRoundTrip | Client/Frontend/Menu/MenuViewController.swift:185-188 | converting a coordinate to its flat index and back returns the same coordinate |
| Pagination.ValidIndexInBounds | Client/Frontend/Menu/MenuViewController.swift:147 | every coordinate within the page and item counts maps to a flat index in [0, count), so the lookup is safe |
| Pagination.MenuItemIndexInjective | Client/Frontend/Menu/MenuViewController.swift:185-188 | two valid coordinates that map to the same flat index are equal |
| Pagination.MenuItemIndexCovers | Client/Frontend/Menu/MenuViewController.swift:185-188 | every position in [0, count) is the flat index of a valid coordinate |
| Pagination.MenuItemIndexImage | Client/Frontend/Menu/MenuViewController.swift:185-188 | the flat indices of the valid coordinates are exactly the positions 0 .. count−1 |
| Pagination.ValidPositionIff | Client/Frontend/Menu/MenuViewController.swift:134-141 | a coordinate is within the page and item counts exactly when its page is non-negative, its row is below six and its flat index is below the item count |
| Pagination.ValidPositionCount | Client/Frontend/Menu/MenuViewController.swift:125-141 | there are exactly as many valid coordinates as items, so the paged grid shows each item once |
| Pagination.PageScenarios | Client/Frontend/Menu/MenuViewController.swift:125-141 | 0 items give 0 pages; 6 items give 1 full page; 7 items give 2 pages holding 6 and 1 |
| MenuDataSource.Pages | Client/Frontend/Menu/MenuViewController.swift:134-141 | the reference layout cuts the list into pages that each hold one to six items |
| MenuDataSource.PagesPartitionItems | Client/Frontend/Menu/MenuViewController.swift:125-141 | laying the pages end to end gives back the item list |
| MenuDataSource.PageIsSlice | Client/Frontend/Menu/MenuViewController.swift:134-141 | page p of the reference layout is the slice of the items that starts at 6·p and holds the number of items the data source reports for p |
| MenuDataSource.PageIsChunk | Client/Frontend/Menu/MenuViewController.swift:136-140 | page p of the reference layout runs from slot 6·p up to six slots further or the end of the list, whichever comes first |
| MenuDataSource.PagesMatchCounts | Client/Frontend/Menu/MenuViewController.swift:125-141 | the reference layout has as many pages as the page count, and each page has as many items as the data source reports |
| MenuDataSource.ItemForIndexPath | Client/Frontend/Menu/MenuViewController.swift:146-147 | the lookup yields an item exactly when the flat index is inside the list (otherwise the subscript would trap), and the item comes from the list |
| MenuDataSource.ValidPositionShowsItem | Client/Frontend/Menu/MenuViewController.swift:143-147 | at every valid coordinate the lookup yields the item that the reference layout puts in that slot |
| MenuDataSource.ToolbarItemCount | Client/Frontend/Menu/MenuViewController.swift:164-167 | the toolbar count is 0 without a toolbar list and the list's length with one |
| MenuDataSource.ToolbarIndexInRange | Client/Frontend/Menu/MenuViewController.swift:164-174 | every index below the toolbar count names an existing toolbar item, so the fallback button for a missing toolbar list is never reached |

## Left out

- View lifecycle, layout constraints, corner and shadow styling, and theming (`viewDidLoad`, `viewWillLayoutSubviews`): UIKit plumbing that only sets view properties.
- The tap-to-dismiss handler with its clear-then-restore background colour: an animation callback of the host's presentation system.
- Dismissal on a size transition: it depends on a device-idiom query.
- Cell construction in `viewForItemAtIndexPath` beyond the item lookup: it fills a `MenuItemView`, which is not part of this model.
- Toolbar button construction (`buttonForItemAtIndex`): it wraps `UIBarButtonItem`. Only the fact that valid indices never reach its fallback is modelled.
- `numberOfItemsPerRowInMenuView`: it returns the configuration's `numberOfItemsInRow` and computes nothing.
- The empty selection delegates and the long-press handler: they have no behaviour.
- `init(coder:)`: it stops the program by design.
- Pagination.PageCountIsRealCeiling: it uses exact reals, not `Double`. Rounding in `Double(count) / 6.0` is not modelled.
- Pagination.ItemsOnPage: Swift traps when `page * 6` or `page * 6 + 6` leaves `Int` (very large or very negative pages). This is not modelled: integers here are unbounded, so such pages get `count - 6·page` or six instead of a trap.
- Pagination.MenuItemIndex: Swift's trap on overflow of `section * 6 + row` is not modelled, for the same reason.
