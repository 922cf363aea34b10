/** The bottom navigation bar: three items, a click guard while dimmed, and the rule for
    which item is highlighted. */
module Navigation {
  import opened Optional
  import opened Text

  datatype NavItem = NavItem(id: string, caption: string)

  const IdentificationId := "identification"

  /** The items, left to right. */
  const NavItems: seq<NavItem> := [
    NavItem("riskmaps", "Trail"),
    NavItem(IdentificationId, "Detect"),
    NavItem("emergency", "Emergency")
  ]

  /** Three items with distinct ids, Trail, Detect and Emergency in that order. */
  lemma NavItemsDistinct()
    ensures |NavItems| == 3
    ensures forall i, j :: 0 <= i < j < |NavItems| ==> NavItems[i].id != NavItems[j].id
    ensures NavItems[0].caption == "Trail" && NavItems[1].caption == "Detect" && NavItems[2].caption == "Emergency"
  {
  }

  /** An item is highlighted on its own page, and the Detect item on any page whose id
      contains "identification". */
  predicate Highlighted(currentPage: string, id: string)
    ensures currentPage == id ==> Highlighted(currentPage, id)
    ensures Highlighted(currentPage, id) ==> currentPage == id || id == IdentificationId
  {
    currentPage == id || (Includes(currentPage, IdentificationId) && id == IdentificationId)
  }

  /** A click on an item: navigation to its id, unless the bar is dimmed. */
  function ClickTarget(dimmed: bool, id: string): (r: Option<string>)
    ensures r.Some? <==> !dimmed
    ensures r.Some? ==> r.value == id
  {
    if !dimmed then Some(id) else None
  }

  function BarOpacityClass(dimmed: bool): (r: string)
    ensures r == "opacity-50" <==> dimmed
    ensures r == "opacity-100" <==> !dimmed
  {
    if dimmed then "opacity-50" else "opacity-100"
  }

  function CursorClass(dimmed: bool): (r: string)
    ensures r == "cursor-not-allowed" <==> dimmed
    ensures r == "cursor-pointer" <==> !dimmed
  {
    if dimmed then "cursor-not-allowed" else "cursor-pointer"
  }

  /** What one rendered button shows and allows. */
  datatype ItemView = ItemView(id: string, caption: string, highlighted: bool, disabled: bool, cursorClass: string)

  /** The rendered buttons, one per item, in order. */
  function Render(currentPage: string, dimmed: bool): (r: seq<ItemView>)
    ensures |r| == |NavItems|
    ensures forall i :: 0 <= i < |r| ==>
              && r[i].id == NavItems[i].id && r[i].caption == NavItems[i].caption
              && (r[i].highlighted <==> Highlighted(currentPage, NavItems[i].id))
              && (r[i].disabled <==> dimmed)
  {
    seq(|NavItems|, i requires 0 <= i < |NavItems| =>
      ItemView(NavItems[i].id, NavItems[i].caption, Highlighted(currentPage, NavItems[i].id), dimmed, CursorClass(dimmed)))
  }

  /** A dimmed bar is faded and shows the not-allowed cursor; an active one is opaque with
      the pointer cursor. */
  lemma DimmedClasses(dimmed: bool)
    ensures dimmed ==> BarOpacityClass(dimmed) == "opacity-50" && CursorClass(dimmed) == "cursor-not-allowed"
    ensures !dimmed ==> BarOpacityClass(dimmed) == "opacity-100" && CursorClass(dimmed) == "cursor-pointer"
  {
  }

  /** The highlight rule item by item: Trail and Emergency only on their own page, Detect on
      every page whose id contains "identification". */
  lemma HighlightPerItem(currentPage: string)
    ensures Highlighted(currentPage, NavItems[0].id) <==> currentPage == "riskmaps"
    ensures Highlighted(currentPage, NavItems[1].id) <==> Includes(currentPage, IdentificationId)
    ensures Highlighted(currentPage, NavItems[2].id) <==> currentPage == "emergency"
  {
    if currentPage == IdentificationId {
      assert OccursAt(currentPage, IdentificationId, 0);
      IncludesOccurrence(currentPage, IdentificationId, 0);
    }
  }

  /** Whatever the current page, at most one item is highlighted. */
  lemma AtMostOneHighlighted(currentPage: string)
    ensures forall i, j :: 0 <= i < j < |NavItems| ==>
              !(Highlighted(currentPage, NavItems[i].id) && Highlighted(currentPage, NavItems[j].id))
  {
    if Includes(currentPage, IdentificationId) {
      if currentPage == "riskmaps" {
        ShorterNeverIncludes(currentPage, IdentificationId);
      }
      if currentPage == "emergency" {
        ShorterNeverIncludes(currentPage, IdentificationId);
      }
    }
  }
}
