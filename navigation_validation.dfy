/**
 * The request schema for creating a navigation menu
 * (src/app/modules/navigationItems/navigation.validation.ts): a menu name, an
 * active flag and a non-empty list of items, each item carrying a title, a
 * list of categories, a type and, recursively, child items of the same shape.
 *
 * A request body is modelled with every key optional (`None` is a missing key)
 * and values already of the schema's primitive types. Parsing either rejects
 * the body or returns the menu with the schema's defaults filled in.
 */
module NavigationValidation {
  import opened Wrappers

  datatype NavType = Link | Category | MegaMenu

  /** The `data` object of an item as sent. */
  datatype RawData = RawData(title: Option<string>, category: Option<seq<string>>, kind: Option<string>)

  /** An item as sent; `children` is either missing or a list of items. */
  datatype RawItem = RawItem(
    id: Option<string>,
    data: Option<RawData>,
    url: Option<string>,
    isOpenNewTab: Option<bool>,
    children: RawChildren)

  datatype RawChildren = NoChildren | Children(items: seq<RawItem>)

  /** The request body as sent. */
  datatype RawMenu = RawMenu(menuName: Option<string>, isActive: Option<bool>, items: Option<seq<RawItem>>)

  datatype NavData = NavData(title: string, category: seq<string>, kind: NavType)

  datatype NavItem = NavItem(id: Option<string>, data: NavData, url: Option<string>, isOpenNewTab: bool, children: seq<NavItem>)

  datatype Menu = Menu(menuName: string, isActive: bool, items: seq<NavItem>)

  /** The spelling of each item type in a request. */
  function TypeName(t: NavType): string {
    match t
    case Link => "link"
    case Category => "category"
    case MegaMenu => "mega-menu"
  }

  /** The enum check on `data.type`: exactly the three spellings are accepted. */
  function ParseType(s: string): (r: Option<NavType>)
    ensures r.Some? <==> s == "link" || s == "category" || s == "mega-menu"
    ensures r.Some? ==> TypeName(r.value) == s
  {
    if s == "link" then Some(Link)
    else if s == "category" then Some(Category)
    else if s == "mega-menu" then Some(MegaMenu)
    else None
  }

  lemma TypeNameParses(t: NavType)
    ensures ParseType(TypeName(t)) == Some(t)
  {
  }

  /** A title has between 1 and 50 characters. */
  predicate ValidTitle(title: string) {
    1 <= |title| <= 50
  }

  /** A menu name has between 1 and 100 characters. */
  predicate ValidMenuName(name: string) {
    1 <= |name| <= 100
  }

  /** A parsed item is well formed when its title and those of all its descendants are. */
  predicate WellFormedItem(n: NavItem)
    decreases n
  {
    ValidTitle(n.data.title) && forall c :: c in n.children ==> WellFormedItem(c)
  }

  /** A parsed menu is well formed when its name is, it has an item, and every item is. */
  predicate WellFormedMenu(m: Menu) {
    ValidMenuName(m.menuName) && |m.items| > 0 && forall n :: n in m.items ==> WellFormedItem(n)
  }

  /** The `data` object: a title within bounds, a valid type, and no categories unless given. */
  function ParseData(d: RawData): (r: Option<NavData>)
    ensures r.Some? <==> d.title.Some? && ValidTitle(d.title.value) && d.kind.Some? && ParseType(d.kind.value).Some?
    ensures r.Some? ==> Some(r.value.title) == d.title && Some(TypeName(r.value.kind)) == d.kind
    ensures r.Some? ==> r.value.category == d.category.GetOr([])
  {
    if d.title.None? || !ValidTitle(d.title.value) || d.kind.None? then None
    else
      match ParseType(d.kind.value)
      case None => None
      case Some(t) => Some(NavData(d.title.value, d.category.GetOr([]), t))
  }

  /**
   * One item: its `data` must parse, and so must every child; `id` and `url`
   * are kept as sent, and a missing `isOpenNewTab` or `children` takes its
   * default.
   */
  function ParseItem(r: RawItem): (p: Option<NavItem>)
    ensures p.Some? ==> WellFormedItem(p.value)
    ensures p.Some? ==> r.data.Some? && ParseData(r.data.value) == Some(p.value.data)
    ensures p.Some? ==> p.value.id == r.id && p.value.url == r.url && p.value.isOpenNewTab == r.isOpenNewTab.GetOr(false)
    ensures p.Some? <==>
      && r.data.Some? && ParseData(r.data.value).Some?
      && (r.children.Children? ==> forall i :: 0 <= i < |r.children.items| ==> ParseItem(r.children.items[i]).Some?)
    ensures p.Some? && r.children.NoChildren? ==> p.value.children == []
    ensures p.Some? && r.children.Children? ==>
      && |p.value.children| == |r.children.items|
      && forall i :: 0 <= i < |r.children.items| ==> ParseItem(r.children.items[i]) == Some(p.value.children[i])
    decreases r
  {
    if r.data.None? then None
    else
      match ParseData(r.data.value)
      case None => None
      case Some(d) =>
        var children := if r.children.Children? then ParseItems(r.children.items) else Some([]);
        if children.None? then None
        else Some(NavItem(r.id, d, r.url, r.isOpenNewTab.GetOr(false), children.value))
  }

  /** A list of items is accepted exactly when each item is, and parses item by item. */
  function ParseItems(rs: seq<RawItem>): (p: Option<seq<NavItem>>)
    ensures p.Some? <==> forall i :: 0 <= i < |rs| ==> ParseItem(rs[i]).Some?
    ensures p.Some? ==> |p.value| == |rs| && forall i :: 0 <= i < |rs| ==> ParseItem(rs[i]) == Some(p.value[i])
    decreases rs
  {
    if |rs| == 0 then Some([])
    else
      match ParseItem(rs[0])
      case None => None
      case Some(head) =>
        match ParseItems(rs[1..])
        case None => None
        case Some(tail) => Some([head] + tail)
  }

  /**
   * `createNavigationValidationSchema` on a request body: a name within
   * bounds, at least one item, every item valid; `isActive` defaults to true.
   */
  function ParseMenu(m: RawMenu): (p: Option<Menu>)
    ensures p.Some? ==> WellFormedMenu(p.value)
    ensures p.Some? <==>
      && m.menuName.Some? && ValidMenuName(m.menuName.value)
      && m.items.Some? && |m.items.value| > 0
      && forall i :: 0 <= i < |m.items.value| ==> ParseItem(m.items.value[i]).Some?
    ensures p.Some? ==> Some(p.value.menuName) == m.menuName && p.value.isActive == m.isActive.GetOr(true)
    ensures p.Some? ==>
      && |p.value.items| == |m.items.value|
      && forall i :: 0 <= i < |m.items.value| ==> ParseItem(m.items.value[i]) == Some(p.value.items[i])
  {
    if m.menuName.None? || !ValidMenuName(m.menuName.value) || m.items.None? || |m.items.value| == 0 then None
    else
      match ParseItems(m.items.value)
      case None => None
      case Some(items) =>
        assert forall n :: n in items ==> WellFormedItem(n) by {
          forall n | n in items ensures WellFormedItem(n) {
            var i :| 0 <= i < |items| && items[i] == n;
            assert ParseItem(m.items.value[i]) == Some(n);
          }
        }
        Some(Menu(m.menuName.value, m.isActive.GetOr(true), items))
  }

  /** An item written out in full, every default made explicit. */
  function EmbedItem(n: NavItem): RawItem
    decreases n
  {
    RawItem(n.id, Some(EmbedData(n.data)), n.url, Some(n.isOpenNewTab),
            Children(seq(|n.children|, i requires 0 <= i < |n.children| => EmbedItem(n.children[i]))))
  }

  function EmbedData(d: NavData): RawData {
    RawData(Some(d.title), Some(d.category), Some(TypeName(d.kind)))
  }

  function EmbedMenu(m: Menu): RawMenu {
    RawMenu(Some(m.menuName), Some(m.isActive), Some(seq(|m.items|, i requires 0 <= i < |m.items| => EmbedItem(m.items[i]))))
  }

  /** Every well-formed item is accepted, and parsing its full form gives it back. */
  lemma {:induction false} EmbedItemRoundTrip(n: NavItem)
    requires WellFormedItem(n)
    ensures ParseItem(EmbedItem(n)) == Some(n)
    decreases n
  {
    var raw := EmbedItem(n).children.items;
    forall i | 0 <= i < |raw|
      ensures ParseItem(raw[i]) == Some(n.children[i])
    {
      assert n.children[i] in n.children;
      EmbedItemRoundTrip(n.children[i]);
    }
    var parsed := ParseItems(raw);
    assert parsed.Some?;
    assert parsed.value == n.children by {
      forall i | 0 <= i < |raw| ensures parsed.value[i] == n.children[i] {
        assert ParseItem(raw[i]) == Some(parsed.value[i]);
      }
    }
    TypeNameParses(n.data.kind);
  }

  /** Every well-formed menu is accepted, and parsing its full form gives it back. */
  lemma EmbedMenuRoundTrip(m: Menu)
    requires WellFormedMenu(m)
    ensures ParseMenu(EmbedMenu(m)) == Some(m)
  {
    var raw := EmbedMenu(m).items.value;
    forall i | 0 <= i < |raw|
      ensures ParseItem(raw[i]) == Some(m.items[i])
    {
      assert m.items[i] in m.items;
      EmbedItemRoundTrip(m.items[i]);
    }
    var parsed := ParseItems(raw);
    assert parsed.value == m.items by {
      forall i | 0 <= i < |raw| ensures parsed.value[i] == m.items[i] {
        assert ParseItem(raw[i]) == Some(parsed.value[i]);
      }
    }
  }

  /** Parsing is a normal form: a parsed menu, written out in full, parses to itself. */
  lemma ParseMenuNormalizes(m: RawMenu)
    requires ParseMenu(m).Some?
    ensures ParseMenu(EmbedMenu(ParseMenu(m).value)) == ParseMenu(m)
  {
    EmbedMenuRoundTrip(ParseMenu(m).value);
  }

  /** An item sent with only its title and type is accepted with every default filled in. */
  lemma MinimalItemGetsDefaults()
    ensures ParseItem(RawItem(None, Some(RawData(Some("Home"), None, Some("link"))), None, None, NoChildren))
         == Some(NavItem(None, NavData("Home", [], Link), None, false, []))
  {
  }

  /** An item whose child is rejected is rejected, however deep the child sits. */
  lemma RejectedChildRejectsParent(r: RawItem, i: nat)
    requires r.children.Children? && i < |r.children.items|
    requires ParseItem(r.children.items[i]).None?
    ensures ParseItem(r).None?
  {
  }
}
