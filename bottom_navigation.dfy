/** The bottom tab bar: five fixed items, the one for the current path highlighted. */
module BottomNavigation {

  /** An entry of `navItems`; `caption` is the item's `label` (`label` is a Dafny keyword). */
  datatype NavItem = NavItem(caption: string, path: string, active: bool)

  const Labels: seq<string> := ["Home", "Connect", "Posts", "Messages", "Profile"]
  const Paths: seq<string> := ["/home", "/connect", "/posts", "/messages", "/profile"]

  /** `navItems` for the current `location.pathname`. */
  function NavItems(pathname: string): (items: seq<NavItem>)
    ensures |items| == |Paths| == |Labels| == 5
    ensures forall i :: 0 <= i < |items| ==> items[i].caption == Labels[i] && items[i].path == Paths[i]
    ensures forall i :: 0 <= i < |items| ==> (items[i].active <==> pathname == items[i].path)
  {
    [
      NavItem("Home", "/home", pathname == "/home"),
      NavItem("Connect", "/connect", pathname == "/connect"),
      NavItem("Posts", "/posts", pathname == "/posts"),
      NavItem("Messages", "/messages", pathname == "/messages"),
      NavItem("Profile", "/profile", pathname == "/profile")
    ]
  }

  /** No two items share a path. */
  lemma PathsDistinct()
    ensures forall i, j :: 0 <= i < j < |Paths| ==> Paths[i] != Paths[j]
  {
    assert Paths[0][1] == 'h' && Paths[1][1] == 'c' && Paths[2][1] == 'p' && Paths[3][1] == 'm' && Paths[4][1] == 'p';
    assert Paths[2][2] == 'o' && Paths[4][2] == 'r';
  }

  /** The number of highlighted items. */
  function ActiveCount(items: seq<NavItem>): nat {
    if items == [] then 0 else (if items[0].active then 1 else 0) + ActiveCount(items[1..])
  }

  lemma {:induction false} ActiveCountZero(items: seq<NavItem>)
    requires forall i :: 0 <= i < |items| ==> !items[i].active
    ensures ActiveCount(items) == 0
  {
    if items != [] { ActiveCountZero(items[1..]); }
  }

  lemma {:induction false} ActiveCountOne(items: seq<NavItem>, k: nat)
    requires k < |items| && items[k].active
    requires forall i :: 0 <= i < |items| && i != k ==> !items[i].active
    ensures ActiveCount(items) == 1
  {
    if k == 0 {
      ActiveCountZero(items[1..]);
    } else {
      ActiveCountOne(items[1..], k - 1);
    }
  }

  /**
   * Because the paths are distinct, at most one item is highlighted: exactly one
   * when the current path is one of the five, none otherwise (for instance on `/`).
   */
  lemma ActiveItems(pathname: string)
    ensures ActiveCount(NavItems(pathname)) <= 1
    ensures ActiveCount(NavItems(pathname)) == 1 <==> pathname in Paths
  {
    var items := NavItems(pathname);
    PathsDistinct();
    if pathname in Paths {
      var k :| 0 <= k < |Paths| && Paths[k] == pathname;
      ActiveCountOne(items, k);
    } else {
      ActiveCountZero(items);
    }
  }

  /** The path the click handler of item `i` navigates to. */
  function ClickTarget(items: seq<NavItem>, i: nat): (target: string)
    requires i < |items|
    ensures target == items[i].path
  {
    items[i].path
  }

  /**
   * Clicking an item leads to that item's own path, whatever page it was clicked on,
   * and on arrival exactly that item is highlighted.
   */
  lemma ClickHighlightsClickedItem(pathname: string, i: nat)
    requires i < 5
    ensures ClickTarget(NavItems(pathname), i) == Paths[i]
    ensures forall j :: 0 <= j < 5 ==> (NavItems(ClickTarget(NavItems(pathname), i))[j].active <==> j == i)
  {
    PathsDistinct();
  }
}
