/** The sidebar: navigation links with the active one highlighted, and the family list with
    its colour dots and delete buttons. */
module Sidebar {
  import opened Optional
  import opened Seqs

  /** A navigation link. */
  datatype NavItem = NavItem(name: string, href: string)

  /** `navItems` (the commented-out Stats link is not part of it). */
  const NavItems: seq<NavItem> := [
    NavItem("Dashboard", "/auth/dashboard"),
    NavItem("Calendar", "/auth/calendar"),
    NavItem("My Tasks", "/auth/tasks")
  ]

  /** A link is highlighted iff the current path is its target. */
  predicate IsActive(pathname: string, item: NavItem) {
    pathname == item.href
  }

  /** A family as the sidebar holds it; its colour is optional. */
  datatype SidebarFamily = SidebarFamily(id: int, title: string, color: Option<string>)

  /** The sidebar's state. */
  datatype State = State(families: seq<SidebarFamily>, authError: Option<string>)

  const DeleteFamilyError: string := "Error deleting family. Please try again."

  /** The fallback dot colours. */
  const FallbackColors: seq<string> := ["bg-zinc-950", "bg-zinc-400", "bg-orange-300"]

  /** `getColorClass`: the fallback colours taken in turn by list position. */
  function GetColorClass(index: nat): (c: string)
    ensures c in FallbackColors
    ensures index % 3 == 0 ==> c == "bg-zinc-950"
    ensures index % 3 == 1 ==> c == "bg-zinc-400"
    ensures index % 3 == 2 ==> c == "bg-orange-300"
  {
    FallbackColors[index % |FallbackColors|]
  }

  /** The dot of the family at position `index`: its own colour when it has a non-empty one,
      otherwise the fallback for its position. */
  function DotColor(f: SidebarFamily, index: nat): (c: string)
    ensures f.color.Some? && f.color.value != "" ==> c == f.color.value
    ensures f.color.None? || f.color.value == "" ==> c == GetColorClass(index) && c in FallbackColors
  {
    match f.color
    case Some(col) => if col != "" then col else GetColorClass(index)
    case None => GetColorClass(index)
  }

  /** `handleDeleteFamily`: once the server has deleted it, the family with that id is dropped
      and every other family stays, as often as it was listed; `DeleteFamilySplits` states
      that they keep their order. Otherwise the error is shown. */
  function DeleteFamily(st: State, familyId: int, deleted: bool): (r: State)
    ensures deleted ==> r.authError == st.authError
    ensures deleted ==> forall i :: 0 <= i < |r.families| ==> r.families[i].id != familyId && r.families[i] in st.families
    ensures deleted ==> forall i :: 0 <= i < |st.families| && st.families[i].id != familyId ==> st.families[i] in r.families
    ensures deleted ==> forall f :: multiset(r.families)[f] == if f.id == familyId then 0 else multiset(st.families)[f]
    ensures !deleted ==> r == st.(authError := Some(DeleteFamilyError))
  {
    if deleted then
      var kept := (f: SidebarFamily) => f.id != familyId;
      FilterMembers(st.families, kept);
      FilterMultiplicity(st.families, kept);
      st.(families := Filter(st.families, kept))
    else st.(authError := Some(DeleteFamilyError))
  }

  // ---------------------------------------------------------------------------
  // Lemmas
  // ---------------------------------------------------------------------------

  /** Deleting from a list split in two deletes from each part and keeps the parts in
      order; with the multiplicities `DeleteFamily` states, this fixes the result. */
  lemma DeleteFamilySplits(st: State, a: seq<SidebarFamily>, b: seq<SidebarFamily>, familyId: int)
    ensures DeleteFamily(st.(families := a + b), familyId, true).families
            == DeleteFamily(st.(families := a), familyId, true).families + DeleteFamily(st.(families := b), familyId, true).families
  {
    FilterConcat(a, b, (f: SidebarFamily) => f.id != familyId);
  }

  /** The fallback colour depends only on the position modulo three. */
  lemma ColorClassPeriodic(index: nat)
    ensures GetColorClass(index + 3) == GetColorClass(index)
  {
  }

  /** The link targets are distinct, so at most one link is highlighted for any path. */
  lemma AtMostOneActive(pathname: string, i: nat, j: nat)
    requires i < |NavItems| && j < |NavItems|
    requires IsActive(pathname, NavItems[i]) && IsActive(pathname, NavItems[j])
    ensures i == j
  {
    assert NavItems[0].href[6] != NavItems[1].href[6] && NavItems[1].href[6] != NavItems[2].href[6]
        && NavItems[0].href[6] != NavItems[2].href[6];
  }

  /** Neighbouring families without a colour of their own get different dots. */
  lemma NeighbourDotsDiffer(f: SidebarFamily, g: SidebarFamily, index: nat)
    requires f.color.None? && g.color.None?
    ensures DotColor(f, index) != DotColor(g, index + 1)
  {
  }

  /** Deleting an id no family has changes nothing. */
  lemma DeleteUnknownFamily(st: State, familyId: int)
    requires forall i :: 0 <= i < |st.families| ==> st.families[i].id != familyId
    ensures DeleteFamily(st, familyId, true) == st
  {
    FilterAll(st.families, (f: SidebarFamily) => f.id != familyId);
  }
}
