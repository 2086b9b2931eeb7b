/**
 * The recipe (BOM) list page: recipes grouped under the menu item they
 * belong to, the set of expanded rows, and the delete confirmation.
 *
 * The grouping record is keyed by menu item id. Ids are non-negative
 * integers, so they are array-index keys and `Object.values` lists the
 * groups in ascending id order; the model keeps the accumulator as that
 * ascending list.
 */
module BomList {
  import opened Common

  /** The part of a menu item a recipe carries. */
  datatype MenuRef = MenuRef(id: nat, nameTH: string, nameEN: string)

  /**
   * A recipe as the list fetches it: `menuItem` when it belongs to a menu
   * item, `choiceMenu` the `optionChoice.orderOption.menuItem` it reaches
   * through an option choice.
   */
  datatype Bom = Bom(id: int, name: string, menuItem: Option<MenuRef>, choiceMenu: Option<MenuRef>)

  /** `{ menuItem, mainBom, optionBoms }`. */
  datatype Group = Group(menuItem: MenuRef, mainBom: Option<Bom>, optionBoms: seq<Bom>)

  /** The menu item a recipe is filed under, if any: its own first, then its choice's. */
  function LinkOf(b: Bom): Option<MenuRef>
  {
    if b.menuItem.Some? then b.menuItem else b.choiceMenu
  }

  /** The groups' ids strictly increase, so each menu item has at most one group. */
  predicate Ascending(gs: seq<Group>)
  {
    forall i, j :: 0 <= i < j < |gs| ==> gs[i].menuItem.id < gs[j].menuItem.id
  }

  /** Where a group for `id` is or would go: the first group whose id is not below `id`. */
  function Slot(gs: seq<Group>, id: nat): (i: nat)
    ensures i <= |gs|
    ensures forall j :: 0 <= j < i ==> gs[j].menuItem.id < id
    ensures i < |gs| ==> gs[i].menuItem.id >= id
  {
    if |gs| == 0 || gs[0].menuItem.id >= id then 0 else 1 + Slot(gs[1..], id)
  }

  /** The group a recipe lands in after it is added to `g`. */
  function Filed(g: Group, b: Bom): Group
  {
    if b.menuItem.Some? then g.(mainBom := Some(b)) else g.(optionBoms := g.optionBoms + [b])
  }

  /** One step of the `reduce`: a recipe with no link is dropped. */
  function Place(gs: seq<Group>, b: Bom): seq<Group>
  {
    var link := LinkOf(b);
    if link.None? then gs
    else
      var i := Slot(gs, link.value.id);
      if i < |gs| && gs[i].menuItem.id == link.value.id then gs[i := Filed(gs[i], b)]
      else gs[..i] + [Filed(Group(link.value, None, []), b)] + gs[i..]
  }

  /** `groupBomsByMenuItem`, as the list of the record's values. */
  function Grouped(boms: seq<Bom>): seq<Group>
  {
    if |boms| == 0 then [] else Place(Grouped(boms[..|boms| - 1]), boms[|boms| - 1])
  }

  /** The last recipe that belongs to menu item `id` directly. */
  function MainFor(boms: seq<Bom>, id: nat): Option<Bom>
  {
    if |boms| == 0 then None
    else
      var b := boms[|boms| - 1];
      if b.menuItem.Some? && b.menuItem.value.id == id then Some(b) else MainFor(boms[..|boms| - 1], id)
  }

  /** The recipes that reach menu item `id` only through an option choice, in input order. */
  function OptionsFor(boms: seq<Bom>, id: nat): seq<Bom>
  {
    if |boms| == 0 then []
    else
      var b := boms[|boms| - 1];
      OptionsFor(boms[..|boms| - 1], id) +
        (if b.menuItem.None? && b.choiceMenu.Some? && b.choiceMenu.value.id == id then [b] else [])
  }

  /** Some recipe is filed under menu item `id`. */
  predicate Linked(boms: seq<Bom>, id: nat)
  {
    exists k :: 0 <= k < |boms| && LinkOf(boms[k]).Some? && LinkOf(boms[k]).value.id == id
  }

  predicate HasGroup(gs: seq<Group>, id: nat)
  {
    exists i :: 0 <= i < |gs| && gs[i].menuItem.id == id
  }

  /** The filter of `validBomGroups`. */
  predicate Shown(g: Group)
  {
    g.mainBom.Some? || |g.optionBoms| > 0
  }

  /** What the grouping record says about `boms`. */
  ghost predicate Describes(gs: seq<Group>, boms: seq<Bom>)
  {
    Ascending(gs) &&
    (forall i :: 0 <= i < |gs| ==>
      gs[i].mainBom == MainFor(boms, gs[i].menuItem.id) &&
      gs[i].optionBoms == OptionsFor(boms, gs[i].menuItem.id) &&
      Shown(gs[i])) &&
    (forall id: nat :: HasGroup(gs, id) <==> Linked(boms, id))
  }

  lemma LinkedSnoc(boms: seq<Bom>, b: Bom, id: nat)
    ensures Linked(boms + [b], id) <==> Linked(boms, id) || (LinkOf(b).Some? && LinkOf(b).value.id == id)
  {
    var all := boms + [b];
    if Linked(boms, id) {
      var k :| 0 <= k < |boms| && LinkOf(boms[k]).Some? && LinkOf(boms[k]).value.id == id;
      assert all[k] == boms[k];
    }
    if Linked(all, id) {
      var k :| 0 <= k < |all| && LinkOf(all[k]).Some? && LinkOf(all[k]).value.id == id;
      if k < |boms| {
        assert all[k] == boms[k];
      }
    }
    if LinkOf(b).Some? && LinkOf(b).value.id == id {
      assert all[|boms|] == b;
    }
  }

  /** A menu item nothing is filed under has neither a main recipe nor option recipes. */
  lemma {:induction false} UnlinkedIsEmpty(boms: seq<Bom>, id: nat)
    requires !Linked(boms, id)
    ensures MainFor(boms, id).None? && OptionsFor(boms, id) == []
  {
    if |boms| != 0 {
      var init, b := boms[..|boms| - 1], boms[|boms| - 1];
      assert boms == init + [b];
      LinkedSnoc(init, b, id);
      UnlinkedIsEmpty(init, id);
    }
  }

  /** What one more recipe changes in `MainFor` and `OptionsFor`. */
  lemma ForSnoc(boms: seq<Bom>, b: Bom, id: nat)
    ensures MainFor(boms + [b], id) ==
      (if b.menuItem.Some? && b.menuItem.value.id == id then Some(b) else MainFor(boms, id))
    ensures OptionsFor(boms + [b], id) ==
      OptionsFor(boms, id) + (if b.menuItem.None? && b.choiceMenu.Some? && b.choiceMenu.value.id == id then [b] else [])
  {
    assert (boms + [b])[..|boms|] == boms;
  }

  /** A recipe with no menu item is dropped and changes nothing. */
  lemma PlaceDropped(gs: seq<Group>, boms: seq<Bom>, b: Bom)
    requires Describes(gs, boms) && LinkOf(b).None?
    ensures Describes(Place(gs, b), boms + [b])
  {
    forall id: nat ensures Linked(boms + [b], id) <==> Linked(boms, id)
                   ensures MainFor(boms + [b], id) == MainFor(boms, id)
                   ensures OptionsFor(boms + [b], id) == OptionsFor(boms, id)
    {
      LinkedSnoc(boms, b, id);
      ForSnoc(boms, b, id);
    }
  }

  /** A recipe for a menu item that has a group is filed into that group. */
  lemma PlaceFound(gs: seq<Group>, boms: seq<Bom>, b: Bom, i: nat)
    requires Describes(gs, boms) && LinkOf(b).Some?
    requires i == Slot(gs, LinkOf(b).value.id) && i < |gs| && gs[i].menuItem.id == LinkOf(b).value.id
    ensures Describes(Place(gs, b), boms + [b])
  {
    assert Place(gs, b) == gs[i := Filed(gs[i], b)];
    FiledRecords(gs, boms, b, i);
    FiledCovers(gs, boms, b, i);
  }

  /** Filing into the existing group `i` keeps every group's recipes right. */
  lemma FiledRecords(gs: seq<Group>, boms: seq<Bom>, b: Bom, i: nat)
    requires Describes(gs, boms) && LinkOf(b).Some?
    requires i < |gs| && gs[i].menuItem.id == LinkOf(b).value.id
    ensures var r, all := gs[i := Filed(gs[i], b)], boms + [b];
      Ascending(r) &&
      forall j :: 0 <= j < |r| ==>
        r[j].mainBom == MainFor(all, r[j].menuItem.id) &&
        r[j].optionBoms == OptionsFor(all, r[j].menuItem.id) &&
        Shown(r[j])
  {
    var r, all := gs[i := Filed(gs[i], b)], boms + [b];
    forall j | 0 <= j < |r|
      ensures r[j].mainBom == MainFor(all, r[j].menuItem.id)
      ensures r[j].optionBoms == OptionsFor(all, r[j].menuItem.id)
      ensures Shown(r[j])
    {
      ForSnoc(boms, b, r[j].menuItem.id);
    }
  }

  /** Filing into the existing group `i` keeps one group per linked menu item. */
  lemma FiledCovers(gs: seq<Group>, boms: seq<Bom>, b: Bom, i: nat)
    requires Describes(gs, boms) && LinkOf(b).Some?
    requires i < |gs| && gs[i].menuItem.id == LinkOf(b).value.id
    ensures forall id: nat :: HasGroup(gs[i := Filed(gs[i], b)], id) <==> Linked(boms + [b], id)
  {
    var r, all := gs[i := Filed(gs[i], b)], boms + [b];
    forall id: nat ensures HasGroup(r, id) <==> Linked(all, id)
    {
      LinkedSnoc(boms, b, id);
      if HasGroup(gs, id) {
        var j :| 0 <= j < |gs| && gs[j].menuItem.id == id;
        assert r[j].menuItem.id == id;
      }
      if HasGroup(r, id) {
        var j :| 0 <= j < |r| && r[j].menuItem.id == id;
        assert gs[j].menuItem.id == id;
      }
    }
  }

  /** The elements of `gs` with `g` inserted at `i`. */
  lemma InsertedAt(gs: seq<Group>, g: Group, i: nat)
    requires i <= |gs|
    ensures |gs[..i] + [g] + gs[i..]| == |gs| + 1
    ensures forall j :: 0 <= j < |gs| + 1 ==>
      (gs[..i] + [g] + gs[i..])[j] == (if j < i then gs[j] else if j == i then g else gs[j - 1])
  {
  }

  /** Inserting at the place that keeps the ids ascending keeps them ascending. */
  lemma InsertAscending(gs: seq<Group>, g: Group, i: nat)
    requires Ascending(gs) && i <= |gs| && (forall j :: 0 <= j < i ==> gs[j].menuItem.id < g.menuItem.id)
    requires i < |gs| ==> gs[i].menuItem.id > g.menuItem.id
    ensures Ascending(gs[..i] + [g] + gs[i..])
    ensures !HasGroup(gs, g.menuItem.id)
  {
    var r := gs[..i] + [g] + gs[i..];
    InsertedAt(gs, g, i);
    forall j, k | 0 <= j < k < |r| ensures r[j].menuItem.id < r[k].menuItem.id
    {
      if j < i && k > i + 1 {
        assert gs[i].menuItem.id < gs[k - 1].menuItem.id;
      }
    }
    forall j | 0 <= j < |gs| ensures gs[j].menuItem.id != g.menuItem.id
    {
      if j > i {
        assert gs[i].menuItem.id < gs[j].menuItem.id;
      }
    }
  }

  /**
   * A recipe for a menu item with no group opens one at position `i`, the
   * place that keeps the ids ascending.
   */
  lemma InsertKeeps(gs: seq<Group>, boms: seq<Bom>, b: Bom, link: MenuRef, i: nat)
    requires Describes(gs, boms) && LinkOf(b) == Some(link)
    requires i <= |gs| && (forall j :: 0 <= j < i ==> gs[j].menuItem.id < link.id)
    requires i < |gs| ==> gs[i].menuItem.id > link.id
    ensures Describes(gs[..i] + [Filed(Group(link, None, []), b)] + gs[i..], boms + [b])
  {
    var g := Filed(Group(link, None, []), b);
    InsertAscending(gs, g, i);
    InsertedRecords(gs, boms, b, link, i);
    InsertedCovers(gs, boms, b, link, i);
  }

  /** The opened group and every old one carry the right recipes. */
  lemma InsertedRecords(gs: seq<Group>, boms: seq<Bom>, b: Bom, link: MenuRef, i: nat)
    requires Describes(gs, boms) && LinkOf(b) == Some(link)
    requires i <= |gs| && !HasGroup(gs, link.id)
    ensures var r, all := gs[..i] + [Filed(Group(link, None, []), b)] + gs[i..], boms + [b];
      forall j :: 0 <= j < |r| ==>
        r[j].mainBom == MainFor(all, r[j].menuItem.id) &&
        r[j].optionBoms == OptionsFor(all, r[j].menuItem.id) &&
        Shown(r[j])
  {
    var all := boms + [b];
    var g := Filed(Group(link, None, []), b);
    var r := gs[..i] + [g] + gs[i..];
    InsertedAt(gs, g, i);
    UnlinkedIsEmpty(boms, link.id);
    forall j | 0 <= j < |r|
      ensures r[j].mainBom == MainFor(all, r[j].menuItem.id)
      ensures r[j].optionBoms == OptionsFor(all, r[j].menuItem.id)
      ensures Shown(r[j])
    {
      ForSnoc(boms, b, r[j].menuItem.id);
    }
  }

  /** After the insertion there is a group exactly for each linked menu item. */
  lemma InsertedCovers(gs: seq<Group>, boms: seq<Bom>, b: Bom, link: MenuRef, i: nat)
    requires Describes(gs, boms) && LinkOf(b) == Some(link) && i <= |gs|
    ensures forall id: nat ::
      HasGroup(gs[..i] + [Filed(Group(link, None, []), b)] + gs[i..], id) <==> Linked(boms + [b], id)
  {
    var all := boms + [b];
    var g := Filed(Group(link, None, []), b);
    var r := gs[..i] + [g] + gs[i..];
    InsertedAt(gs, g, i);
    forall id: nat ensures HasGroup(r, id) <==> Linked(all, id)
    {
      LinkedSnoc(boms, b, id);
      if HasGroup(gs, id) {
        var j :| 0 <= j < |gs| && gs[j].menuItem.id == id;
        assert r[if j < i then j else j + 1].menuItem.id == id;
      }
      if HasGroup(r, id) {
        var j :| 0 <= j < |r| && r[j].menuItem.id == id;
        if j != i {
          assert gs[if j < i then j else j - 1].menuItem.id == id;
        }
      }
      if id == link.id {
        assert r[i].menuItem.id == id;
      }
    }
  }

  /** Adding one recipe keeps the description. */
  lemma PlaceKeeps(gs: seq<Group>, boms: seq<Bom>, b: Bom)
    requires Describes(gs, boms)
    ensures Describes(Place(gs, b), boms + [b])
  {
    var link := LinkOf(b);
    if link.None? {
      PlaceDropped(gs, boms, b);
    } else {
      var i := Slot(gs, link.value.id);
      if i < |gs| && gs[i].menuItem.id == link.value.id {
        PlaceFound(gs, boms, b, i);
      } else {
        if i < |gs| {
          assert gs[i].menuItem.id > link.value.id;
        }
        InsertKeeps(gs, boms, b, link.value, i);
      }
    }
  }

  /**
   * The record lists one group per menu item that some recipe is filed
   * under, in ascending id order; a group's main recipe is the last recipe
   * of that menu item and its option recipes are those reaching it through
   * a choice, in input order; and every group has something to show.
   */
  lemma {:induction false} GroupsByMenuItem(boms: seq<Bom>)
    ensures Describes(Grouped(boms), boms)
  {
    if |boms| != 0 {
      var init, b := boms[..|boms| - 1], boms[|boms| - 1];
      assert boms == init + [b];
      GroupsByMenuItem(init);
      PlaceKeeps(Grouped(init), init, b);
    }
  }

  /** `groupBomsByMenuItem`: the `reduce` that fills the record group by group. */
  method GroupBoms(boms: seq<Bom>) returns (groups: seq<Group>)
    ensures groups == Grouped(boms)
  {
    groups := [];
    var k := 0;
    while k < |boms|
      invariant 0 <= k <= |boms|
      invariant groups == Grouped(boms[..k])
    {
      var b := boms[k];
      assert boms[..k + 1][..k] == boms[..k];
      ghost var before := groups;
      var link := LinkOf(b);
      if link.Some? {
        var menuId := link.value.id;
        var i := Slot(groups, menuId);
        var g: Group;
        ghost var found := i < |groups| && groups[i].menuItem.id == menuId;
        if i < |groups| && groups[i].menuItem.id == menuId {
          g := groups[i];
        } else {
          g := Group(link.value, None, []);
          groups := groups[..i] + [g] + groups[i..];
        }
        ghost var target := g;
        if b.menuItem.Some? {
          g := g.(mainBom := Some(b));
        } else {
          g := g.(optionBoms := g.optionBoms + [b]);
        }
        assert g == Filed(target, b);
        groups := groups[i := g];
        if !found {
          assert groups == before[..i] + [g] + before[i..];
        }
      }
      assert groups == Place(before, b);
      k := k + 1;
    }
    assert boms[..k] == boms;
  }

  /** `validBomGroups`: the groups with a menu item and something to show. */
  function ValidBomGroups(gs: seq<Group>): (r: seq<Group>)
    ensures forall g :: g in r <==> g in gs && Shown(g)
  {
    if |gs| == 0 then []
    else (if Shown(gs[0]) then [gs[0]] else []) + ValidBomGroups(gs[1..])
  }

  /** The filter of `validBomGroups` never removes a group the grouping produced. */
  lemma {:induction false} AllGroupsValid(boms: seq<Bom>)
    ensures ValidBomGroups(Grouped(boms)) == Grouped(boms)
  {
    GroupsByMenuItem(boms);
    KeepsShown(Grouped(boms));
  }

  lemma {:induction false} KeepsShown(gs: seq<Group>)
    requires forall i :: 0 <= i < |gs| ==> Shown(gs[i])
    ensures ValidBomGroups(gs) == gs
  {
    if |gs| != 0 {
      KeepsShown(gs[1..]);
    }
  }

  /** `toggleExpand`: drop the id when it is expanded, append it otherwise. */
  function Toggle(expanded: seq<int>, id: int): (r: seq<int>)
    ensures id in r <==> id !in expanded
    ensures forall x :: x != id ==> (x in r <==> x in expanded)
  {
    if id in expanded then Without(expanded, id) else expanded + [id]
  }

  /** `prev.filter((item) => item !== id)`. */
  function Without(s: seq<int>, id: int): (r: seq<int>)
    ensures forall x :: x in r <==> x in s && x != id
    ensures |r| <= |s|
  {
    if |s| == 0 then []
    else (if s[0] != id then [s[0]] else []) + Without(s[1..], id)
  }

  /** Dropping an id keeps the other ids in their order. */
  lemma {:induction false} WithoutAppend(a: seq<int>, b: seq<int>, id: int)
    ensures Without(a + b, id) == Without(a, id) + Without(b, id)
  {
    if a == [] {
      assert a + b == b;
    } else {
      assert (a + b)[1..] == a[1..] + b;
      WithoutAppend(a[1..], b, id);
    }
  }

  /**
   * Toggling keeps the order of the other expanded ids: an expanded id is
   * filtered out of its place, a new one goes last.
   */
  lemma ToggleOrder(a: seq<int>, b: seq<int>, id: int)
    ensures id in a + b ==> Toggle(a + b, id) == Without(a, id) + Without(b, id)
    ensures id !in a + b ==> Toggle(a + b, id) == a + b + [id]
  {
    WithoutAppend(a, b, id);
  }

  /** Toggling the same row twice leaves the same rows expanded. */
  lemma ToggleTwice(expanded: seq<int>, id: int)
    ensures forall x :: x in Toggle(Toggle(expanded, id), id) <==> x in expanded
  {
  }

  /** The delete confirmation dialog's state. */
  datatype Confirmation = Confirmation(isOpen: bool, bomId: Option<int>)

  /** What `handleConfirmDelete` does: the delete it issues, if any, and the new dialog state. */
  datatype Confirmed = Confirmed(deleted: Option<int>, next: Confirmation)

  /**
   * `handleConfirmDelete`: deletes only a truthy id, so never id 0, and
   * always closes and clears the dialog.
   */
  function ConfirmDelete(c: Confirmation): (r: Confirmed)
    ensures r.deleted.Some? <==> c.bomId.Some? && c.bomId.value != 0
    ensures r.deleted.Some? ==> r.deleted == c.bomId
    ensures r.next == Confirmation(false, None)
  {
    Confirmed(if c.bomId.Some? && c.bomId.value != 0 then c.bomId else None, Confirmation(false, None))
  }
}
