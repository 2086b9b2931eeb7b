/**
 * The order options page: the cached option list, the admin gate on
 * editing and deleting, and how a saved option is merged back into the
 * cache (replacing the option with its id, or appending it under a new id).
 */
module OrderOptionsList {
  import opened Common
  import opened EditOrderOptionModal

  const Admin := "admin"

  const NoEditPermission := "You don't have permission to edit order options."
  const NoDeletePermission := "You don't have permission to delete order options."
  const Deleted := "Order option deleted successfully"
  const DeleteFailed := "Failed to delete order option"
  const Updated := "Order option updated successfully"
  const Added := "New order option added successfully"

  /** What `onAction` is called with. */
  datatype Notice = Success(message: string) | Failure(message: string)

  /** `a < b` on option ids; `-Infinity` is below every integer. */
  predicate Below(a: Id, b: Id)
  {
    match (a, b)
    case (Int(x), Int(y)) => x < y
    case (NegInfinity, Int(_)) => true
    case _ => false
  }

  /** `Math.max(...ids)`: `-Infinity` for no arguments. */
  function MaxId(ids: seq<Id>): (m: Id)
    ensures forall k :: 0 <= k < |ids| ==> ids[k] == m || Below(ids[k], m)
    ensures m == NegInfinity || m in ids
    ensures m.NegInfinity? <==> forall k :: 0 <= k < |ids| ==> ids[k] == NegInfinity
  {
    if |ids| == 0 then NegInfinity
    else
      var rest := MaxId(ids[1..]);
      assert forall k :: 1 <= k < |ids| ==> ids[k] == ids[1..][k - 1];
      match (ids[0], rest)
      case (Int(x), Int(y)) => if x >= y then ids[0] else rest
      case (Int(_), NegInfinity) => ids[0]
      case (NegInfinity, _) => rest
  }

  /** `id + 1`; `-Infinity + 1` is `-Infinity`. */
  function Succ(id: Id): (r: Id)
    ensures id.Int? ==> r == Int(id.value + 1) && Below(id, r)
    ensures id.NegInfinity? ==> r == NegInfinity
  {
    match id
    case Int(n) => Int(n + 1)
    case NegInfinity => NegInfinity
  }

  function Ids(options: seq<OrderOption>): (ids: seq<Id>)
    ensures |ids| == |options| && forall k :: 0 <= k < |options| ==> ids[k] == options[k].id
  {
    seq(|options|, k requires 0 <= k < |options| => options[k].id)
  }

  /** `Math.max(...(orderOptions?.map(o => o.id) || [0])) + 1`. */
  function NextId(options: Option<seq<OrderOption>>): (r: Id)
  {
    Succ(MaxId(if options.Some? then Ids(options.value) else [Int(0)]))
  }

  /** Before the list has loaded the new id is `1`; for a loaded empty list it is `-Infinity`. */
  lemma NextIdOfNothing()
    ensures NextId(None) == Int(1)
    ensures NextId(Some([])) == NegInfinity
  {
    assert MaxId([Int(0)]) == Int(0) by {
      assert [Int(0)][1..] == [];
    }
  }

  /** When some loaded option has an integer id, the new id is above every loaded id. */
  lemma NextIdAboveAll(options: seq<OrderOption>)
    requires exists o :: o in options && o.id.Int?
    ensures forall o :: o in options ==> Below(o.id, NextId(Some(options)))
  {
    var ids := Ids(options);
    var m := MaxId(ids);
    var o :| o in options && o.id.Int?;
    var k :| 0 <= k < |options| && options[k] == o;
    assert ids[k] == o.id;
    assert m.Int?;
    forall p | p in options
      ensures Below(p.id, NextId(Some(options)))
    {
      var j :| 0 <= j < |options| && options[j] == p;
      assert ids[j] == p.id;
    }
  }

  /** `orderOptions?.filter(option => option.id !== id) || []`. */
  function WithoutId(options: Option<seq<OrderOption>>, id: Id): (r: seq<OrderOption>)
    ensures options.None? ==> r == []
    ensures options.Some? ==> |r| <= |options.value|
    ensures forall o :: o in r <==> options.Some? && o in options.value && o.id != id
  {
    if options.None? then [] else Filter(options.value, id)
  }

  /** The filter on a loaded list. */
  function Filter(options: seq<OrderOption>, id: Id): (r: seq<OrderOption>)
    ensures |r| <= |options|
    ensures forall o :: o in r <==> o in options && o.id != id
  {
    if |options| == 0 then []
    else (if options[0].id != id then [options[0]] else []) + Filter(options[1..], id)
  }

  /** Deleting is idempotent, and the options that stay keep their order. */
  lemma {:induction false} FilterAgain(options: seq<OrderOption>, id: Id)
    ensures Filter(Filter(options, id), id) == Filter(options, id)
  {
    if |options| > 0 {
      FilterAgain(options[1..], id);
      var rest := Filter(options[1..], id);
      if options[0].id != id {
        assert Filter(options, id) == [options[0]] + rest;
        assert ([options[0]] + rest)[1..] == rest;
      } else {
        assert Filter(options, id) == rest;
      }
    }
  }

  /** `orderOptions?.map(option => option.id === edited.id ? edited : option) || []`. */
  function Replace(options: Option<seq<OrderOption>>, edited: OrderOption): (r: seq<OrderOption>)
    ensures options.None? ==> r == []
    ensures options.Some? ==> (|r| == |options.value| &&
      forall k :: 0 <= k < |r| ==> r[k] == (if options.value[k].id == edited.id then edited else options.value[k]))
  {
    if options.None? then []
    else
      var list := options.value;
      seq(|list|, k requires 0 <= k < |list| => if list[k].id == edited.id then edited else list[k])
  }

  /** An update replaces every option with the edited id, and only those. */
  lemma ReplaceMembers(options: seq<OrderOption>, edited: OrderOption)
    ensures forall o :: o in Replace(Some(options), edited) ==> o == edited || (o in options && o.id != edited.id)
    ensures (exists o :: o in options && o.id == edited.id) <==> edited in Replace(Some(options), edited)
  {
    var r := Replace(Some(options), edited);
    if edited in r {
      var k :| 0 <= k < |r| && r[k] == edited;
      assert options[k] in options && options[k].id == edited.id;
    }
    if exists o :: o in options && o.id == edited.id {
      var o :| o in options && o.id == edited.id;
      var k :| 0 <= k < |options| && options[k] == o;
      assert r[k] == edited;
    }
  }

  /** `{ ...edited, id: NextId }` appended to `orderOptions || []`. */
  function Append(options: Option<seq<OrderOption>>, edited: OrderOption): (r: seq<OrderOption>)
    ensures var before := if options.Some? then options.value else [];
      |r| == |before| + 1 && r[..|before|] == before && r[|before|] == edited.(id := NextId(options))
  {
    (if options.Some? then options.value else []) + [edited.(id := NextId(options))]
  }

  /**
   * A new option saved into a list that has an integer id gets an id no
   * other option has, so saving it again after an edit replaces it alone.
   */
  lemma AppendedThenUpdated(options: seq<OrderOption>, edited: OrderOption, changed: OrderOption)
    requires exists o :: o in options && o.id.Int?
    requires changed.id == NextId(Some(options))
    ensures Replace(Some(Append(Some(options), edited)), changed) == options + [changed]
  {
    NextIdAboveAll(options);
    var a := Append(Some(options), edited);
    var r := Replace(Some(a), changed);
    forall k | 0 <= k < |options|
      ensures r[k] == options[k]
    {
      assert options[k] in options;
      assert a[k] == options[k];
    }
    assert r == options + [changed];
  }

  /** The page's state: the cached list (`None` until loaded) and the option in the dialog. */
  class OptionsPage {
    var orderOptions: Option<seq<OrderOption>>
    var editingOption: Option<OrderOption>
    const role: string

    constructor (role: string, loaded: Option<seq<OrderOption>>)
      ensures orderOptions == loaded && editingOption.None? && this.role == role
    {
      orderOptions := loaded;
      editingOption := None;
      this.role := role;
    }

    /** `handleEdit`: an administrator opens the dialog; anyone else gets an error. */
    method HandleEdit(option: OrderOption) returns (notice: Option<Notice>)
      modifies this`editingOption
      ensures role == Admin ==> editingOption == Some(option) && notice.None?
      ensures role != Admin ==> editingOption == old(editingOption) && notice == Some(Failure(NoEditPermission))
    {
      if role == Admin {
        editingOption := Some(option);
        notice := None;
      } else {
        notice := Some(Failure(NoEditPermission));
      }
    }

    /**
     * `handleDelete`: an administrator's delete drops every option with
     * `id` from the cache; `fault` says whether the cache update rejects.
     */
    method HandleDelete(id: Id, fault: bool) returns (notice: Notice)
      modifies this`orderOptions
      ensures role == Admin && !fault ==> orderOptions == Some(WithoutId(old(orderOptions), id)) && notice == Success(Deleted)
      ensures role == Admin && fault ==> orderOptions == old(orderOptions) && notice == Failure(DeleteFailed)
      ensures role != Admin ==> orderOptions == old(orderOptions) && notice == Failure(NoDeletePermission)
    {
      if role != Admin {
        return Failure(NoDeletePermission);
      }
      if fault {
        return Failure(DeleteFailed);
      }
      orderOptions := Some(WithoutId(orderOptions, id));
      notice := Success(Deleted);
    }

    /** `handleSave`: a truthy id updates, id `0` appends; the dialog closes either way. */
    method HandleSave(edited: OrderOption) returns (notice: Notice)
      modifies this`orderOptions, this`editingOption
      ensures editingOption.None?
      ensures edited.id.Truthy() ==> orderOptions == Some(Replace(old(orderOptions), edited)) && notice == Success(Updated)
      ensures !edited.id.Truthy() ==> orderOptions == Some(Append(old(orderOptions), edited)) && notice == Success(Added)
    {
      if edited.id.Truthy() {
        orderOptions := Some(Replace(orderOptions, edited));
        notice := Success(Updated);
      } else {
        orderOptions := Some(Append(orderOptions, edited));
        notice := Success(Added);
      }
      editingOption := None;
    }

    /** The dialog's `onClose`. */
    method CloseDialog()
      modifies this`editingOption
      ensures editingOption.None?
    {
      editingOption := None;
    }
  }
}
