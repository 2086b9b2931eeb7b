/**
 * The dialog that edits one order option (a question such as "spiciness"
 * with its choices): the state it opens with, the new-choice row, removing
 * and renaming choices, and the option it hands back on submit.
 */
module EditOrderOptionModal {
  import opened Common
  import opened Js

  /**
   * An option id as a JavaScript number: an integer, or `-Infinity`, the
   * id the options list computes from `Math.max()` with no arguments.
   */
  datatype Id = Int(value: int) | NegInfinity
  {
    /** Only `0` is falsy. */
    predicate Truthy()
    {
      this != Int(0)
    }
  }

  const Single := "single"
  const Multiple := "multiple"

  /** A choice; ids of choices added here come from `Math.random()`. */
  datatype Choice = Choice(id: real, nameTH: string, nameEN: string, orderOptionId: Id)

  /** An option; `kind` is the `type` field. */
  datatype OrderOption = OrderOption(id: Id, nameTH: string, nameEN: string, kind: string,
                                     menuItemId: int, choices: seq<Choice>)

  /** The row where a new choice is typed. */
  datatype NewChoice = NewChoice(nameTH: string, nameEN: string)

  const BlankRow := NewChoice("", "")

  /** The option's inputs named by `handleInputChange`. */
  datatype Field = NameTH | NameEN

  /** `choice.nameTH.trim() || choice.nameEN.trim()`. */
  predicate Named(c: Choice)
  {
    Trim(c.nameTH) != "" || Trim(c.nameEN) != ""
  }

  /** `choices.filter(choice => choice.nameTH.trim() || choice.nameEN.trim())`. */
  function NamedChoices(cs: seq<Choice>): (r: seq<Choice>)
    ensures |r| <= |cs|
    ensures forall c :: c in r <==> c in cs && Named(c)
  {
    if |cs| == 0 then []
    else (if Named(cs[0]) then [cs[0]] else []) + NamedChoices(cs[1..])
  }

  /** Filtering twice is filtering once: reopening an opened option drops nothing more. */
  lemma {:induction false} NamedChoicesIdempotent(cs: seq<Choice>)
    ensures NamedChoices(NamedChoices(cs)) == NamedChoices(cs)
  {
    if |cs| > 0 {
      NamedChoicesIdempotent(cs[1..]);
      var rest := NamedChoices(cs[1..]);
      if Named(cs[0]) {
        assert NamedChoices(cs) == [cs[0]] + rest;
        assert ([cs[0]] + rest)[1..] == rest;
      } else {
        assert NamedChoices(cs) == rest;
      }
    }
  }

  /** A filter keeps the order: the named choices of a concatenation are concatenated. */
  lemma {:induction false} NamedChoicesAppend(a: seq<Choice>, b: seq<Choice>)
    ensures NamedChoices(a + b) == NamedChoices(a) + NamedChoices(b)
  {
    if |a| == 0 {
      assert a + b == b;
    } else {
      assert (a + b)[1..] == a[1..] + b;
      NamedChoicesAppend(a[1..], b);
    }
  }

  /**
   * The state the dialog opens with: `0`, `''`, `'single'` and `[]` for a
   * missing option, otherwise the option with only its named choices and a
   * falsy type replaced by `'single'` (an integer id or menu item id falls
   * back to `0` only when it is `0` already).
   */
  function Initial(option: Option<OrderOption>): (r: OrderOption)
    ensures option.None? ==> r == OrderOption(Int(0), "", "", Single, 0, [])
    ensures option.Some? ==>
      r == option.value.(kind := r.kind, choices := r.choices) &&
      r.kind == (if option.value.kind == "" then Single else option.value.kind)
    ensures forall c :: c in r.choices <==> option.Some? && c in option.value.choices && Named(c)
  {
    match option
    case None => OrderOption(Int(0), "", "", Single, 0, [])
    case Some(o) =>
      OrderOption(o.id, o.nameTH, o.nameEN, if o.kind != "" then o.kind else Single,
                  o.menuItemId, NamedChoices(o.choices))
  }

  /** Opening the state the dialog handed back opens the same state. */
  lemma ReopenSame(option: Option<OrderOption>)
    ensures Initial(Some(Initial(option))) == Initial(option)
  {
    if option.Some? {
      NamedChoicesIdempotent(option.value.choices);
    }
  }

  /** The trimmed text of a non-blank string is non-blank under `trim` again. */
  lemma TrimmedStaysNonBlank(s: string)
    requires Trim(s) != ""
    ensures Trim(Trim(s)) != ""
  {
    var t := Trim(s);
    TrimEmptyIff(t);
    assert !IsSpace(t[0]);
  }

  /** `handleAddChoice`'s guard: `newChoice.nameTH.trim() || newChoice.nameEN.trim()`. */
  predicate Fillable(row: NewChoice)
  {
    Trim(row.nameTH) != "" || Trim(row.nameEN) != ""
  }

  /** A choice made from a filled row by trimming its names is named. */
  lemma FilledRowNamed(row: NewChoice, c: Choice)
    requires Fillable(row) && c.nameTH == Trim(row.nameTH) && c.nameEN == Trim(row.nameEN)
    ensures Named(c)
  {
    if Trim(row.nameTH) != "" {
      TrimmedStaysNonBlank(row.nameTH);
    } else {
      TrimmedStaysNonBlank(row.nameEN);
    }
  }

  /**
   * `handleAddChoice`'s option update: a filled row becomes one more
   * choice, with trimmed names, the random id `randomId` and the option's own
   * id; a blank row changes nothing.
   */
  function WithChoice(o: OrderOption, row: NewChoice, randomId: real): (r: OrderOption)
    ensures !Fillable(row) ==> r == o
    ensures Fillable(row) ==>
      r == o.(choices := r.choices) &&
      |r.choices| == |o.choices| + 1 && r.choices[..|o.choices|] == o.choices &&
      r.choices[|o.choices|] == Choice(randomId, Trim(row.nameTH), Trim(row.nameEN), o.id) &&
      Named(r.choices[|o.choices|])
  {
    if Fillable(row) then
      var c := Choice(randomId, Trim(row.nameTH), Trim(row.nameEN), o.id);
      FilledRowNamed(row, c);
      assert (o.choices + [c])[..|o.choices|] == o.choices;
      o.(choices := o.choices + [c])
    else o
  }

  /** An added choice survives the next opening of the option, after the others that survive. */
  lemma AddedChoiceKept(o: OrderOption, row: NewChoice, randomId: real)
    requires Fillable(row)
    ensures var r := WithChoice(o, row, randomId);
      NamedChoices(r.choices) == NamedChoices(o.choices) + [r.choices[|o.choices|]]
  {
    var r := WithChoice(o, row, randomId);
    var c := r.choices[|o.choices|];
    assert r.choices == o.choices + [c];
    NamedChoicesAppend(o.choices, [c]);
    assert NamedChoices([c]) == [c] + NamedChoices([c][1..]);
  }

  /** `handleRemoveChoice`: the choice at `index` goes, the others stay in order. */
  function WithoutChoice(o: OrderOption, index: int): (r: OrderOption)
    ensures r == o.(choices := r.choices)
    ensures 0 <= index < |o.choices| ==> r.choices == o.choices[..index] + o.choices[index + 1..]
    ensures !(0 <= index < |o.choices|) ==> r == o
  {
    DropIndexRemoves(o.choices, index, 0);
    o.(choices := DropIndex(o.choices, index, 0))
  }

  /** The inline inputs of choice `index`: `{ ...choice, [field]: value }` at that index. */
  function RenamedChoice(o: OrderOption, index: nat, field: Field, value: string): (r: OrderOption)
    requires index < |o.choices|
    ensures r == o.(choices := r.choices) && |r.choices| == |o.choices|
    ensures forall k :: 0 <= k < |o.choices| && k != index ==> r.choices[k] == o.choices[k]
    ensures field == NameTH ==> r.choices[index] == o.choices[index].(nameTH := value)
    ensures field == NameEN ==> r.choices[index] == o.choices[index].(nameEN := value)
  {
    var c := o.choices[index];
    o.(choices := o.choices[index := if field == NameTH then c.(nameTH := value) else c.(nameEN := value)])
  }

  /**
   * Renaming in place is not checked: blanking the only name of a choice
   * keeps it in the option, and it is dropped only the next time the
   * option is opened.
   */
  lemma BlankedChoiceDroppedOnReopen(o: OrderOption)
    requires |o.choices| == 1 && o.choices[0].nameEN == ""
    ensures var r := RenamedChoice(o, 0, NameTH, " ");
      |r.choices| == 1 && !Named(r.choices[0]) && Initial(Some(r)).choices == []
  {
    var r := RenamedChoice(o, 0, NameTH, " ");
    assert r.choices == [r.choices[0]];
    TrimEmptyIff(" ");
    TrimEmptyIff("");
    assert !Named(r.choices[0]);
    assert NamedChoices(r.choices) == [] + NamedChoices(r.choices[1..]);
  }

  /** The dialog's state. */
  class OptionDialog {
    var editedOption: OrderOption
    var newChoice: NewChoice

    /** Mounting with `option`. */
    constructor (option: Option<OrderOption>)
      ensures editedOption == Initial(option) && newChoice == BlankRow
    {
      editedOption := Initial(option);
      newChoice := BlankRow;
    }

    /** The effect on a new `option` prop: a missing option keeps the current state. */
    method OptionChanged(option: Option<OrderOption>)
      modifies this`editedOption
      ensures editedOption == if option.Some? then Initial(option) else old(editedOption)
    {
      if option.Some? {
        editedOption := Initial(option);
      }
    }

    /** `handleInputChange`: only the named field changes. */
    method HandleInputChange(field: Field, value: string)
      modifies this`editedOption
      ensures field == NameTH ==> editedOption == old(editedOption).(nameTH := value)
      ensures field == NameEN ==> editedOption == old(editedOption).(nameEN := value)
    {
      match field
      case NameTH => editedOption := editedOption.(nameTH := value);
      case NameEN => editedOption := editedOption.(nameEN := value);
    }

    /** `handleTypeChange`: only the type changes. */
    method HandleTypeChange(kind: string)
      requires kind == Single || kind == Multiple
      modifies this`editedOption
      ensures editedOption == old(editedOption).(kind := kind)
    {
      editedOption := editedOption.(kind := kind);
    }

    /** Typing into the new-choice row. */
    method TypeNewChoice(field: Field, value: string)
      modifies this`newChoice
      ensures field == NameTH ==> newChoice == old(newChoice).(nameTH := value)
      ensures field == NameEN ==> newChoice == old(newChoice).(nameEN := value)
    {
      match field
      case NameTH => newChoice := newChoice.(nameTH := value);
      case NameEN => newChoice := newChoice.(nameEN := value);
    }

    /**
     * `handleAddChoice`; `randomId` is the `Math.random()` id. The row is
     * cleared only when it was added.
     */
    method HandleAddChoice(randomId: real)
      modifies this
      ensures editedOption == WithChoice(old(editedOption), old(newChoice), randomId)
      ensures newChoice == if Fillable(old(newChoice)) then BlankRow else old(newChoice)
    {
      if Trim(newChoice.nameTH) != "" || Trim(newChoice.nameEN) != "" {
        editedOption := WithChoice(editedOption, newChoice, randomId);
        newChoice := BlankRow;
      }
    }

    /** `handleRemoveChoice`. */
    method HandleRemoveChoice(index: int)
      modifies this`editedOption
      ensures editedOption == WithoutChoice(old(editedOption), index)
    {
      editedOption := WithoutChoice(editedOption, index);
    }

    /** The inline inputs of an existing choice. */
    method HandleChoiceInput(index: nat, field: Field, value: string)
      requires index < |editedOption.choices|
      modifies this`editedOption
      ensures editedOption == RenamedChoice(old(editedOption), index, field, value)
    {
      editedOption := RenamedChoice(editedOption, index, field, value);
    }

    /** `handleSubmit`: the edited option goes to `onSave`, then the dialog closes. */
    method HandleSubmit() returns (saved: OrderOption)
      ensures saved == editedOption
    {
      saved := editedOption;
    }
  }
}
