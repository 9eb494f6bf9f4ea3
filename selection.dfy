/**
 * Resolving a list of selected field names against a catalog (the loop in
 * each subclass's `setSelectedFields`), and the display-name rule that
 * `getFields` applies when it registers the selected fields as columns.
 */
module Selection {
  import opened Wrappers
  import opened Objects
  import opened Fields

  /** `valueOf` of each selected name, in order. */
  function Resolutions(kind: Kind, names: seq<JString>): (rs: seq<Result<Field, Error>>)
    ensures |rs| == |names|
  {
    seq(|names|, j requires 0 <= j < |names| => ValueOf(kind, names[j]))
  }

  /**
   * The contents of `selectedFields` after `setSelectedFields(names)`: a
   * fresh array as long as `names` (empty for `null`), holding the resolved
   * constants up to the first name that raised and `null` after it.
   */
  function SelectedArray(kind: Kind, names: Option<seq<JString>>): seq<FieldRef>
  {
    if names.None? then []
    else
      var p := Run(Resolutions(kind, names.value));
      seq(|names.value|, j requires 0 <= j < |names.value| =>
        if j < |p.done| then Some(p.done[j]) else None)
  }

  /** Whether `setSelectedFields(names)` completes or raises, and which exception. */
  function SelectOutcome(kind: Kind, names: Option<seq<JString>>): Outcome<Error>
  {
    if names.None? then Pass
    else
      var p := Run(Resolutions(kind, names.value));
      if p.failure.Some? then Fail(p.failure.value) else Pass
  }

  /**
   * An array that holds the first `i` resolutions and `null` after them is
   * the selection `setSelectedFields(names)` leaves, once resolution `i`
   * raised or there is none.
   */
  lemma SelectionStopsAt(kind: Kind, names: seq<JString>, filled: seq<FieldRef>, i: nat)
    requires |filled| == |names| && i <= |names|
    requires forall j :: 0 <= j < i ==> Resolutions(kind, names)[j].Ok? && filled[j] == Some(Resolutions(kind, names)[j].value)
    requires forall j :: i <= j < |names| ==> filled[j].None?
    requires i < |names| ==> Resolutions(kind, names)[i].Err?
    ensures filled == SelectedArray(kind, Some(names))
    ensures SelectOutcome(kind, Some(names)) ==
      if i < |names| then Fail(Resolutions(kind, names)[i].error) else Pass
  {
    var rs := Resolutions(kind, names);
    RunStopsAt(rs, i);
    var sel := SelectedArray(kind, Some(names));
    assert |sel| == |filled|;
    forall j | 0 <= j < |filled| ensures filled[j] == sel[j] {
    }
  }

  /** The names of the given constants, as `c.name()` gives them. */
  function NamesOf(fs: seq<Field>): seq<JString>
  {
    seq(|fs|, i requires 0 <= i < |fs| => Some(Name(fs[i])))
  }

  /**
   * Selecting the names of constants of the kind's enum, in any order and
   * with repeats, selects exactly those constants, in that order.
   */
  lemma SelectNamesOf(kind: Kind, fs: seq<Field>)
    requires forall i :: 0 <= i < |fs| ==> KindOf(fs[i]) == kind
    ensures SelectedArray(kind, Some(NamesOf(fs))) == seq(|fs|, i requires 0 <= i < |fs| => Some(fs[i]))
    ensures SelectOutcome(kind, Some(NamesOf(fs))) == Pass
  {
    var names := NamesOf(fs);
    forall i | 0 <= i < |fs| ensures Resolutions(kind, names)[i] == Ok(fs[i]) {
      ValueOfName(fs[i]);
    }
    SelectionStopsAt(kind, names, seq(|fs|, i requires 0 <= i < |fs| => Some(fs[i])), |fs|);
  }

  /**
   * Selecting `null` gives the empty selection; otherwise the selection is as
   * long as the name list, and when every name resolves, entry `i` is the
   * catalog constant named `names[i]`. A name that does not resolve makes
   * the call raise (never a default): the exception of the first such name.
   */
  lemma SelectionResolvesInOrder(kind: Kind, names: Option<seq<JString>>)
    ensures names.None? ==> SelectedArray(kind, names) == [] && SelectOutcome(kind, names) == Pass
    ensures names.Some? ==> |SelectedArray(kind, names)| == |names.value|
    ensures names.Some? ==>
      (SelectOutcome(kind, names) == Pass <==>
       forall i :: 0 <= i < |names.value| ==> ValueOf(kind, names.value[i]).Ok?)
    ensures SelectOutcome(kind, names) == Pass ==>
      forall i :: 0 <= i < |SelectedArray(kind, names)| ==>
        SelectedArray(kind, names)[i].Some? &&
        KindOf(SelectedArray(kind, names)[i].value) == kind &&
        names.Some? && Name(SelectedArray(kind, names)[i].value) == names.value[i].value
    ensures SelectOutcome(kind, names).Fail? ==>
      names.Some? &&
      exists k :: 0 <= k < |names.value| && ValueOf(kind, names.value[k]).Err? &&
        SelectOutcome(kind, names).error == ValueOf(kind, names.value[k]).error &&
        (forall i :: 0 <= i < k ==> ValueOf(kind, names.value[i]).Ok?)
  {
    if names.Some? {
      var ns := names.value;
      var rs := Resolutions(kind, ns);
      RunSpec(rs);
      var p := Run(rs);
      if |p.done| < |ns| {
        var k := |p.done|;
        assert rs[k] == ValueOf(kind, ns[k]);
        forall i | 0 <= i < k ensures ValueOf(kind, ns[i]).Ok? {
          assert rs[i] == ValueOf(kind, ns[i]);
        }
      } else {
        forall i | 0 <= i < |ns| ensures ValueOf(kind, ns[i]).Ok? {
          assert rs[i] == ValueOf(kind, ns[i]);
        }
      }
    }
  }

  /** Every non-null entry of a resolved selection is a constant of the kind's enum. */
  lemma SelectedArrayOfKind(kind: Kind, names: Option<seq<JString>>)
    ensures OfKind(SelectedArray(kind, names), kind)
  {
    if names.Some? {
      var rs := Resolutions(kind, names.value);
      RunSpec(rs);
      forall j | 0 <= j < |Run(rs).done| ensures KindOf(Run(rs).done[j]) == kind {
        assert rs[j] == ValueOf(kind, names.value[j]);
      }
    }
  }

  /** A Kettle column as `getFields` registers it: display name, metadata and origin step. */
  datatype Column = Column(name: string, meta: FieldMeta, origin: string)

  /** The name a selected field is registered under: its override when that is non-empty. */
  function DisplayName(overrideName: JString, f: Field): string
  {
    if IsEmpty(overrideName) then Name(f) else overrideName.value
  }

  /**
   * One iteration of `getFields`: a null entry raises when its metadata is
   * read; then a null override array raises, a short one is indexed out of
   * bounds; otherwise the column carries the display name.
   */
  function ColumnAt(ref: FieldRef, overrides: Option<seq<JString>>, i: nat, origin: string): Result<Column, Error>
  {
    if ref.None? then Err(NullPointer)
    else if overrides.None? then Err(NullPointer)
    else if i >= |overrides.value| then Err(IndexOutOfBounds)
    else Ok(Column(DisplayName(overrides.value[i], ref.value), Meta(ref.value), origin))
  }

  /** Each iteration of `getFields`, in selection order. */
  function ColumnResults(selected: seq<FieldRef>, overrides: Option<seq<JString>>, origin: string): (rs: seq<Result<Column, Error>>)
    ensures |rs| == |selected|
  {
    seq(|selected|, j requires 0 <= j < |selected| => ColumnAt(selected[j], overrides, j, origin))
  }

  /**
   * With no null entry and an override for every selected field, `getFields`
   * registers one column per selected field, in selection order, named by
   * the override when it is non-empty and by the field's own name otherwise.
   */
  lemma DisplayNameRule(selected: seq<FieldRef>, overrides: seq<JString>, origin: string)
    requires forall i :: 0 <= i < |selected| ==> selected[i].Some?
    requires |overrides| >= |selected|
    ensures Run(ColumnResults(selected, Some(overrides), origin)).failure.None?
    ensures |Run(ColumnResults(selected, Some(overrides), origin)).done| == |selected|
    ensures forall i :: 0 <= i < |selected| ==>
      var c := Run(ColumnResults(selected, Some(overrides), origin)).done[i];
      c.meta == Meta(selected[i].value) && c.origin == origin &&
      c.name == (if overrides[i].None? || overrides[i].value == "" then Name(selected[i].value) else overrides[i].value)
  {
    var rs := ColumnResults(selected, Some(overrides), origin);
    RunStopsAt(rs, |rs|);
  }
}
